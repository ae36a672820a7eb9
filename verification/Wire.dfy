/** The wiring snapshot a coordinator holds (`module/state`), as it arrives. */
module Wire {
  import opened Wrappers

  const ROLE_STRIKE := "strike"
  const ROLE_POWER := "power"
  const ROLE_SENSOR := "sensor"
  const ROLE_EDGE := "edge"

  const KIND_START_GATE := "start_gate"
  const KIND_TRIP := "trip"

  const ON_DISCONNECT_FAIL_OFF := "fail_off"

  const RESOURCE_DOOR := "door"
  const PROFILE_UNTIL_STOPPED := "until_stopped"

  /** One device bound to a resource in one role. Times are milliseconds. */
  datatype DeviceBinding = DeviceBinding(
    id: string,
    deviceId: string,
    role: string,
    name: string,
    onDisconnect: string,
    startStage: int,
    startDelayMs: int,
    runOnMs: int,
    pulseMs: int)

  datatype InterlockRule = InterlockRule(
    kind: string,
    condition: string,
    debounceMs: int,
    latch: bool)

  /** A resource's wiring: its bindings and the rules that gate it. */
  datatype Tool = Tool(
    toolId: string,
    externalId: Option<string>,
    kind: string,
    sessionProfile: string,
    inUse: bool,
    modules: seq<DeviceBinding>,
    interlocks: seq<InterlockRule>)
}
