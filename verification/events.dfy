/**
 * What the protocol reports to its observers: the WristbandProtocolError codes and one event
 * per IWristbandObserver callback.
 */
module Events {
  import opened Services
  import opened Steps

  /** WristbandProtocolError, in declaration order. */
  datatype ProtocolError =
    | InitializationFailed
    | ConnectionFailed
    | ReadStepsFailed
    | SetWristbandFailed
    | ClearHistoryFailed
    | InvalidNumberOfSteps
    | NotificationSubscriptionFailed
    | UnknownDeviceDetected

  /** One IWristbandObserver callback with its arguments. The steps payload is the protocol's own
      StepsData object, shared by reference as in the original. */
  datatype Event =
    | BluetoothInitialized
    | BluetoothDeInitialized
    | Error(error: ProtocolError, info: string)
    | DebugMessage(msg: string)
    | Connected(peripheralId: string, peripheralName: string, profile: Profile)
    | Disconnected
    | ProfileFound(peripheralId: string, peripheralName: string)
    | UnknownProfile(peripheralId: string, peripheralName: string)
    | StepsCollected(steps: StepsData)
    | WriteComplete
}
