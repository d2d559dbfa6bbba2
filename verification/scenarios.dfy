/**
 * Client-side runs of the protocol: the hardware's callbacks are invoked in the order a real
 * band produces them, and each run states the flags, requests and observer dispatches that
 * result. They follow the protocol's own test suite where that suite agrees with the code.
 */
module Scenarios {
  import opened Wrappers
  import opened Bytes
  import opened Text
  import opened Services
  import opened Steps
  import opened Events
  import opened Protocol

  /** The state of a protocol that has been created and nothing else. */
  const Fresh := ProtocolState(false, None, 0, 0, None, None, false, false, false, false)

  /** The state right after a successful initialization. */
  const Initialized := Fresh.(initialized := true)

  // ---------------------------------------------------------------------------------------------
  // Initialization

  /** Initialization whose hardware call succeeds: the handle is kept and the completion arrives. */
  method InitializeSucceeding(p: WristbandProtocol)
    requires p.Valid() && !p.initialized
    modifies p
    ensures p.Valid()
    ensures p.State() == old(p.State()).(initialized := true, busy := false)
    ensures p.requests == old(p.requests) + [Initialize(true, false)]
    ensures p.events == old(p.events) + [BluetoothInitialized]
  {
    p.InitialyzeCentral(true);
    p.InitCompleteHandler();
  }

  /**
   * A successful initialization: the protocol is initialized, has no profile, has found and
   * connected no device, has no history and is not busy; the observers heard
   * BluetoothInitialized once and no error.
   */
  method InitializeCentralRun() returns (st: ProtocolState, requests: seq<Request>, events: seq<Event>)
    ensures st == Initialized
    ensures requests == [Initialize(true, false)]
    ensures events == [BluetoothInitialized]
  {
    var p := new WristbandProtocol();
    InitializeSucceeding(p);
    st, requests, events := p.State(), p.requests, p.events;
  }

  /**
   * A failed initialization: the hardware returns no handle and reports the error, so the
   * protocol stays uninitialized and not busy, and the observers heard exactly one
   * INITIALIZATION_FAILED carrying the hardware's message.
   */
  method InitializeFailingRun(message: string) returns (st: ProtocolState, requests: seq<Request>, events: seq<Event>)
    ensures st == Fresh
    ensures requests == [Initialize(true, false)]
    ensures events == [Error(InitializationFailed, message)]
  {
    var p := new WristbandProtocol();
    p.InitialyzeCentral(false);
    p.InitErrorHandler(message);
    st, requests, events := p.State(), p.requests, p.events;
  }

  /** Initializing twice calls the hardware once; the second call only reports completion again. */
  method InitializeTwiceRun() returns (st: ProtocolState, requests: seq<Request>, events: seq<Event>)
    ensures st == Initialized
    ensures requests == [Initialize(true, false)]
    ensures events == [BluetoothInitialized, BluetoothInitialized]
  {
    var p := new WristbandProtocol();
    InitializeSucceeding(p);
    p.InitialyzeCentral(true);
    st, requests, events := p.State(), p.requests, p.events;
  }

  /**
   * Initialize, then de-initialize: the protocol ends uninitialized with every other flag clear,
   * the observers heard BluetoothInitialized and then BluetoothDeInitialized, and the hardware
   * was never asked to de-initialize.
   */
  method DeInitializeCentralRun() returns (st: ProtocolState, requests: seq<Request>, events: seq<Event>)
    ensures st == Fresh
    ensures requests == [Initialize(true, false)]
    ensures events == [BluetoothInitialized, BluetoothDeInitialized]
  {
    var p := new WristbandProtocol();
    InitializeSucceeding(p);
    p.DeInitialyzeCentral();
    st, requests, events := p.State(), p.requests, p.events;
  }

  // ---------------------------------------------------------------------------------------------
  // Connecting

  /** The hardware may report the service and characteristic ids in any letter case. */
  predicate ReportsFed1(serviceId: string, characteristicId: string)
  {
    ToUpperAscii(serviceId) == ServiceId && ToUpperAscii(characteristicId) == Fed1Id
  }

  /**
   * The scan and connect callbacks of a kids' band with the given id: found, connected, FED1
   * reported and subscribed, subscription confirmed. No callback on this path clears busy.
   */
  method ConnectKidsBand(p: WristbandProtocol, id: string, serviceId: string, characteristicId: string)
    requires p.Valid() && p.State() == Initialized && ReportsFed1(serviceId, characteristicId)
    modifies p
    ensures p.Valid()
    ensures p.State() == Initialized.(profile := Some(KidsProfile), peripheralId := Some(id),
                                       peripheralName := Some(KidsName), deviceFound := true,
                                       deviceConnected := true, busy := true)
    ensures p.requests == old(p.requests) +
      [ScanForPeripheralsWithServices([ServiceId]), ConnectToPeripheral(id), SubscribeCharacteristic(id, ServiceId, Fed1Id)]
    ensures p.events == old(p.events) +
      [ProfileFound(id, KidsName), DebugMessage(SubscribedPrefix + Fed1Id), Connected(id, KidsName, KidsProfile)]
  {
    p.ScanForDeviceAndAutoConnect();
    p.ScanForPeripheralsWithServicesResponseHandler(id, KidsName);
    p.ConnectToPeripheralConnectHandler(id);
    p.ConnectToPeripheralCharacteristicHandler(id, serviceId, characteristicId);
    var outcome := p.NotificationHandler(Fed1Id);
  }

  /**
   * After connecting, the protocol is still busy from the scan: a read is refused with the busy
   * reason alone. Stopping the scan clears busy, and the same read then goes out to FED2 of the
   * first listed device.
   */
  method ReadAfterConnectRun(id: string, serviceId: string, characteristicId: string, device: string)
    returns (refusal: Event, read: seq<Request>, st: ProtocolState)
    requires ReportsFed1(serviceId, characteristicId)
    ensures refusal == Error(ReadStepsFailed, ReadFailedPrefix + "Is busy at the moment!")
    ensures read == [ReadCharacteristic(Some(device), ServiceId, Fed2Id)]
    ensures st == Initialized.(profile := Some(KidsProfile), peripheralId := Some(id), peripheralName := Some(KidsName),
                               deviceFound := true, deviceConnected := true, busy := true)
  {
    var p := new WristbandProtocol();
    InitializeSucceeding(p);
    ConnectKidsBand(p, id, serviceId, characteristicId);
    var needs := Needs(true, true, true, true, true, false);
    DiagnosticPieces(p.State(), needs);
    var outcome := p.ReadStepsAndExercizeTime(Some([device]));
    refusal := p.events[|p.events| - 1];
    p.StopScan();
    var before := p.requests;
    outcome := p.ReadStepsAndExercizeTime(Some([device]));
    read := p.requests[|before|..];
    st := p.State();
  }

  // ---------------------------------------------------------------------------------------------
  // Reading the history

  /** The write that asks for history day d: its index as one byte, to FED1 of the device. */
  function DayWrite(device: string, d: nat): Request
    requires d < 0x100
  {
    WriteCharacteristic(device, ServiceId, Fed1Id, [d as byte], 1, true, ToWriteResponse)
  }

  /** The requests for days 0, 1, ..., n - 1, in that order. */
  function DayWrites(device: string, n: nat): (rs: seq<Request>)
    requires n <= 0x100
    ensures |rs| == n && forall d :: 0 <= d < n ==> rs[d] == DayWrite(device, d)
  {
    seq(n, d requires 0 <= d < n => DayWrite(device, d))
  }

  /** The first m progress lines of a walk over n days. */
  function DayMessages(m: nat, n: nat): (es: seq<Event>)
    ensures |es| == m && forall d :: 0 <= d < m ==> es[d] == DebugMessage(DayMessage(d, n))
  {
    seq(m, d requires 0 <= d < m => DebugMessage(DayMessage(d, n)))
  }

  lemma DayWritesNext(device: string, n: nat)
    requires n < 0x100
    ensures DayWrites(device, n + 1) == DayWrites(device, n) + [DayWrite(device, n)]
  {
    assert DayWrites(device, n + 1)[..n] == DayWrites(device, n);
  }

  lemma DayMessagesNext(m: nat, n: nat)
    ensures DayMessages(m + 1, n) == DayMessages(m, n) + [DebugMessage(DayMessage(m, n))]
  {
    assert DayMessages(m + 1, n)[..m] == DayMessages(m, n);
  }

  /**
   * The history walk has taken in k of the |days| notifications: the days so far are kept and
   * the request for the next day is out, or, once all are in, the walk has ended and reported
   * the collected steps.
   */
  ghost predicate Walked(p: WristbandProtocol, k: nat, start: ProtocolState, r0: seq<Request>, e0: seq<Event>,
                         today: Buffer, days: seq<Buffer>, device: string)
    reads p, p.steps
    requires k <= |days| <= 0xFF
  {
    var n := |days|;
    p.Valid() && p.steps.today == today && p.steps.history == days[..k] &&
    p.State() == (if k < n then start.(daysReturned := k)
                  else start.(daysReturned := n, busy := false, historyRetrieved := true)) &&
    p.requests == r0 + DayWrites(device, if k < n then k + 1 else n) &&
    p.events == e0 + DayMessages(k + 1, n) + (if k < n then [] else [StepsCollected(p.steps)])
  }

  /** A plausible summary starts the walk: day 0 is asked for, or an empty history ends it at once. */
  method StartWalk(p: WristbandProtocol, today: Buffer, days: seq<Buffer>, device: string) returns (outcome: Outcome)
    requires p.Valid() && p.initialized && p.connectedProfile.Some?
    requires !Corrupted(today) && |days| == NrOfStepsRecords(today)
    modifies p, p.steps
    ensures outcome == Completed
    ensures Walked(p, 0, old(p.State()).(daysReturned := 0), old(p.requests),
                   old(p.events) + [DebugMessage(HistoryStartMessage)], today, days, device)
  {
    ConnectedCharacteristic(p.connectedProfile, A);
    assert DayMessages(1, |days|) == [DebugMessage(DayMessage(0, |days|))];
    assert days[..0] == [];
    outcome := p.ReadCharacteristicsHandler(Fed2Id, today, Some([device]));
  }

  /** Day k comes in: it is kept, and day k + 1 is asked for or the walk ends. */
  method WalkStep(p: WristbandProtocol, k: nat, ghost start: ProtocolState, ghost r0: seq<Request>, ghost e0: seq<Event>,
                  today: Buffer, days: seq<Buffer>, device: string) returns (outcome: Outcome)
    requires k < |days| == NrOfStepsRecords(today)
    requires start.initialized && start.profile.Some?
    requires Walked(p, k, start, r0, e0, today, days, device)
    modifies p, p.steps
    ensures outcome == Completed
    ensures Walked(p, k + 1, start, r0, e0, today, days, device)
  {
    assert days[..k + 1] == days[..k] + [days[k]];
    DayMessagesNext(k + 1, |days|);
    ConnectedCharacteristic(p.connectedProfile, A);
    if k + 1 < |days| {
      DayWritesNext(device, k + 1);
      outcome := NextDay(p, k, start, today, days, device);
    } else {
      outcome := LastDay(p, k, start, today, days, device);
    }
  }

  /** A day that is not the last: the walk asks for the following one. */
  method NextDay(p: WristbandProtocol, k: nat, ghost start: ProtocolState, today: Buffer, days: seq<Buffer>, device: string)
    returns (outcome: Outcome)
    requires k + 1 < |days| == NrOfStepsRecords(today)
    requires start.initialized && start.profile.Some? && start.profile.value.id == ServiceId
    requires p.Valid() && p.steps.today == today && p.State() == start.(daysReturned := k)
    modifies p, p.steps
    ensures outcome == Completed
    ensures p.Valid() && p.steps.today == today && p.steps.history == old(p.steps.history) + [days[k]]
    ensures p.State() == start.(daysReturned := k + 1)
    ensures p.requests == old(p.requests) + [DayWrite(device, k + 1)]
    ensures p.events == old(p.events) + [DebugMessage(DayMessage(k + 1, |days|))]
  {
    outcome := p.NotificationUpdateHandler(Fed1Id, days[k], Some([device]));
  }

  /** The last day: the walk ends, with busy cleared, the history marked read and the steps reported. */
  method LastDay(p: WristbandProtocol, k: nat, ghost start: ProtocolState, today: Buffer, days: seq<Buffer>, device: string)
    returns (outcome: Outcome)
    requires k + 1 == |days| == NrOfStepsRecords(today)
    requires p.Valid() && p.steps.today == today && p.State() == start.(daysReturned := k)
    modifies p, p.steps
    ensures outcome == Completed
    ensures p.Valid() && p.steps.today == today && p.steps.history == old(p.steps.history) + [days[k]]
    ensures p.State() == start.(daysReturned := k + 1, busy := false, historyRetrieved := true)
    ensures p.requests == old(p.requests)
    ensures p.events == old(p.events) + [DebugMessage(DayMessage(k + 1, |days|)), StepsCollected(p.steps)]
  {
    outcome := p.NotificationUpdateHandler(Fed1Id, days[k], Some([device]));
  }

  /**
   * A plausible summary with n history days, then n notifications: the protocol writes the day
   * indices 0, 1, ..., n - 1 in order, one per notification, keeps each day that comes in, and
   * after the last one clears busy, marks the history as read and reports the collected steps
   * exactly once, as the last dispatch.
   */
  method HistoryWalk(p: WristbandProtocol, today: Buffer, days: seq<Buffer>, device: string) returns (outcome: Outcome)
    requires p.Valid() && p.initialized && p.connectedProfile.Some?
    requires !Corrupted(today) && |days| == NrOfStepsRecords(today)
    modifies p, p.steps
    ensures p.Valid() && outcome == Completed
    ensures p.State() == old(p.State()).(daysReturned := |days|, busy := false, historyRetrieved := true)
    ensures p.steps.today == today && p.steps.history == days
    ensures p.requests == old(p.requests) + DayWrites(device, |days|)
    ensures p.events == old(p.events) + [DebugMessage(HistoryStartMessage)] + DayMessages(|days| + 1, |days|) +
                        [StepsCollected(p.steps)]
  {
    ghost var start := p.State().(daysReturned := 0);
    ghost var r0 := p.requests;
    ghost var e0 := p.events + [DebugMessage(HistoryStartMessage)];
    outcome := StartWalk(p, today, days, device);
    var k := 0;
    while k < |days|
      invariant k <= |days| && outcome == Completed
      invariant Walked(p, k, start, r0, e0, today, days, device)
    {
      outcome := WalkStep(p, k, start, r0, e0, today, days, device);
      k := k + 1;
    }
    assert days[..k] == days;
  }

  /**
   * A whole synchronisation with a kids' band: initialize, connect, stop the scan, read today's
   * summary and walk the history it announces. The hardware sees the connection requests, the
   * stop, one FED2 read and then one write per history day; the protocol ends with the history
   * read and no longer busy.
   */
  method SyncRun(id: string, serviceId: string, characteristicId: string, device: string, today: Buffer,
                 days: seq<Buffer>)
    returns (st: ProtocolState, requests: seq<Request>, history: seq<Buffer>)
    requires ReportsFed1(serviceId, characteristicId)
    requires !Corrupted(today) && |days| == NrOfStepsRecords(today)
    ensures st == Initialized.(profile := Some(KidsProfile), peripheralId := Some(id), peripheralName := Some(KidsName),
                               deviceFound := true, deviceConnected := true, historyRetrieved := true,
                               daysReturned := |days|)
    ensures requests == [Initialize(true, false), ScanForPeripheralsWithServices([ServiceId]), ConnectToPeripheral(id),
                         SubscribeCharacteristic(id, ServiceId, Fed1Id), StopScanning,
                         ReadCharacteristic(Some(device), ServiceId, Fed2Id)] + DayWrites(device, |days|)
    ensures history == days
  {
    var p := new WristbandProtocol();
    InitializeSucceeding(p);
    ConnectKidsBand(p, id, serviceId, characteristicId);
    p.StopScan();
    var outcome := p.ReadStepsAndExercizeTime(Some([device]));
    outcome := HistoryWalk(p, today, days, device);
    st, requests, history := p.State(), p.requests, p.steps.history;
  }

  // ---------------------------------------------------------------------------------------------
  // Corrupted reads

  /** n copies of x. */
  function Repeat<T>(x: T, n: nat): (xs: seq<T>)
    ensures |xs| == n && forall i :: 0 <= i < n ==> xs[i] == x
  {
    seq(n, _ => x)
  }

  lemma RepeatNext<T>(x: T, n: nat)
    ensures Repeat(x, n + 1) == Repeat(x, n) + [x]
  {
    assert Repeat(x, n + 1)[..n] == Repeat(x, n);
  }

  /** The re-read of today's summary from the stored peripheral. */
  function Reread(st: ProtocolState): Request
  {
    ReadCharacteristic(st.peripheralId, ServiceId, Fed2Id)
  }

  /** k corrupted summaries have come in since the read started, each re-read and reported. */
  ghost predicate Retried(p: WristbandProtocol, k: nat, start: ProtocolState, r0: seq<Request>, e0: seq<Event>)
    reads p, p.steps
  {
    p.Valid() && p.steps.history == [] && p.steps.today.None? &&
    p.State() == start.(daysReturned := 0, numRetries := k) &&
    p.requests == r0 + Repeat(Reread(start), k) &&
    p.events == e0 + Repeat(Error(InvalidNumberOfSteps, InvalidStepsInfo), k)
  }

  /** The first corrupted summary: the first re-read and the first report. */
  method FirstRetry(p: WristbandProtocol, dat: Buffer, devices: Option<seq<string>>) returns (outcome: Outcome)
    requires p.Valid() && p.connectedProfile.Some? && p.numRetries == 0 && Corrupted(dat)
    modifies p, p.steps
    ensures outcome == Completed
    ensures Retried(p, 1, old(p.State()), old(p.requests), old(p.events))
  {
    ghost var start := p.State();
    assert Repeat(Reread(start), 1) == [Reread(start)];
    assert Repeat(Error(InvalidNumberOfSteps, InvalidStepsInfo), 1) == [Error(InvalidNumberOfSteps, InvalidStepsInfo)];
    ConnectedCharacteristic(p.connectedProfile, B);
    outcome := p.ReadCharacteristicsHandler(Fed2Id, dat, devices);
  }

  /** One more corrupted summary while retries remain: one more re-read and one more report. */
  method RetryStep(p: WristbandProtocol, k: nat, ghost start: ProtocolState, ghost r0: seq<Request>, ghost e0: seq<Event>,
                   dat: Buffer, devices: Option<seq<string>>) returns (outcome: Outcome)
    requires k < MaxRetries && Corrupted(dat) && start.profile.Some?
    requires Retried(p, k, start, r0, e0)
    modifies p, p.steps
    ensures outcome == Completed
    ensures Retried(p, k + 1, start, r0, e0)
  {
    RepeatNext(Reread(start), k);
    RepeatNext(Error(InvalidNumberOfSteps, InvalidStepsInfo), k);
    assert r0 + Repeat(Reread(start), k + 1) == p.requests + [Reread(start)];
    assert e0 + Repeat(Error(InvalidNumberOfSteps, InvalidStepsInfo), k + 1) ==
      p.events + [Error(InvalidNumberOfSteps, InvalidStepsInfo)];
    ConnectedCharacteristic(p.connectedProfile, B);
    outcome := p.ReadCharacteristicsHandler(Fed2Id, dat, devices);
  }

  /**
   * A band that answers every read of today's summary with a corrupted step count: the protocol
   * re-reads FED2 from the stored peripheral exactly ten times, reporting each corrupted read,
   * and the eleventh answer ends the loop with the terminal error and busy cleared. The steps
   * are never reported.
   */
  method RetryBound(p: WristbandProtocol, dat: Buffer, devices: Option<seq<string>>) returns (outcome: Outcome)
    requires p.Valid() && p.connectedProfile.Some? && p.numRetries == 0 && Corrupted(dat)
    modifies p, p.steps
    ensures p.Valid() && outcome == Completed
    ensures p.State() == old(p.State()).(daysReturned := 0, numRetries := MaxRetries, busy := false)
    ensures p.steps.today == dat && p.steps.history == []
    ensures p.requests == old(p.requests) + Repeat(Reread(old(p.State())), MaxRetries)
    ensures p.events == old(p.events) + Repeat(Error(InvalidNumberOfSteps, InvalidStepsInfo), MaxRetries) +
                        [Error(InvalidNumberOfSteps, RetriesExhaustedInfo(StepsToday(dat)))]
    ensures forall i :: |old(p.events)| <= i < |p.events| ==> p.events[i].Error?
  {
    ghost var start := p.State();
    ghost var r0 := p.requests;
    ghost var e0 := p.events;
    outcome := FirstRetry(p, dat, devices);
    var k := 1;
    while k < MaxRetries
      invariant 1 <= k <= MaxRetries && outcome == Completed
      invariant Retried(p, k, start, r0, e0)
    {
      outcome := RetryStep(p, k, start, r0, e0, dat, devices);
      k := k + 1;
    }
    outcome := RetriesExhausted(p, start, dat, devices);
  }

  /** A corrupted summary once the retries are used up: busy is cleared and the terminal error reported. */
  method RetriesExhausted(p: WristbandProtocol, ghost start: ProtocolState, dat: Buffer, devices: Option<seq<string>>)
    returns (outcome: Outcome)
    requires Corrupted(dat) && p.Valid() && p.State() == start.(daysReturned := 0, numRetries := MaxRetries)
    modifies p, p.steps
    ensures outcome == Completed
    ensures p.Valid() && p.steps.today == dat && p.steps.history == []
    ensures p.State() == start.(daysReturned := 0, numRetries := MaxRetries, busy := false)
    ensures p.requests == old(p.requests)
    ensures p.events == old(p.events) + [Error(InvalidNumberOfSteps, RetriesExhaustedInfo(StepsToday(dat)))]
  {
    outcome := p.ReadCharacteristicsHandler(Fed2Id, dat, devices);
  }

  // ---------------------------------------------------------------------------------------------
  // Disconnecting

  /**
   * Disconnecting a connected band: the profile is dropped at once and the first device is
   * disconnected; its completion forgets the device and its history, clears busy and reports
   * the disconnection once.
   */
  method DisconnectRun(p: WristbandProtocol, device: string)
    requires p.Valid() && p.initialized
    modifies p
    ensures p.Valid()
    ensures p.State() == old(p.State()).(profile := None, deviceFound := false, deviceConnected := false,
                                         historyRetrieved := false, busy := false)
    ensures p.requests == old(p.requests) + [DisconnectPeripheral(device)]
    ensures p.events == old(p.events) + [Disconnected]
  {
    p.Disconnect(Some([device]));
    p.DisconnectDeviceComplete(device);
  }

  /** Without a device to disconnect, the disconnection is reported at once and no call is made. */
  method DisconnectWithoutDevicesRun(devices: Option<seq<string>>) returns (st: ProtocolState, requests: seq<Request>, events: seq<Event>)
    requires devices.None? || devices == Some([])
    ensures st == Initialized && requests == [Initialize(true, false)]
    ensures events == [BluetoothInitialized, Disconnected]
  {
    var p := new WristbandProtocol();
    InitializeSucceeding(p);
    p.Disconnect(devices);
    st, requests, events := p.State(), p.requests, p.events;
  }
}
