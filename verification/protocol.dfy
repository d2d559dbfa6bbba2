/**
 * WristbandProtocol: the state machine that drives a Boosth wristband over Bluetooth LE.
 *
 * Public commands check the protocol's flags, issue at most one call into the Bluetooth
 * hardware interface and report to the observers. The hardware answers later through the
 * private handlers, each of which is a method here that may be called in any order. The
 * hardware interface is a log of the requests made to it (`requests`); the observer callbacks
 * the inherited WristbandObservable dispatch methods make are a log of events (`events`), each
 * of which Observers.Observable.Notify delivers to every subscriber in list order. A C#
 * exception is a returned `Threw` outcome, with the changes made before the throw kept.
 */
module Protocol {
  import opened Wrappers
  import opened Bytes
  import opened Text
  import opened Services
  import opened Steps
  import opened Events

  // ---------------------------------------------------------------------------------------------
  // The hardware interface as seen by the protocol

  /** Which handler the hardware is to call back once a write is done: WriteCharacteristicHandler
      (settings and clear) or WriteCharacteristicResponse (history requests). */
  datatype WriteCallback = ToWriteHandler | ToWriteResponse

  /** One call into IBluetoothLEHardwareInterface. A device id that may be null is an Option. */
  datatype Request =
    | Initialize(asCentral: bool, asPeripheral: bool)
    | ScanForPeripheralsWithServices(serviceIds: seq<string>)
    | StopScanning
    | ConnectToPeripheral(peripheralId: string)
    | DisconnectPeripheral(peripheralId: string)
    | ReadCharacteristic(device: Option<string>, serviceId: string, characteristicId: string)
    | WriteCharacteristic(peripheralId: string, serviceId: string, characteristicId: string,
                          data: seq<byte>, length: int, withResponse: bool, callback: WriteCallback)
    | SubscribeCharacteristic(peripheralId: string, serviceId: string, characteristicId: string)

  /** The exceptions the protocol's own code can raise. */
  datatype Fault = NullReference | IndexOutOfRange | ServiceNotFound

  datatype Outcome = Completed | Threw(fault: Fault)

  /**
   * `bluetoothDeviceScript.DeviceList()[0]`: a null device script or a null list dereferences
   * null, and an empty list is indexed out of range. `devices` is what DeviceList() returns.
   */
  function FirstDevice(initialized: bool, devices: Option<seq<string>>): (r: Result<string, Fault>)
    ensures r.Success? <==> initialized && devices.Some? && |devices.value| > 0
    ensures r.Success? ==> r.value == devices.value[0]
    ensures r.Failure? ==> (r.error == IndexOutOfRange <==> initialized && devices == Some([]))
  {
    if !initialized || devices.None? then Failure(NullReference)
    else if |devices.value| == 0 then Failure(IndexOutOfRange)
    else Success(devices.value[0])
  }

  /** The outcome of a request whose arguments may throw. */
  function OutcomeOf(r: Result<Request, Fault>): Outcome
  {
    if r.Success? then Completed else Threw(r.error)
  }

  /** The requests actually made: none when the arguments threw. */
  function Sent(r: Result<Request, Fault>): seq<Request>
  {
    if r.Success? then [r.value] else []
  }

  // ---------------------------------------------------------------------------------------------
  // Constants

  /** stepsToday above this is treated as a corrupted read. */
  const MaxSteps := 10_000_000
  /** Corrupted reads are retried this many times before giving up. */
  const MaxRetries := 10
  /** The single byte that asks the band to erase its history. */
  const ClearHistoryRequest: byte := 0xA1

  const ScanFailedInfo := "Bluetooth Central Error, Rebooting Central..."
  const ReadFailedPrefix := "ReadStepsAndExercizeTime :: couldn't read steps -> possible reason(s): "
  const SetFailedPrefix := "SetClockAndUserSettings :: couldn't write settings -> possible reason(s): "
  const ClearFailedPrefix := "ClearHistory :: couldn't clear history -> possible reason(s): "
  const InvalidStepsInfo :=
    "ReadCharacteristicsHandler :: Invalid number of steps recieved from wristband -> All steps cleared!"
  const RetriesExhaustedPrefix :=
    "ReadCharacteristicsHandler :: maximum number of retries on 'invalid number of steps' reached, loop interrupted!"
  const HistoryStartMessage := "ReadCharacteristicsHandler :: Start recursive history retrieval"
  const SubscribedPrefix := "NotificationHandler :: Subscribtion successfull @:"
  const WriteResponsePrefix := "OrganixGATTprotocol.WriteCharacteristicRespose :: request successfull @:"
  const WrongDevicePrefix := "Peripheral found but has the wrong -> ID: "

  /** The debug line RecursiveStepsRequest emits before each step of the history walk. */
  function DayMessage(day: nat, records: nat): string
  {
    "RecursiveStepsRequest :: day " + NatToString(day) + "/" + NatToString(records)
  }

  /** The terminal error text after the retries are used up, ending with the step count read. */
  function RetriesExhaustedInfo(stepsToday: nat): string
  {
    RetriesExhaustedPrefix + NatToString(stepsToday) + " steps"
  }

  // ---------------------------------------------------------------------------------------------
  // Protocol state

  /** The protocol's fields other than the logs and the steps holder. */
  datatype ProtocolState = ProtocolState(
    initialized: bool,
    profile: Option<Profile>,
    daysReturned: nat,
    numRetries: nat,
    peripheralId: Option<string>,
    peripheralName: Option<string>,
    deviceFound: bool,
    deviceConnected: bool,
    historyRetrieved: bool,
    busy: bool)

  /** What the read, write and clear commands check before they talk to the band. */
  predicate Ready(st: ProtocolState, needsHistory: bool)
  {
    st.initialized && st.profile.Some? && st.deviceConnected && st.deviceFound && !st.busy &&
    (needsHistory ==> st.historyRetrieved)
  }

  // ---------------------------------------------------------------------------------------------
  // GetUnableToReadError's diagnostic

  /** The conditions a command can miss, in the order the diagnostic lists them. */
  datatype Reason = Busy | NotInitialized | NoProfile | NotDiscovered | NotConnected | NoHistory

  /** Which conditions the caller asks about (the six flags of GetUnableToReadError). */
  datatype Needs = Needs(notBusy: bool, init: bool, profile: bool, discovered: bool, connection: bool,
                         history: bool)

  function Rank(r: Reason): nat
  {
    match r
    case Busy => 0
    case NotInitialized => 1
    case NoProfile => 2
    case NotDiscovered => 3
    case NotConnected => 4
    case NoHistory => 5
  }


  function ReasonText(r: Reason): (t: string)
    ensures |t| > 0
  {
    match r
    case Busy => "Is busy at the moment!"
    case NotInitialized => "Not initialized! "
    case NoProfile => "Has no matching profile! "
    case NotDiscovered => "Device is not discovered! "
    case NotConnected => "Device is not connected! "
    case NoHistory => "No available history! "
  }

  predicate Requested(needs: Needs, r: Reason)
  {
    match r
    case Busy => needs.notBusy
    case NotInitialized => needs.init
    case NoProfile => needs.profile
    case NotDiscovered => needs.discovered
    case NotConnected => needs.connection
    case NoHistory => needs.history
  }

  /** The condition behind a reason is not met in this state. */
  predicate Unmet(st: ProtocolState, r: Reason)
  {
    match r
    case Busy => st.busy
    case NotInitialized => !st.initialized
    case NoProfile => st.profile.None?
    case NotDiscovered => !st.deviceFound
    case NotConnected => !st.deviceConnected
    case NoHistory => !st.historyRetrieved
  }

  /** The reason of each rank. */
  function ReasonOf(k: nat): (r: Reason)
    requires k < 6
    ensures Rank(r) == k
  {
    if k == 0 then Busy else if k == 1 then NotInitialized else if k == 2 then NoProfile
    else if k == 3 then NotDiscovered else if k == 4 then NotConnected else NoHistory
  }

  function Check(st: ProtocolState, needs: Needs, r: Reason): seq<Reason>
  {
    if Requested(needs, r) && Unmet(st, r) then [r] else []
  }

  /** The requested and unmet conditions of rank below k, in rank order. */
  function ReasonsBelow(st: ProtocolState, needs: Needs, k: nat): seq<Reason>
    requires k <= 6
  {
    if k == 0 then [] else ReasonsBelow(st, needs, k - 1) + Check(st, needs, ReasonOf(k - 1))
  }

  /** The requested and unmet conditions, in rank order. */
  function Reasons(st: ProtocolState, needs: Needs): seq<Reason>
  {
    ReasonsBelow(st, needs, 6)
  }

  /** The texts of the reasons, concatenated in order. */
  function Diagnostic(rs: seq<Reason>): string
  {
    if rs == [] then "" else Diagnostic(rs[..|rs| - 1]) + ReasonText(rs[|rs| - 1])
  }

  lemma {:induction false} ReasonsBelowExact(st: ProtocolState, needs: Needs, k: nat, r: Reason)
    requires k <= 6
    ensures r in ReasonsBelow(st, needs, k) <==> Rank(r) < k && Requested(needs, r) && Unmet(st, r)
  {
    if k > 0 {
      ReasonsBelowExact(st, needs, k - 1, r);
      assert Rank(r) == k - 1 <==> r == ReasonOf(k - 1);
    }
  }

  /** Exactly the requested conditions that are unmet are listed. */
  lemma ReasonsExact(st: ProtocolState, needs: Needs, r: Reason)
    ensures r in Reasons(st, needs) <==> Requested(needs, r) && Unmet(st, r)
  {
    ReasonsBelowExact(st, needs, 6, r);
  }

  /** rs is in strictly increasing rank order, every rank below k. */
  predicate OrderedBelow(rs: seq<Reason>, k: nat)
  {
    (forall i, j :: 0 <= i < j < |rs| ==> Rank(rs[i]) < Rank(rs[j])) &&
    (forall i :: 0 <= i < |rs| ==> Rank(rs[i]) < k)
  }

  lemma {:induction false} ReasonsBelowOrdered(st: ProtocolState, needs: Needs, k: nat)
    requires k <= 6
    ensures OrderedBelow(ReasonsBelow(st, needs, k), k)
  {
    if k > 0 {
      ReasonsBelowOrdered(st, needs, k - 1);
      var rs := ReasonsBelow(st, needs, k - 1);
      var out := rs + Check(st, needs, ReasonOf(k - 1));
      assert forall i :: 0 <= i < |rs| ==> out[i] == rs[i];
    }
  }

  /** Each reason is listed at most once, in the fixed rank order. */
  lemma ReasonsOrdered(st: ProtocolState, needs: Needs)
    ensures var rs := Reasons(st, needs);
      forall i, j :: 0 <= i < j < |rs| ==> Rank(rs[i]) < Rank(rs[j])
  {
    ReasonsBelowOrdered(st, needs, 6);
  }

  /** The diagnostic text is empty only when nothing is listed. */
  lemma {:induction false} DiagnosticEmpty(rs: seq<Reason>)
    ensures Diagnostic(rs) == "" <==> rs == []
  {
    if rs != [] {
      assert |ReasonText(rs[|rs| - 1])| > 0;
    }
  }

  /** The text a condition contributes to the diagnostic: its own when requested and unmet. */
  function Piece(st: ProtocolState, needs: Needs, r: Reason): string
  {
    if Requested(needs, r) && Unmet(st, r) then ReasonText(r) else ""
  }

  /** Listing one more condition appends its piece. */
  lemma DiagnosticStep(rs: seq<Reason>, st: ProtocolState, needs: Needs, r: Reason)
    ensures Diagnostic(rs + Check(st, needs, r)) == Diagnostic(rs) + Piece(st, needs, r)
  {
    if Requested(needs, r) && Unmet(st, r) {
      assert (rs + [r])[..|rs|] == rs;
    } else {
      assert rs + [] == rs;
    }
  }

  /** The diagnostic text of the conditions of rank below k, built one condition at a time. */
  function DiagnosticBelow(st: ProtocolState, needs: Needs, k: nat): string
    requires k <= 6
  {
    if k == 0 then "" else DiagnosticBelow(st, needs, k - 1) + Piece(st, needs, ReasonOf(k - 1))
  }

  lemma {:induction false} DiagnosticBelowReasons(st: ProtocolState, needs: Needs, k: nat)
    requires k <= 6
    ensures DiagnosticBelow(st, needs, k) == Diagnostic(ReasonsBelow(st, needs, k))
  {
    if k > 0 {
      DiagnosticBelowReasons(st, needs, k - 1);
      DiagnosticStep(ReasonsBelow(st, needs, k - 1), st, needs, ReasonOf(k - 1));
    }
  }

  /** The diagnostic spelled out condition by condition, in rank order. */
  lemma DiagnosticPieces(st: ProtocolState, needs: Needs)
    ensures Diagnostic(Reasons(st, needs)) ==
      Piece(st, needs, Busy) + Piece(st, needs, NotInitialized) + Piece(st, needs, NoProfile) +
      Piece(st, needs, NotDiscovered) + Piece(st, needs, NotConnected) + Piece(st, needs, NoHistory)
  {
    DiagnosticBelowReasons(st, needs, 6);
    DiagnosticBelowThree(st, needs);
    assert DiagnosticBelow(st, needs, 5) == DiagnosticBelow(st, needs, 4) + Piece(st, needs, NotConnected);
    assert DiagnosticBelow(st, needs, 6) ==
      DiagnosticBelow(st, needs, 3) + Piece(st, needs, NotDiscovered) + Piece(st, needs, NotConnected) +
      Piece(st, needs, NoHistory);
  }

  /** The first three conditions' pieces, in rank order. */
  lemma DiagnosticBelowThree(st: ProtocolState, needs: Needs)
    ensures DiagnosticBelow(st, needs, 3) ==
      Piece(st, needs, Busy) + Piece(st, needs, NotInitialized) + Piece(st, needs, NoProfile)
  {
    assert DiagnosticBelow(st, needs, 1) == Piece(st, needs, Busy);
  }

  /**
   * A command that asks about all five connection conditions (and optionally history) is
   * refused exactly when its diagnostic is non-empty: every refusal names a reason, and no
   * reason is given when the command proceeds.
   */
  lemma RefusalExplained(st: ProtocolState, needsHistory: bool)
    ensures Reasons(st, Needs(true, true, true, true, true, needsHistory)) == [] <==> Ready(st, needsHistory)
    ensures Diagnostic(Reasons(st, Needs(true, true, true, true, true, needsHistory))) == "" <==>
      Ready(st, needsHistory)
  {
    var needs := Needs(true, true, true, true, true, needsHistory);
    var rs := Reasons(st, needs);
    ReasonsExact(st, needs, Busy);
    ReasonsExact(st, needs, NotInitialized);
    ReasonsExact(st, needs, NoProfile);
    ReasonsExact(st, needs, NotDiscovered);
    ReasonsExact(st, needs, NotConnected);
    ReasonsExact(st, needs, NoHistory);
    if rs != [] {
      ReasonsExact(st, needs, rs[0]);
    }
    DiagnosticEmpty(rs);
  }

  /** No name, or one of the two names the registry knows. */
  predicate BoosthName(name: Option<string>)
  {
    name.Some? ==> name.value == KidsName || name.value == AdultsName
  }

  /** No profile, or one of the registry's two profiles. */
  predicate BoosthProfile(profile: Option<Profile>)
  {
    profile.Some? ==> profile.value == KidsProfile || profile.value == AdultsProfile
  }

  /** A connected Boosth profile serves the shared service, with FED1 under tag A and FED2 under B. */
  lemma ConnectedCharacteristic(profile: Option<Profile>, tag: Tag)
    requires BoosthProfile(profile) && profile.Some? && tag != C
    ensures profile.value.id == ServiceId
    ensures GetCharacteristicByTag(Profiles, profile.value.peripheralName, tag) ==
      Success(Characteristic(tag, if tag == A then Fed1Id else Fed2Id))
  {
    BuiltInCharacteristics(profile.value.peripheralName, tag);
  }

  // ---------------------------------------------------------------------------------------------
  // The protocol object

  class WristbandProtocol {
    /** bluetoothDeviceScript != null. */
    var initialized: bool
    /** connectedWristbandProfile (null when None). */
    var connectedProfile: Option<Profile>
    /** The steps holder; the same object for the protocol's whole life. */
    const steps: StepsData
    /** days_returned: how many history days have been received in this walk. */
    var daysReturned: nat
    var numRetries: nat
    var peripheralId: Option<string>
    var peripheralName: Option<string>
    var deviceFound: bool
    var deviceConnected: bool
    var historyRetrieved: bool
    var busy: bool
    /** Every call made into the Bluetooth hardware interface, oldest first. */
    var requests: seq<Request>
    /** Every observer dispatch made, oldest first. */
    var events: seq<Event>

    function State(): ProtocolState
      reads this
    {
      ProtocolState(initialized, connectedProfile, daysReturned, numRetries, peripheralId, peripheralName,
                    deviceFound, deviceConnected, historyRetrieved, busy)
    }

    /**
     * What every method keeps: the peripheral id and name are set together, only to a Boosth
     * name; a connected profile is one of the two registry profiles; the retry count never
     * passes its bound.
     */
    predicate Valid()
      reads this
    {
      (peripheralId.Some? <==> peripheralName.Some?) &&
      BoosthName(peripheralName) && BoosthProfile(connectedProfile) &&
      numRetries <= MaxRetries
    }

    constructor ()
      ensures Valid()
      ensures State() == ProtocolState(false, None, 0, 0, None, None, false, false, false, false)
      ensures requests == [] && events == []
      ensures fresh(steps) && steps.today.None? && steps.history == []
    {
      initialized := false;
      connectedProfile := None;
      steps := new StepsData();
      daysReturned := 0;
      numRetries := 0;
      peripheralId := None;
      peripheralName := None;
      deviceFound := false;
      deviceConnected := false;
      historyRetrieved := false;
      busy := false;
      requests := [];
      events := [];
    }

    // Queries

    /** ConnectedProfileType: the connected profile's kind; null profile dereferences null. */
    function ConnectedProfileType(): (r: Result<ProfileType, Fault>)
      reads this
      requires Valid()
      ensures r.Success? <==> connectedProfile.Some?
      ensures connectedProfile == Some(KidsProfile) ==> r == Success(BoosthKids)
      ensures connectedProfile == Some(AdultsProfile) ==> r == Success(BoosthAdults)
    {
      if connectedProfile.None? then Failure(NullReference) else Success(connectedProfile.value.description)
    }

    /** DeviceList: the device script's list when initialized (a null list dereferences null), else empty. */
    function DeviceList(devices: Option<seq<string>>): (r: Result<seq<string>, Fault>)
      reads this
      ensures !initialized ==> r == Success([])
      ensures initialized ==> (r.Success? <==> devices.Some?) && (devices.Some? ==> r.value == devices.value)
    {
      if !initialized then Success([])
      else if devices.None? then Failure(NullReference)
      else Success(devices.value)
    }

    /**
     * GetUnableToReadError: the texts of the requested conditions that are unmet, in the fixed
     * order busy, not initialized, no profile, not discovered, not connected, no history.
     */
    function GetUnableToReadError(needNotBeBusy: bool, needsInit: bool, needsProfile: bool, needsDiscovered: bool,
                                  needsConnection: bool, needsHistory: bool): (output: string)
      reads this
      ensures output == Diagnostic(Reasons(State(),
        Needs(needNotBeBusy, needsInit, needsProfile, needsDiscovered, needsConnection, needsHistory)))
    {
      var needs := Needs(needNotBeBusy, needsInit, needsProfile, needsDiscovered, needsConnection, needsHistory);
      DiagnosticPieces(State(), needs);
      Piece(State(), needs, Busy) + Piece(State(), needs, NotInitialized) + Piece(State(), needs, NoProfile) +
      Piece(State(), needs, NotDiscovered) + Piece(State(), needs, NotConnected) + Piece(State(), needs, NoHistory)
    }

    // Init and connect commands

    /**
     * InitialyzeCentral: when not yet initialized, asks the hardware to initialize as a central
     * and keeps the handle it returns (possibly null); the outcome arrives later through
     * InitCompleteHandler or InitErrorHandler. When already initialized it makes no call and
     * reports completion at once.
     */
    method InitialyzeCentral(handleReturned: bool)
      requires Valid()
      modifies this
      ensures Valid()
      ensures old(initialized) ==>
        State() == old(State()).(busy := false) && requests == old(requests) &&
        events == old(events) + [BluetoothInitialized]
      ensures !old(initialized) ==>
        State() == old(State()).(initialized := handleReturned) &&
        requests == old(requests) + [Initialize(true, false)] && events == old(events)
    {
      if !initialized {
        requests := requests + [Initialize(true, false)];
        initialized := handleReturned;
      } else {
        InitCompleteHandler();
      }
    }

    /**
     * DeInitialyzeCentral: drops the handle first, so the test that follows always finds the
     * protocol uninitialized; it never calls the hardware's DeInitialize and reports completion
     * at once.
     */
    method DeInitialyzeCentral()
      requires Valid()
      modifies this
      ensures Valid()
      ensures State() == old(State()).(initialized := false)
      ensures requests == old(requests) && events == old(events) + [BluetoothDeInitialized]
    {
      initialized := false;
      events := events + [BluetoothDeInitialized];
    }

    /**
     * ScanForDeviceAndAutoConnect: forgets any found, connected or read-back device; then, when
     * initialized, becomes busy and scans for the registry's service ids, and otherwise reports
     * a connection failure without touching busy.
     */
    method ScanForDeviceAndAutoConnect()
      requires Valid()
      modifies this
      ensures Valid()
      ensures old(initialized) ==>
        State() == old(State()).(deviceFound := false, deviceConnected := false, historyRetrieved := false,
                                 busy := true) &&
        requests == old(requests) + [ScanForPeripheralsWithServices([ServiceId])] && events == old(events)
      ensures !old(initialized) ==>
        State() == old(State()).(deviceFound := false, deviceConnected := false, historyRetrieved := false) &&
        requests == old(requests) && events == old(events) + [Error(ConnectionFailed, ScanFailedInfo)]
    {
      deviceFound := false;
      deviceConnected := false;
      historyRetrieved := false;
      if initialized {
        busy := true;
        var servicesToScanFor := BuiltInServiceIds();
        requests := requests + [ScanForPeripheralsWithServices(servicesToScanFor)];
      } else {
        events := events + [Error(ConnectionFailed, ScanFailedInfo)];
      }
    }

    /** StopScan: only when initialized and busy, clears busy and stops the scan. */
    method StopScan()
      requires Valid()
      modifies this
      ensures Valid()
      ensures State() == if old(initialized && busy) then old(State()).(busy := false) else old(State())
      ensures requests == old(requests) + (if old(initialized && busy) then [StopScanning] else [])
      ensures events == old(events)
    {
      if initialized && busy {
        busy := false;
        requests := requests + [StopScanning];
      }
    }

    /**
     * Disconnect: drops the profile at once; with a non-empty device list it becomes busy and
     * disconnects the first device (DisconnectDeviceComplete follows), and otherwise it reports
     * the disconnection at once.
     */
    method Disconnect(devices: Option<seq<string>>)
      requires Valid()
      modifies this
      ensures Valid()
      ensures FirstDevice(old(initialized), devices).Success? ==>
        State() == old(State()).(profile := None, busy := true) &&
        requests == old(requests) + [DisconnectPeripheral(devices.value[0])] && events == old(events)
      ensures FirstDevice(old(initialized), devices).Failure? ==>
        State() == old(State()).(profile := None) && requests == old(requests) &&
        events == old(events) + [Disconnected]
    {
      connectedProfile := None;
      if initialized && devices.Some? && |devices.value| > 0 {
        busy := true;
        requests := requests + [DisconnectPeripheral(devices.value[0])];
      } else {
        events := events + [Disconnected];
      }
    }

    /** Abort: StopScan, then Disconnect. */
    method Abort(devices: Option<seq<string>>)
      requires Valid()
      modifies this
      ensures Valid()
      ensures connectedProfile.None?
      ensures var stopped := old(initialized && busy); var disconnecting := FirstDevice(old(initialized), devices).Success?;
        State() == old(State()).(profile := None,
                                 busy := if disconnecting then true else if stopped then false else old(busy)) &&
        requests == old(requests) + (if stopped then [StopScanning] else []) +
                    (if disconnecting then [DisconnectPeripheral(devices.value[0])] else []) &&
        events == old(events) + (if disconnecting then [] else [Disconnected])
    {
      StopScan();
      Disconnect(devices);
    }

    // Read and write commands

    /**
     * The refusal the three commands share: OnERROR with the command's error, its prefix and the
     * diagnostic GetUnableToReadError gives for the current state; nothing else changes.
     */
    method ReportRefusal(error: ProtocolError, prefix: string, needsHistory: bool)
      requires Valid()
      modifies this
      ensures Valid()
      ensures State() == old(State()) && requests == old(requests)
      ensures events == old(events) +
        [Error(error, prefix + Diagnostic(Reasons(State(), Needs(true, true, true, true, true, needsHistory))))]
    {
      var reasons := GetUnableToReadError(true, true, true, true, true, needsHistory);
      events := events + [Error(error, prefix + reasons)];
    }

    /**
     * ReadStepsAndExercizeTime: empties the steps holder and resets the retry count whatever
     * happens. When ready it becomes busy and reads the FED2 characteristic (tag B) of the first
     * device, and otherwise reports READ_STEPS_FAILED with the diagnostic and calls nothing.
     */
    method ReadStepsAndExercizeTime(devices: Option<seq<string>>) returns (outcome: Outcome)
      requires Valid()
      modifies this, steps
      ensures Valid()
      ensures steps.today.None? && steps.history == []
      ensures Ready(old(State()), false) ==>
        State() == old(State()).(numRetries := 0, busy := true) && events == old(events) &&
        var dev := FirstDevice(old(initialized), devices);
        outcome == (if dev.Success? then Completed else Threw(dev.error)) &&
        requests == old(requests) + (if dev.Success? then [ReadCharacteristic(Some(dev.value), ServiceId, Fed2Id)] else [])
      ensures !Ready(old(State()), false) ==>
        State() == old(State()).(numRetries := 0) && requests == old(requests) && outcome == Completed &&
        events == old(events) +
          [Error(ReadStepsFailed, ReadFailedPrefix + Diagnostic(Reasons(State(), Needs(true, true, true, true, true, false))))]
    {
      steps.Clear();
      assert State() == old(State()) && events == old(events) && requests == old(requests);
      numRetries := 0;
      if initialized && connectedProfile.Some? && deviceConnected && deviceFound && !busy {
        outcome := ReadSummary(devices);
      } else {
        ReportRefusal(ReadStepsFailed, ReadFailedPrefix, false);
        outcome := Completed;
      }
    }

    /**
     * The ready branch of ReadStepsAndExercizeTime: becomes busy and reads the FED2
     * characteristic (tag B) of the first device; a missing device throws.
     */
    method ReadSummary(devices: Option<seq<string>>) returns (outcome: Outcome)
      requires Valid() && Ready(State(), false)
      modifies this
      ensures Valid()
      ensures State() == old(State()).(busy := true) && events == old(events)
      ensures var dev := FirstDevice(old(initialized), devices);
        outcome == (if dev.Success? then Completed else Threw(dev.error)) &&
        requests == old(requests) + (if dev.Success? then [ReadCharacteristic(Some(dev.value), ServiceId, Fed2Id)] else [])
    {
      busy := true;
      var dev := FirstDevice(initialized, devices);
      if dev.Failure? {
        return Threw(dev.error);
      }
      ConnectedCharacteristic(connectedProfile, B);
      var characteristic := GetCharacteristicByTag(Profiles, connectedProfile.value.peripheralName, B);
      assert connectedProfile.value.id == ServiceId && characteristic.value.id == Fed2Id;
      requests := requests + [ReadCharacteristic(Some(dev.value), connectedProfile.value.id, characteristic.value.id)];
      outcome := Completed;
    }

    /**
     * SetClockAndUserSettings: when ready, becomes busy and writes the caller's bytes, with a
     * response, to the FED1 characteristic (tag A) of the first device; otherwise reports
     * SET_WRISTBAND_FAILED with the diagnostic and calls nothing.
     */
    method SetClockAndUserSettings(data: seq<byte>, devices: Option<seq<string>>) returns (outcome: Outcome)
      requires Valid()
      modifies this
      ensures Valid()
      ensures Ready(old(State()), false) ==>
        State() == old(State()).(busy := true) && events == old(events) &&
        var dev := FirstDevice(old(initialized), devices);
        outcome == (if dev.Success? then Completed else Threw(dev.error)) &&
        requests == old(requests) +
          (if dev.Success? then [WriteCharacteristic(dev.value, ServiceId, Fed1Id, data, |data|, true, ToWriteHandler)]
           else [])
      ensures !Ready(old(State()), false) ==>
        State() == old(State()) && requests == old(requests) && outcome == Completed &&
        events == old(events) +
          [Error(SetWristbandFailed, SetFailedPrefix + Diagnostic(Reasons(old(State()), Needs(true, true, true, true, true, false))))]
    {
      if initialized && connectedProfile.Some? && deviceConnected && deviceFound && !busy {
        busy := true;
        var dev := FirstDevice(initialized, devices);
        if dev.Failure? {
          return Threw(dev.error);
        }
        ConnectedCharacteristic(connectedProfile, A);
        var characteristic := GetCharacteristicByTag(Profiles, connectedProfile.value.peripheralName, A);
        requests := requests +
          [WriteCharacteristic(dev.value, connectedProfile.value.id, characteristic.value.id, data, |data|, true,
                               ToWriteHandler)];
        outcome := Completed;
      } else {
        ReportRefusal(SetWristbandFailed, SetFailedPrefix, false);
        outcome := Completed;
      }
    }

    /**
     * ClearHistory: like SetClockAndUserSettings but also needs the history to have been read;
     * writes the single byte 0xA1 to FED1, and on refusal reports CLEAR_HISTORY_FAILED with a
     * diagnostic that includes the history condition.
     */
    method ClearHistory(devices: Option<seq<string>>) returns (outcome: Outcome)
      requires Valid()
      modifies this
      ensures Valid()
      ensures Ready(old(State()), true) ==>
        State() == old(State()).(busy := true) && events == old(events) &&
        var dev := FirstDevice(old(initialized), devices);
        outcome == (if dev.Success? then Completed else Threw(dev.error)) &&
        requests == old(requests) +
          (if dev.Success? then [WriteCharacteristic(dev.value, ServiceId, Fed1Id, [ClearHistoryRequest], 1, true,
                                                     ToWriteHandler)]
           else [])
      ensures !Ready(old(State()), true) ==>
        State() == old(State()) && requests == old(requests) && outcome == Completed &&
        events == old(events) +
          [Error(ClearHistoryFailed, ClearFailedPrefix + Diagnostic(Reasons(old(State()), Needs(true, true, true, true, true, true))))]
    {
      if initialized && connectedProfile.Some? && deviceConnected && deviceFound && historyRetrieved && !busy {
        busy := true;
        var data: seq<byte> := [ClearHistoryRequest];
        var dev := FirstDevice(initialized, devices);
        if dev.Failure? {
          return Threw(dev.error);
        }
        ConnectedCharacteristic(connectedProfile, A);
        var characteristic := GetCharacteristicByTag(Profiles, connectedProfile.value.peripheralName, A);
        requests := requests +
          [WriteCharacteristic(dev.value, connectedProfile.value.id, characteristic.value.id, data, |data|, true,
                               ToWriteHandler)];
        outcome := Completed;
      } else {
        ReportRefusal(ClearHistoryFailed, ClearFailedPrefix, true);
        outcome := Completed;
      }
    }

    // Read and history handlers

    /**
     * ReadCharacteristicsHandler: stores today's summary and restarts the history walk. A step
     * count above 10,000,000 is a corrupted read: while fewer than ten retries were made it
     * empties the holder, reports INVALID_NUMBER_OF_STEPS, counts the retry and reads FED2
     * again from the stored peripheral; after that it clears busy and reports the terminal
     * INVALID_NUMBER_OF_STEPS. A plausible count starts the day-by-day history walk.
     */
    method ReadCharacteristicsHandler(str: string, dat: Buffer, devices: Option<seq<string>>) returns (outcome: Outcome)
      requires Valid()
      modifies this, steps
      ensures Valid()
      ensures steps.history == [] && steps.today == (if Corrupted(dat) && old(numRetries) < MaxRetries then None else dat)
      ensures Corrupted(dat) && old(numRetries) < MaxRetries ==>
        var e := RetryEffect(old(State()).(daysReturned := 0));
        State() == e.state && requests == old(requests) + e.sent && events == old(events) + e.emitted &&
        outcome == e.outcome
      ensures Corrupted(dat) && old(numRetries) >= MaxRetries ==>
        var e := ExhaustedEffect(old(State()).(daysReturned := 0), StepsToday(dat));
        State() == e.state && requests == old(requests) + e.sent && events == old(events) + e.emitted &&
        outcome == e.outcome
      ensures !Corrupted(dat) ==>
        var e := WalkEffect(old(State()).(daysReturned := 0), NrOfStepsRecords(dat), devices, steps);
        State() == e.state && requests == old(requests) + e.sent && events == old(events) + e.emitted &&
        outcome == e.outcome
    {
      steps.Clear();
      steps.SetTodayData(dat);
      assert State() == old(State()) && events == old(events) && requests == old(requests);
      daysReturned := 0;
      assert State() == old(State()).(daysReturned := 0);
      var stepsToday := StepsToday(steps.today);
      if stepsToday > MaxSteps && numRetries < MaxRetries {
        outcome := RetryCorruptedRead();
      } else if stepsToday > MaxSteps {
        outcome := ReportRetriesExhausted(stepsToday);
      } else {
        outcome := StartHistoryWalk(devices);
      }
    }

    /**
     * The first branch of ReadCharacteristicsHandler, a corrupted read with retries left: empties
     * the holder, reports INVALID_NUMBER_OF_STEPS, counts the retry and reads FED2 again from the
     * stored peripheral; without a connected profile that read throws.
     */
    method RetryCorruptedRead() returns (outcome: Outcome)
      requires Valid() && numRetries < MaxRetries
      modifies this, steps
      ensures Valid()
      ensures steps.today.None? && steps.history == []
      ensures var e := RetryEffect(old(State()));
        State() == e.state && requests == old(requests) + e.sent && events == old(events) + e.emitted &&
        outcome == e.outcome
    {
      steps.Clear();
      events := events + [Error(InvalidNumberOfSteps, InvalidStepsInfo)];
      numRetries := numRetries + 1;
      if connectedProfile.None? {
        return Threw(NullReference);
      }
      assert connectedProfile.value.id == ServiceId;
      requests := requests + [ReadCharacteristic(peripheralId, connectedProfile.value.id, Fed2Id)];
      outcome := Completed;
    }

    /**
     * The second branch of ReadCharacteristicsHandler, a corrupted read with the retries used up:
     * clears busy and reports the terminal INVALID_NUMBER_OF_STEPS with the count read.
     */
    method ReportRetriesExhausted(stepsToday: nat) returns (outcome: Outcome)
      requires Valid()
      modifies this
      ensures Valid()
      ensures var e := ExhaustedEffect(old(State()), stepsToday);
        State() == e.state && requests == old(requests) + e.sent && events == old(events) + e.emitted &&
        outcome == e.outcome
    {
      busy := false;
      events := events + [Error(InvalidNumberOfSteps, RetriesExhaustedInfo(stepsToday))];
      outcome := Completed;
    }

    /**
     * The third branch of ReadCharacteristicsHandler, a plausible summary: announces the history
     * walk and takes its first step for the days the stored summary announces.
     */
    method StartHistoryWalk(devices: Option<seq<string>>) returns (outcome: Outcome)
      requires Valid()
      modifies this
      ensures Valid()
      ensures var e := WalkEffect(old(State()), NrOfStepsRecords(steps.today), devices, steps);
        State() == e.state && requests == old(requests) + e.sent && events == old(events) + e.emitted &&
        outcome == e.outcome
    {
      events := events + [DebugMessage(HistoryStartMessage)];
      outcome := RecursiveStepsRequest(Fed1Id, devices);
    }

    /**
     * RecursiveStepsRequest: reports which day the walk is at; while days remain it asks for the
     * next one by writing its index as a single byte to the given characteristic, and once all
     * have come in it clears busy, marks the history as read and reports the collected steps.
     */
    method RecursiveStepsRequest(characteristic: string, devices: Option<seq<string>>) returns (outcome: Outcome)
      requires Valid()
      modifies this
      ensures Valid()
      ensures var e := HistoryStep(old(State()), NrOfStepsRecords(steps.today), characteristic, devices, steps);
        State() == e.state && requests == old(requests) + e.sent && events == old(events) + e.emitted &&
        outcome == e.outcome
    {
      var records := NrOfStepsRecords(steps.today);
      events := events + [DebugMessage(DayMessage(daysReturned, records))];
      if daysReturned < records {
        var data: seq<byte> := [daysReturned as byte];
        var dev := FirstDevice(initialized, devices);
        if dev.Failure? {
          return Threw(dev.error);
        }
        if connectedProfile.None? {
          return Threw(NullReference);
        }
        requests := requests +
          [WriteCharacteristic(dev.value, connectedProfile.value.id, characteristic, data, |data|, true,
                               ToWriteResponse)];
        outcome := Completed;
      } else {
        busy := false;
        historyRetrieved := true;
        events := events + [StepsCollected(steps)];
        outcome := Completed;
      }
    }

    /** NotificationUpdateHandler: appends the day that came in, counts it and continues the walk. */
    method NotificationUpdateHandler(str: string, dat: Buffer, devices: Option<seq<string>>) returns (outcome: Outcome)
      requires Valid()
      modifies this, steps
      ensures Valid()
      ensures steps.today == old(steps.today) && steps.history == old(steps.history) + [dat]
      ensures var e := HistoryStep(old(State()).(daysReturned := old(daysReturned) + 1), NrOfStepsRecords(steps.today),
                                   str, devices, steps);
        State() == e.state && requests == old(requests) + e.sent && events == old(events) + e.emitted &&
        outcome == e.outcome
    {
      steps.SetHistoryData(daysReturned, dat);
      daysReturned := daysReturned + 1;
      outcome := RecursiveStepsRequest(str, devices);
    }

    // Subscription and write handlers

    /**
     * NotificationHandler: the FED1 subscription is active. Looks the stored peripheral name up
     * in the registry (which throws for a null or unknown name, so the original's
     * unknown-profile branch cannot be reached) and reports the connection.
     */
    method NotificationHandler(str: string) returns (outcome: Outcome)
      requires Valid()
      modifies this
      ensures Valid()
      ensures old(peripheralName).None? ==>
        State() == old(State()) && requests == old(requests) && outcome == Threw(ServiceNotFound) &&
        events == old(events) + [DebugMessage(SubscribedPrefix + str)]
      ensures old(peripheralName).Some? ==>
        var profile := if old(peripheralName) == Some(KidsName) then KidsProfile else AdultsProfile;
        State() == old(State()).(profile := Some(profile)) && requests == old(requests) && outcome == Completed &&
        events == old(events) +
          [DebugMessage(SubscribedPrefix + str), Connected(old(peripheralId).value, old(peripheralName).value, profile)]
    {
      events := events + [DebugMessage(SubscribedPrefix + str)];
      if peripheralName.None? {
        return Threw(ServiceNotFound);
      }
      BuiltInProfiles(peripheralName.value);
      connectedProfile := Some(GetProfileByName(Profiles, peripheralName.value).value);
      events := events + [Connected(peripheralId.value, peripheralName.value, connectedProfile.value)];
      outcome := Completed;
    }

    /** WriteCharacteristicResponse: a history request was written; only a debug report. */
    method WriteCharacteristicResponse(str: string)
      modifies this
      ensures State() == old(State()) && requests == old(requests)
      ensures events == old(events) + [DebugMessage(WriteResponsePrefix + str)]
    {
      events := events + [DebugMessage(WriteResponsePrefix + str)];
    }

    /** WriteCharacteristicHandler: a settings or clear write is done; clears busy and reports it. */
    method WriteCharacteristicHandler(str: string)
      requires Valid()
      modifies this
      ensures Valid()
      ensures State() == old(State()).(busy := false) && requests == old(requests)
      ensures events == old(events) + [WriteComplete]
    {
      busy := false;
      events := events + [WriteComplete];
    }

    // Initialization handlers

    method InitCompleteHandler()
      requires Valid()
      modifies this
      ensures Valid()
      ensures State() == old(State()).(busy := false) && requests == old(requests)
      ensures events == old(events) + [BluetoothInitialized]
    {
      busy := false;
      events := events + [BluetoothInitialized];
    }

    method InitErrorHandler(error: string)
      requires Valid()
      modifies this
      ensures Valid()
      ensures State() == old(State()).(busy := false) && requests == old(requests)
      ensures events == old(events) + [Error(InitializationFailed, error)]
    {
      busy := false;
      events := events + [Error(InitializationFailed, error)];
    }

    // Scan and connect handlers

    /**
     * ScanForPeripheralsWithServicesResponseHandler: a Boosth name ("PR102" or "B002") is
     * remembered with its id, connected to, marked found and reported; any other device is
     * reported as UNKNOWN_DEVICE_DETECTED and changes nothing.
     */
    method ScanForPeripheralsWithServicesResponseHandler(id: string, name: string)
      requires Valid()
      modifies this
      ensures Valid()
      ensures name == KidsName || name == AdultsName ==>
        State() == old(State()).(peripheralId := Some(id), peripheralName := Some(name), deviceFound := true) &&
        requests == old(requests) + [ConnectToPeripheral(id)] && events == old(events) + [ProfileFound(id, name)]
      ensures name != KidsName && name != AdultsName ==>
        State() == old(State()) && requests == old(requests) &&
        events == old(events) + [Error(UnknownDeviceDetected, WrongDevicePrefix + id + ", name: " + name)]
    {
      if name == KidsName || name == AdultsName {
        peripheralId := Some(id);
        peripheralName := Some(name);
        requests := requests + [ConnectToPeripheral(id)];
        deviceFound := true;
        events := events + [ProfileFound(id, name)];
      } else {
        events := events + [Error(UnknownDeviceDetected, WrongDevicePrefix + id + ", name: " + name)];
      }
    }

    /** ConnectToPeripheralConnectHandler: marks the device connected; busy is left as it is. */
    method ConnectToPeripheralConnectHandler(deviceId: string)
      requires Valid()
      modifies this
      ensures Valid()
      ensures State() == old(State()).(deviceConnected := true)
      ensures requests == old(requests) && events == old(events)
    {
      deviceConnected := true;
    }

    /**
     * ConnectToPeripheralCharacteristicHandler: when the stored device reports the FED1
     * characteristic of the FED0 service (compared case-insensitively), subscribes to it.
     */
    method ConnectToPeripheralCharacteristicHandler(deviceId: string, serviceId: string, characteristicId: string)
      requires Valid()
      modifies this
      ensures Valid()
      ensures State() == old(State()) && events == old(events)
      ensures requests == old(requests) +
        (if Some(deviceId) == old(peripheralId) && ToUpperAscii(serviceId) == ServiceId && ToUpperAscii(characteristicId) == Fed1Id
         then [SubscribeCharacteristic(deviceId, ServiceId, Fed1Id)] else [])
    {
      if Some(deviceId) == peripheralId && ToUpperAscii(serviceId) == ServiceId && ToUpperAscii(characteristicId) == Fed1Id {
        requests := requests + [SubscribeCharacteristic(peripheralId.value, ServiceId, Fed1Id)];
      }
    }

    /** DisconnectDeviceComplete: forgets the device and its history, clears busy, reports it. */
    method DisconnectDeviceComplete(obj: string)
      requires Valid()
      modifies this
      ensures Valid()
      ensures State() == old(State()).(deviceFound := false, deviceConnected := false, historyRetrieved := false,
                                        busy := false)
      ensures requests == old(requests) && events == old(events) + [Disconnected]
    {
      deviceFound := false;
      deviceConnected := false;
      historyRetrieved := false;
      busy := false;
      events := events + [Disconnected];
    }

    // Helpers

    /**
     * ToHex: '|' and then, per byte, its high and low nibble as upper-case hex digits followed
     * by '|', filled into a character array of 3n + 1 slots.
     */
    static method ToHex(bytes: array<byte>) returns (hex: string)
      ensures hex == HexOf(bytes[..])
    {
      var c := new char[bytes.Length * 3 + 1];
      c[0] := '|';
      var bx := 0;
      var cx := 1;
      while bx < bytes.Length
        invariant 0 <= bx <= bytes.Length && cx == 3 * bx + 1
        invariant c[..cx] == HexOf(bytes[..bx])
      {
        ghost var done := c[..cx];
        var b := bytes[bx] / 0x10;
        c[cx] := HexDigit(b);
        b := bytes[bx] % 0x10;
        cx := cx + 1;
        c[cx] := HexDigit(b);
        cx := cx + 1;
        c[cx] := '|';
        assert c[..cx + 1] == done + HexByte(bytes[bx]);
        HexOfPrefix(bytes[..], bx);
        bx := bx + 1;
        cx := cx + 1;
      }
      assert bytes[..bx] == bytes[..];
      hex := c[..];
    }
  }

  /**
   * The write RecursiveStepsRequest makes for the next history day: the day index as one byte
   * to the given characteristic of the first device, or the fault its arguments raise (the
   * device list first, then the profile).
   */
  function DayRequest(st: ProtocolState, characteristic: string, devices: Option<seq<string>>): Result<Request, Fault>
    requires st.daysReturned < 0x100
  {
    var dev := FirstDevice(st.initialized, devices);
    if dev.Failure? then Failure(dev.error)
    else if st.profile.None? then Failure(NullReference)
    else Success(WriteCharacteristic(dev.value, st.profile.value.id, characteristic, [st.daysReturned as byte], 1, true,
                                     ToWriteResponse))
  }

  /** A step count above 10,000,000 in today's summary marks a corrupted read. */
  predicate Corrupted(dat: Buffer)
  {
    StepsToday(dat) > MaxSteps
  }

  /** What one handler call does besides the steps holder: the new state, the calls it makes, the dispatches. */
  datatype Effect = Effect(state: ProtocolState, sent: seq<Request>, emitted: seq<Event>, outcome: Outcome)

  /**
   * A corrupted read with retries left: the retry is counted and reported, and FED2 is read again
   * from the stored peripheral; without a connected profile that read throws.
   */
  function RetryEffect(st: ProtocolState): Effect
  {
    Effect(st.(numRetries := st.numRetries + 1),
           if st.profile.None? then [] else [ReadCharacteristic(st.peripheralId, ServiceId, Fed2Id)],
           [Error(InvalidNumberOfSteps, InvalidStepsInfo)],
           if st.profile.None? then Threw(NullReference) else Completed)
  }

  /** A corrupted read with the retries used up: busy is cleared and the terminal error reported. */
  function ExhaustedEffect(st: ProtocolState, stepsToday: nat): Effect
  {
    Effect(st.(busy := false), [],
           [Error(InvalidNumberOfSteps, RetriesExhaustedInfo(stepsToday))], Completed)
  }

  /** A plausible read: the walk over `records` days is announced and its first step taken. */
  function WalkEffect(st: ProtocolState, records: int, devices: Option<seq<string>>, steps: StepsData): Effect
    requires 0 <= records <= 0xFF
  {
    var walk := HistoryStep(st, records, Fed1Id, devices, steps);
    Effect(walk.state, walk.sent, [DebugMessage(HistoryStartMessage)] + walk.emitted, walk.outcome)
  }

  /**
   * One step of the history walk from state st, with `records` days announced in today's
   * summary: the progress line, then either the request for day st.daysReturned or, once every
   * day is in, the end of the walk.
   */
  function HistoryStep(st: ProtocolState, records: int, characteristic: string, devices: Option<seq<string>>,
                       steps: StepsData): Effect
    requires 0 <= records <= 0xFF
  {
    var progress := [DebugMessage(DayMessage(st.daysReturned, records))];
    if st.daysReturned < records then
      Effect(st, Sent(DayRequest(st, characteristic, devices)), progress, OutcomeOf(DayRequest(st, characteristic, devices)))
    else
      Effect(st.(busy := false, historyRetrieved := true), [], progress + [StepsCollected(steps)], Completed)
  }

  // ---------------------------------------------------------------------------------------------
  // Hex dump

  /** A nibble as an upper-case hex digit. */
  function HexDigit(v: int): (c: char)
    requires 0 <= v < 0x10
    ensures ('0' <= c <= '9') || ('A' <= c <= 'F')
  {
    if v > 9 then (v - 10 + 'A' as int) as char else (v + '0' as int) as char
  }

  /** The three characters ToHex writes for one byte. */
  function HexByte(b: byte): string
  {
    [HexDigit(b / 0x10), HexDigit(b % 0x10), '|']
  }

  /** The hex dump of a byte sequence, built byte by byte. */
  function HexOf(bytes: seq<byte>): string
  {
    if |bytes| == 0 then "|" else HexOf(bytes[..|bytes| - 1]) + HexByte(bytes[|bytes| - 1])
  }

  /** Each further byte extends the dump of the bytes before it by that byte's three characters. */
  lemma HexOfPrefix(bytes: seq<byte>, n: nat)
    requires n < |bytes|
    ensures HexOf(bytes[..n + 1]) == HexOf(bytes[..n]) + HexByte(bytes[n])
  {
    assert bytes[..n + 1][..n] == bytes[..n];
  }

  /** The value of a hex digit; any other character reads as 0. */
  function HexValue(c: char): (v: nat)
    ensures v < 0x10
  {
    if '0' <= c <= '9' then c as int - '0' as int
    else if 'A' <= c <= 'F' then c as int - 'A' as int + 10
    else 0
  }

  /** Reads a dump back: byte i from the two digits after the i-th '|'. */
  function FromHex(hex: string): (bytes: seq<byte>)
    ensures |bytes| == if |hex| == 0 then 0 else (|hex| - 1) / 3
  {
    var n := if |hex| == 0 then 0 else (|hex| - 1) / 3;
    seq(n, i requires 0 <= i < n => (HexValue(hex[3 * i + 1]) * 0x10 + HexValue(hex[3 * i + 2])) as byte)
  }

  lemma HexDigitValue(v: int)
    requires 0 <= v < 0x10
    ensures HexValue(HexDigit(v)) == v
  {
  }

  /** The dump has 3n + 1 characters: a '|' at every multiple of three, the two digits of byte i between. */
  lemma {:induction false} HexLayout(bytes: seq<byte>)
    ensures |HexOf(bytes)| == 3 * |bytes| + 1
    ensures forall i :: 0 <= i <= |bytes| ==> HexOf(bytes)[3 * i] == '|'
    ensures forall i :: 0 <= i < |bytes| ==>
      HexOf(bytes)[3 * i + 1] == HexDigit(bytes[i] / 0x10) && HexOf(bytes)[3 * i + 2] == HexDigit(bytes[i] % 0x10)
  {
    if |bytes| > 0 {
      var init := bytes[..|bytes| - 1];
      HexLayout(init);
      forall i | 0 <= i < |init|
        ensures bytes[i] == init[i]
      {
      }
    }
  }

  /** Reading a dump back gives the bytes it was made from. */
  lemma HexRoundTrip(bytes: seq<byte>)
    ensures FromHex(HexOf(bytes)) == bytes
  {
    HexLayout(bytes);
    var hex := HexOf(bytes);
    forall i | 0 <= i < |bytes|
      ensures FromHex(hex)[i] == bytes[i]
    {
      HexDigitValue(bytes[i] / 0x10);
      HexDigitValue(bytes[i] % 0x10);
    }
  }
}
