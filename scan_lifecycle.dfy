/**
 * The scan lifecycle of the beacon scanner as pure transitions: the status,
 * the last error message, the caller's intent to scan, whether the scanner
 * listens for adapter power-state changes, whether a device scan is running
 * on the BLE manager, and the last seen app state.
 *
 * Every outcome the hardware decides (the adapter state, whether starting
 * a device scan throws) is a parameter.
 */
module ScanLifecycle {
  import opened Optional

  datatype ScannerStatus = Idle | Scanning | Paused | Error | BtOff

  /** The adapter power states of the BLE library. */
  datatype AdapterState = Unknown | Resetting | Unsupported | Unauthorized | PoweredOff | PoweredOn

  /** App states; OtherAppState stands for 'unknown' and 'extension'. */
  datatype AppStateStatus = Active | Background | Inactive | OtherAppState

  /** What a failing BLE call threw: an Error object with its message, or some other value. */
  datatype Thrown = ErrorObject(message: string) | OtherThrown

  /** The answer of the adapter-state query, or what it threw. */
  datatype AdapterQuery = Answered(state: AdapterState) | QueryFailed(thrown: Thrown)

  datatype Lifecycle = Lifecycle(
    status: ScannerStatus,
    error: Option<string>,
    wantScanning: bool,
    powerSubscribed: bool,
    deviceScan: bool,
    appState: AppStateStatus)

  const PermissionDeniedMessage := "Bluetooth permission denied"
  const PoweredOffMessage := "Bluetooth is turned off"
  const UnknownErrorMessage := "Unknown BLE error"

  function ErrorMessage(t: Thrown): string
  {
    match t
    case ErrorObject(m) => m
    case OtherThrown => UnknownErrorMessage
  }

  function Initial(appState: AppStateStatus): Lifecycle
  {
    Lifecycle(Idle, None, false, false, false, appState)
  }

  /** Whether a call of startScanning with this adapter answer starts a fresh session (clears registry and smoother). */
  predicate StartsSession(query: AdapterQuery)
  {
    query == Answered(PoweredOn)
  }

  /**
   * startScanning: reset the error, query the adapter; when it is not powered
   * on go to bt-off and (re)subscribe to power-state changes; otherwise start a
   * device scan and go to scanning, or to error when starting throws.
   */
  function AfterStartScanning(l: Lifecycle, query: AdapterQuery, scanStart: Option<Thrown>): (r: Lifecycle)
    ensures r.wantScanning == l.wantScanning && r.appState == l.appState
    ensures r.status == Scanning <==> StartsSession(query) && scanStart.None?
    ensures r.status == BtOff <==> query.Answered? && query.state != PoweredOn
    ensures query.Answered? && query.state != PoweredOn ==>
      r.powerSubscribed && r.error == Some(if query.state == Unauthorized then PermissionDeniedMessage else PoweredOffMessage)
    ensures r.status != BtOff ==> r.powerSubscribed == l.powerSubscribed
    ensures query.QueryFailed? ==> r.status == Error && r.error == Some(ErrorMessage(query.thrown))
    ensures StartsSession(query) && scanStart.Some? ==> r.status == Error && r.error == Some(ErrorMessage(scanStart.value))
    ensures r.error.None? <==> r.status == Scanning
    ensures r.deviceScan == (l.deviceScan || r.status == Scanning)
  {
    match query
    case QueryFailed(t) => l.(status := Error, error := Some(ErrorMessage(t)))
    case Answered(s) =>
      if s != PoweredOn then
        l.(status := BtOff,
           error := Some(if s == Unauthorized then PermissionDeniedMessage else PoweredOffMessage),
           powerSubscribed := true)
      else
        match scanStart
        case None => l.(status := Scanning, error := None, deviceScan := true)
        case Some(t) => l.(status := Error, error := Some(ErrorMessage(t)))
  }

  /** start: record the intent to scan, then startScanning. */
  function AfterStart(l: Lifecycle, query: AdapterQuery, scanStart: Option<Thrown>): (r: Lifecycle)
    ensures r.wantScanning && r.appState == l.appState
    ensures r.status == Scanning <==> StartsSession(query) && scanStart.None?
    ensures Inv(l) ==> Inv(r)
  {
    AfterStartScanning(l.(wantScanning := true), query, scanStart)
  }

  /** stop: drop the intent, stop the device scan, go idle; the power-state subscription is kept. */
  function AfterStop(l: Lifecycle): (r: Lifecycle)
    ensures r.status == Idle && !r.wantScanning && !r.deviceScan
    ensures r.powerSubscribed == l.powerSubscribed && r.error == l.error && r.appState == l.appState
    ensures Inv(r)
  {
    l.(wantScanning := false, deviceScan := false, status := Idle)
  }

  /** Whether the power-state listener restarts scanning on this new adapter state. */
  predicate PowerRestarts(l: Lifecycle, newState: AdapterState)
  {
    l.powerSubscribed && newState == PoweredOn && l.wantScanning
  }

  /** The power-state listener: on power-on with intent, unsubscribe and startScanning. */
  function AfterPowerChange(l: Lifecycle, newState: AdapterState, query: AdapterQuery, scanStart: Option<Thrown>): (r: Lifecycle)
    ensures !PowerRestarts(l, newState) ==> r == l
    ensures r.wantScanning == l.wantScanning && r.appState == l.appState
    ensures r.status == Scanning && l.status != Scanning ==> PowerRestarts(l, newState)
    ensures PowerRestarts(l, newState) && StartsSession(query) && scanStart.None? ==> r.status == Scanning && !r.powerSubscribed
    ensures Inv(l) ==> Inv(r)
  {
    if PowerRestarts(l, newState) then AfterStartScanning(l.(powerSubscribed := false), query, scanStart) else l
  }

  predicate IsBackground(s: AppStateStatus)
  {
    s == Background || s == Inactive
  }

  /** Whether an app-state change from active to background/inactive pauses the scanner. */
  predicate Pauses(l: Lifecycle, next: AppStateStatus)
  {
    l.appState == Active && IsBackground(next) && l.status == Scanning
  }

  /** Whether an app-state change from background/inactive to active restarts the scanner. */
  predicate Resumes(l: Lifecycle, next: AppStateStatus)
  {
    IsBackground(l.appState) && next == Active && l.wantScanning && l.status == Paused
  }

  /** The app-state listener: pause a running scan on leaving the foreground, resume a paused one on return. */
  function AfterAppStateChange(l: Lifecycle, next: AppStateStatus, query: AdapterQuery, scanStart: Option<Thrown>): (r: Lifecycle)
    ensures r.appState == next && r.wantScanning == l.wantScanning
    ensures !Pauses(l, next) && !Resumes(l, next) ==> r == l.(appState := next)
    ensures Pauses(l, next) ==> r.status == Paused && !r.deviceScan
    ensures Inv(l) ==> Inv(r)
  {
    var moved := l.(appState := next);
    if Pauses(l, next) then moved.(deviceScan := false, status := Paused)
    else if Resumes(l, next) then AfterStartScanning(moved, query, scanStart)
    else moved
  }

  /** Unmount: drop the intent, stop the device scan and the power-state subscription. */
  function AfterUnmount(l: Lifecycle): (r: Lifecycle)
    ensures !r.wantScanning && !r.deviceScan && !r.powerSubscribed
    ensures r.status == l.status && r.error == l.error
    ensures forall s :: !PowerRestarts(r, s)
  {
    l.(wantScanning := false, deviceScan := false, powerSubscribed := false)
  }

  /** One event of the scanner's life while it is mounted. */
  datatype Event =
    | StartRequested(query: AdapterQuery, scanStart: Option<Thrown>)
    | StopRequested
    | PowerChanged(newState: AdapterState, query: AdapterQuery, scanStart: Option<Thrown>)
    | AppStateChanged(next: AppStateStatus, query: AdapterQuery, scanStart: Option<Thrown>)

  function Step(l: Lifecycle, e: Event): Lifecycle
  {
    match e
    case StartRequested(q, s) => AfterStart(l, q, s)
    case StopRequested => AfterStop(l)
    case PowerChanged(n, q, s) => AfterPowerChange(l, n, q, s)
    case AppStateChanged(n, q, s) => AfterAppStateChange(l, n, q, s)
  }

  function Run(l: Lifecycle, events: seq<Event>): Lifecycle
    decreases |events|
  {
    if events == [] then l else Run(Step(l, events[0]), events[1..])
  }

  /**
   * What holds in every reachable lifecycle: a device scan runs only while
   * the caller wants one; scanning means a device scan runs; paused means
   * none does; and scanning or paused both imply the intent.
   */
  ghost predicate Inv(l: Lifecycle)
  {
    && (l.deviceScan ==> l.wantScanning)
    && (l.status == Scanning ==> l.deviceScan)
    && (l.status == Paused ==> !l.deviceScan && l.wantScanning)
    && (l.status == Idle ==> !l.deviceScan)
  }

  lemma InitialInv(appState: AppStateStatus)
    ensures Inv(Initial(appState))
  {
  }

  lemma StepKeepsInv(l: Lifecycle, e: Event)
    requires Inv(l)
    ensures Inv(Step(l, e))
  {
  }

  /** Every trace of events from a lifecycle satisfying Inv ends in one satisfying Inv. */
  lemma {:induction false} RunKeepsInv(l: Lifecycle, events: seq<Event>)
    requires Inv(l)
    ensures Inv(Run(l, events))
    decreases |events|
  {
    if events != [] {
      StepKeepsInv(l, events[0]);
      RunKeepsInv(Step(l, events[0]), events[1..]);
    }
  }

  /** From the initial state, no trace of events runs a device scan without the caller's intent. */
  lemma NeverScansWithoutIntent(appState: AppStateStatus, events: seq<Event>)
    ensures var l := Run(Initial(appState), events);
      (l.deviceScan ==> l.wantScanning) && (l.status == Scanning ==> l.deviceScan)
  {
    RunKeepsInv(Initial(appState), events);
  }

  /** Starting with the adapter off goes to bt-off; a later power-on resumes scanning without a second start. */
  lemma BtOffThenPowerOnResumes(l: Lifecycle, off: AdapterState)
    requires off != PoweredOn
    ensures var l1 := AfterStart(l, Answered(off), None);
      && l1.status == BtOff
      && l1.error == Some(if off == Unauthorized then PermissionDeniedMessage else PoweredOffMessage)
      && PowerRestarts(l1, PoweredOn)
      && AfterPowerChange(l1, PoweredOn, Answered(PoweredOn), None).status == Scanning
      && !AfterPowerChange(l1, PoweredOn, Answered(PoweredOn), None).powerSubscribed
  {
  }

  /** stop reaches idle from any state and clears the intent, so no later power-on restarts scanning. */
  lemma StopThenPowerOnStaysIdle(l: Lifecycle, q: AdapterQuery, s: Option<Thrown>)
    ensures AfterStop(l).status == Idle && !AfterStop(l).wantScanning
    ensures AfterPowerChange(AfterStop(l), PoweredOn, q, s) == AfterStop(l)
  {
  }

  /**
   * stop keeps the power-state subscription that a bt-off start created: a
   * later start with the adapter on scans while still subscribed, so the next
   * power-on notification runs startScanning again during a running scan.
   */
  lemma StopKeepsPowerSubscription(l: Lifecycle, off: AdapterState)
    requires off != PoweredOn
    ensures var l1 := AfterStop(AfterStart(l, Answered(off), None));
      var l2 := AfterStart(l1, Answered(PoweredOn), None);
      && l1.status == Idle && l1.powerSubscribed
      && l2.status == Scanning && l2.powerSubscribed
      && PowerRestarts(l2, PoweredOn)
  {
  }

  /**
   * Leaving the foreground pauses the scanner only when it is scanning,
   * stopping the device scan; returning restarts it only when the caller
   * still wants to scan and it is paused.
   */
  lemma PauseAndResume(l: Lifecycle, next: AppStateStatus, q: AdapterQuery, s: Option<Thrown>)
    ensures var r := AfterAppStateChange(l, next, q, s);
      && r.appState == next
      && (l.appState == Active && IsBackground(next) ==>
            if l.status == Scanning then r.status == Paused && !r.deviceScan && r.wantScanning == l.wantScanning
            else r == l.(appState := next))
      && (IsBackground(l.appState) && next == Active ==>
            if l.wantScanning && l.status == Paused then r == AfterStartScanning(l.(appState := next), q, s)
            else r == l.(appState := next))
  {
  }

  /** Scenario: scanning in the foreground, to the background and back, with the adapter still on. */
  lemma BackgroundRoundTrip(l: Lifecycle, q: AdapterQuery, s: Option<Thrown>)
    requires l.status == Scanning && l.appState == Active && l.wantScanning
    ensures var paused := AfterAppStateChange(l, Background, q, s);
      && paused.status == Paused && !paused.deviceScan
      && AfterAppStateChange(paused, Active, Answered(PoweredOn), None).status == Scanning
      && AfterAppStateChange(paused, Active, Answered(PoweredOn), None).deviceScan
  {
  }
}
