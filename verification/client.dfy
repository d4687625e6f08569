/** The router client (src/Client.mjs): construction, the `status` and
    `devices` getters, and `refresh`, which runs the four page operations in
    a fixed order and publishes the new status and device list only when all
    four succeed.

    `refresh` is modelled as a phase machine that mirrors the promise chain:
    each phase calls one page operation, and the outcome of that call either
    moves the machine to the next phase or settles it with the error. The
    page fetcher is an input: the outcome each operation would have. What
    the refresh does is recorded as an ordered log of effects: the calls
    made, the commit of the new state, the settlement of the returned
    promise and the emitted event. */
module Client {
  import opened Results
  import Json
  import Pages

  // ---------------------------------------------------------------------
  // Construction and getters
  // ---------------------------------------------------------------------

  /** The options a caller may pass; `depends` (the injected page class) is
      not modelled. */
  datatype ClientOptions = ClientOptions(baseUrl: Option<string>, username: Option<string>, password: Option<string>)

  /** The options handed to the page client: the password and the base URL,
      each only when supplied (truthy); the username is never forwarded. */
  function ForwardedOptions(opt: ClientOptions): (f: Pages.PageOptions)
    ensures f.username.None?
    ensures f.password.Some? <==> Pages.Supplied(opt.password)
    ensures f.baseUrl.Some? <==> Pages.Supplied(opt.baseUrl)
    ensures f.password.Some? ==> f.password == opt.password
    ensures f.baseUrl.Some? ==> f.baseUrl == opt.baseUrl
  {
    Pages.PageOptions(
      if Pages.Supplied(opt.baseUrl) then opt.baseUrl else None,
      None,
      if Pages.Supplied(opt.password) then opt.password else None)
  }

  /** What the client remembers between refreshes: the status of the last
      published status record and the last published device list. The
      record's counts are stored by the source too but no getter exposes
      them, so they are not kept here. */
  datatype ClientState = ClientState(status: string, devices: seq<Json.Device>)

  /** The state of a fresh client. */
  const Initial := ClientState("unknown", [])

  datatype Client = Client(pages: Pages.Pages, state: ClientState)

  /** The constructor: a page client built from the forwarded options, and
      the initial state. It fails exactly when the page client does, that
      is, without a password. */
  function New(opt: ClientOptions): (r: Result<Client>)
    ensures r.Ok? <==> Pages.Supplied(opt.password)
    ensures r.Err? ==> r.error == InvalidArgument
    ensures r.Ok? ==> r.value.state == Initial
    ensures r.Ok? ==> r.value.pages.password == opt.password.value
    ensures r.Ok? ==> r.value.pages.username == Pages.DefaultUsername
    ensures r.Ok? && Pages.Supplied(opt.baseUrl) ==> r.value.pages.baseUrl == opt.baseUrl.value
    ensures r.Ok? && !Pages.Supplied(opt.baseUrl) ==> r.value.pages.baseUrl == Pages.DefaultBaseUrl
  {
    var pages :- Pages.New(ForwardedOptions(opt));
    Ok(Client(pages, Initial))
  }

  /** The `status` getter: the stored status, or "unknown" when it is
      missing or empty. */
  function Status(state: ClientState): (s: string)
    ensures s != ""
    ensures state.status != "" ==> s == state.status
    ensures state.status == "" ==> s == "unknown"
  {
    if state.status == "" then "unknown" else state.status
  }

  /** The `devices` getter. */
  function Devices(state: ClientState): seq<Json.Device> {
    state.devices
  }

  /** A fresh client reports status "unknown" and no devices. */
  lemma NewClientIsEmpty(opt: ClientOptions)
    requires New(opt).Ok?
    ensures Status(New(opt).value.state) == "unknown"
    ensures Devices(New(opt).value.state) == []
  {
  }

  /** A username given to the client has no effect: the page client is the
      one built from the same options without a username, and logs in as the
      default user. */
  lemma UsernameNotForwarded(opt: ClientOptions, name: string)
    requires Pages.Supplied(opt.password)
    ensures New(opt.(username := Some(name))) == New(opt.(username := None))
    ensures New(opt).value.pages == Pages.New(Pages.PageOptions(opt.baseUrl, None, opt.password)).value
  {
  }

  // ---------------------------------------------------------------------
  // The refresh pipeline
  // ---------------------------------------------------------------------

  datatype Step = ChangeUserStep | BasicHomeResultStep | DeviceInfoStep | LogoutStep

  /** The order in which a refresh calls the page operations. */
  const Steps: seq<Step> := [ChangeUserStep, BasicHomeResultStep, DeviceInfoStep, LogoutStep]

  /** The page operation behind each step. */
  function OperationOf(step: Step): Pages.Operation {
    match step
    case ChangeUserStep => Pages.ChangeUser
    case BasicHomeResultStep => Pages.BasicHomeResult
    case DeviceInfoStep => Pages.DeviceInfo
    case LogoutStep => Pages.Logout
  }

  /** The outcome each page operation settles with if it is called. */
  datatype StepResults = StepResults(
    changeUser: Result<()>,
    basicHomeResult: Result<Pages.StatusSnapshot>,
    deviceInfo: Result<seq<Json.Device>>,
    logout: Result<()>)

  /** The error a step settles with, if it fails. */
  function ErrorOf(results: StepResults, step: Step): Option<PageError> {
    match step
    case ChangeUserStep => if results.changeUser.Err? then Some(results.changeUser.error) else None
    case BasicHomeResultStep => if results.basicHomeResult.Err? then Some(results.basicHomeResult.error) else None
    case DeviceInfoStep => if results.deviceInfo.Err? then Some(results.deviceInfo.error) else None
    case LogoutStep => if results.logout.Err? then Some(results.logout.error) else None
  }

  predicate AllSucceed(results: StepResults) {
    forall i :: 0 <= i < |Steps| ==> ErrorOf(results, Steps[i]).None?
  }

  /** The index in Steps of the first failing step, if any. */
  function FirstFailure(results: StepResults): (k: Option<nat>)
    ensures k.None? <==> AllSucceed(results)
    ensures k.Some? ==> k.value < |Steps| && ErrorOf(results, Steps[k.value]).Some?
    ensures k.Some? ==> forall j :: 0 <= j < k.value ==> ErrorOf(results, Steps[j]).None?
  {
    FailureFrom(results, 0)
  }

  function FailureFrom(results: StepResults, i: nat): (k: Option<nat>)
    requires i <= |Steps|
    ensures k.None? <==> forall j :: i <= j < |Steps| ==> ErrorOf(results, Steps[j]).None?
    ensures k.Some? ==> i <= k.value < |Steps| && ErrorOf(results, Steps[k.value]).Some?
    ensures k.Some? ==> forall j :: i <= j < k.value ==> ErrorOf(results, Steps[j]).None?
    decreases |Steps| - i
  {
    if i == |Steps| then None
    else if ErrorOf(results, Steps[i]).Some? then Some(i)
    else FailureFrom(results, i + 1)
  }

  /** The state a refresh publishes when all four steps succeed: the status
      of the status record and the device list. */
  function Published(results: StepResults): ClientState
    requires results.basicHomeResult.Ok? && results.deviceInfo.Ok?
  {
    ClientState(results.basicHomeResult.value.status, results.deviceInfo.value)
  }

  datatype Event = Refreshed

  /** What a refresh does, in order: a call to a page operation, the write
      of the client state, the settlement of the returned promise, and the
      event emitted afterwards. */
  datatype Effect = Called(step: Step) | Committed(state: ClientState) | Settled(ok: bool) | Emitted(event: Event)

  /** Where the promise chain is: about to call a page operation (carrying
      what the earlier steps produced), or settled. */
  datatype Phase =
    | ChangingUser
    | FetchingStatus
    | FetchingDevices(basic: Pages.StatusSnapshot)
    | LoggingOut(basic: Pages.StatusSnapshot, devices: seq<Json.Device>)
    | Done(result: Result<()>)

  /** The step a pending phase calls. */
  function StepOf(phase: Phase): Step
    requires !phase.Done?
  {
    match phase
    case ChangingUser => ChangeUserStep
    case FetchingStatus => BasicHomeResultStep
    case FetchingDevices(_) => DeviceInfoStep
    case LoggingOut(_, _) => LogoutStep
  }

  /** The number of calls still ahead of a phase. */
  function Rank(phase: Phase): nat {
    match phase
    case ChangingUser => 4
    case FetchingStatus => 3
    case FetchingDevices(_) => 2
    case LoggingOut(_, _) => 1
    case Done(_) => 0
  }

  datatype Machine = Machine(state: ClientState, phase: Phase, log: seq<Effect>)

  /** Settles the chain with an error: nothing is written, nothing emitted. */
  function Fail(state: ClientState, log: seq<Effect>, e: PageError): Machine {
    Machine(state, Done(Err(e)), log + [Settled(false)])
  }

  /** What follows a successful logout: the commit of the new state, the
      resolution of the returned promise, and the `refreshed` event, which
      the source schedules with a zero timeout and so comes last. */
  function Finish(s: ClientState): seq<Effect> {
    [Committed(s), Settled(true), Emitted(Refreshed)]
  }

  /** One link of the promise chain: call the phase's page operation and
      continue with its outcome. Only the link after a successful logout
      writes the state, and it writes both fields at once. */
  function Advance(m: Machine, results: StepResults): (n: Machine)
    requires !m.phase.Done?
    ensures Rank(n.phase) < Rank(m.phase)
    ensures n.state != m.state ==> m.phase.LoggingOut? && n.phase == Done(Ok(()))
    ensures n.phase.Done? && n.phase.result.Err? ==>
              Some(n.phase.result.error) == ErrorOf(results, StepOf(m.phase))
  {
    var log := m.log + [Called(StepOf(m.phase))];
    match m.phase
    case ChangingUser =>
      (match results.changeUser
       case Ok(_) => Machine(m.state, FetchingStatus, log)
       case Err(e) => Fail(m.state, log, e))
    case FetchingStatus =>
      (match results.basicHomeResult
       case Ok(basic) => Machine(m.state, FetchingDevices(basic), log)
       case Err(e) => Fail(m.state, log, e))
    case FetchingDevices(basic) =>
      (match results.deviceInfo
       case Ok(devices) => Machine(m.state, LoggingOut(basic, devices), log)
       case Err(e) => Fail(m.state, log, e))
    case LoggingOut(basic, devices) =>
      (match results.logout
       case Ok(_) =>
         var s := ClientState(basic.status, devices);
         Machine(s, Done(Ok(())), log + Finish(s))
       case Err(e) => Fail(m.state, log, e))
  }

  /** Runs the chain until it settles. The state it ends with differs from
      the one it started with only if the chain resolved. */
  function Run(m: Machine, results: StepResults): (n: Machine)
    ensures n.phase.Done?
    ensures n.state != m.state ==> n.phase == Done(Ok(()))
    ensures m.phase.Done? ==> n == m
    decreases Rank(m.phase)
  {
    if m.phase.Done? then m else Run(Advance(m, results), results)
  }

  /** What one refresh leaves behind: the client state, the effect log and
      the result the returned promise settles with. */
  datatype Outcome = Outcome(state: ClientState, log: seq<Effect>, result: Result<()>)

  /** `refresh()`: the chain run from its first link. A rejected refresh
      leaves the state as it was. */
  function Refresh(state: ClientState, results: StepResults): (o: Outcome)
    ensures o.result.Err? ==> o.state == state
  {
    var n := Run(Machine(state, ChangingUser, []), results);
    Outcome(n.state, n.log, n.phase.result)
  }

  // The chain link by link, each from an arbitrary log.

  lemma RunChangingUser(state: ClientState, log: seq<Effect>, results: StepResults)
    ensures Run(Machine(state, ChangingUser, log), results) ==
              if results.changeUser.Ok? then Run(Machine(state, FetchingStatus, log + [Called(ChangeUserStep)]), results)
              else Fail(state, log + [Called(ChangeUserStep)], results.changeUser.error)
  {
  }

  lemma RunFetchingStatus(state: ClientState, log: seq<Effect>, results: StepResults)
    ensures Run(Machine(state, FetchingStatus, log), results) ==
              if results.basicHomeResult.Ok? then
                Run(Machine(state, FetchingDevices(results.basicHomeResult.value), log + [Called(BasicHomeResultStep)]), results)
              else Fail(state, log + [Called(BasicHomeResultStep)], results.basicHomeResult.error)
  {
  }

  lemma RunFetchingDevices(state: ClientState, basic: Pages.StatusSnapshot, log: seq<Effect>, results: StepResults)
    ensures Run(Machine(state, FetchingDevices(basic), log), results) ==
              if results.deviceInfo.Ok? then
                Run(Machine(state, LoggingOut(basic, results.deviceInfo.value), log + [Called(DeviceInfoStep)]), results)
              else Fail(state, log + [Called(DeviceInfoStep)], results.deviceInfo.error)
  {
  }

  lemma RunLoggingOut(state: ClientState, basic: Pages.StatusSnapshot, devices: seq<Json.Device>,
                      log: seq<Effect>, results: StepResults)
    ensures Run(Machine(state, LoggingOut(basic, devices), log), results) ==
              if results.logout.Ok? then
                Machine(ClientState(basic.status, devices), Done(Ok(())),
                        log + [Called(LogoutStep)] + Finish(ClientState(basic.status, devices)))
              else Fail(state, log + [Called(LogoutStep)], results.logout.error)
  {
    var m := Machine(state, LoggingOut(basic, devices), log);
    assert Run(m, results) == Run(Advance(m, results), results);
  }

  // ---------------------------------------------------------------------
  // Reading the effect log
  // ---------------------------------------------------------------------

  /** The page operations called, in order. */
  function CallsOf(log: seq<Effect>): seq<Step> {
    if |log| == 0 then []
    else (if log[0].Called? then [log[0].step] else []) + CallsOf(log[1..])
  }

  /** How many events were emitted. */
  function Emissions(log: seq<Effect>): nat {
    if |log| == 0 then 0
    else (if log[0].Emitted? then 1 else 0) + Emissions(log[1..])
  }

  /** How many times the state was written. */
  function Commits(log: seq<Effect>): nat {
    if |log| == 0 then 0
    else (if log[0].Committed? then 1 else 0) + Commits(log[1..])
  }

  /** The log of calling `steps` in order. */
  function CalledAll(steps: seq<Step>): (log: seq<Effect>)
    ensures |log| == |steps|
    ensures forall i :: 0 <= i < |steps| ==> log[i] == Called(steps[i])
  {
    if |steps| == 0 then [] else [Called(steps[0])] + CalledAll(steps[1..])
  }

  lemma {:induction false} LogAppend(a: seq<Effect>, b: seq<Effect>)
    ensures CallsOf(a + b) == CallsOf(a) + CallsOf(b)
    ensures Emissions(a + b) == Emissions(a) + Emissions(b)
    ensures Commits(a + b) == Commits(a) + Commits(b)
  {
    if |a| > 0 {
      assert (a + b)[1..] == a[1..] + b;
      LogAppend(a[1..], b);
    } else {
      assert a + b == b;
    }
  }

  /** A log of calls only records exactly those calls, and no commit or
      emission. */
  lemma {:induction false} CalledAllReads(steps: seq<Step>)
    ensures CallsOf(CalledAll(steps)) == steps
    ensures Emissions(CalledAll(steps)) == 0
    ensures Commits(CalledAll(steps)) == 0
  {
    if |steps| > 0 {
      var log := CalledAll(steps);
      assert log[1..] == CalledAll(steps[1..]);
      CalledAllReads(steps[1..]);
      assert [steps[0]] + steps[1..] == steps;
    }
  }

  lemma SingleReads(e: Effect)
    ensures CallsOf([e]) == if e.Called? then [e.step] else []
    ensures Emissions([e]) == if e.Emitted? then 1 else 0
    ensures Commits([e]) == if e.Committed? then 1 else 0
  {
    assert [e][1..] == [];
  }

  // ---------------------------------------------------------------------
  // What a refresh does
  // ---------------------------------------------------------------------

  /** The log of a successful refresh: the four calls in order, then the
      commit, the resolution of the promise, and one `refreshed` event. */
  function SuccessLog(s: ClientState): seq<Effect> {
    CalledAll(Steps) + Finish(s)
  }

  /** The log of a refresh whose step `k` fails: the calls up to and
      including that step, then the rejection. */
  function FailureLog(k: nat): seq<Effect>
    requires k < |Steps|
  {
    CalledAll(Steps[..k + 1]) + [Settled(false)]
  }

  lemma StepsCalled()
    ensures CalledAll(Steps[..1]) == [] + [Called(ChangeUserStep)]
    ensures CalledAll(Steps[..2]) == [] + [Called(ChangeUserStep)] + [Called(BasicHomeResultStep)]
    ensures CalledAll(Steps[..3]) == [] + [Called(ChangeUserStep)] + [Called(BasicHomeResultStep)] + [Called(DeviceInfoStep)]
    ensures CalledAll(Steps[..4]) == CalledAll(Steps) ==
              [] + [Called(ChangeUserStep)] + [Called(BasicHomeResultStep)] + [Called(DeviceInfoStep)] + [Called(LogoutStep)]
  {
    assert Steps[..4] == Steps;
  }

  /** When every step succeeds, the refresh makes the four calls in order,
      publishes the status and the device list together, resolves, and then
      emits `refreshed`. */
  lemma RefreshSucceeds(state: ClientState, results: StepResults)
    requires AllSucceed(results)
    ensures results.basicHomeResult.Ok? && results.deviceInfo.Ok?
    ensures Refresh(state, results) == Outcome(Published(results), SuccessLog(Published(results)), Ok(()))
  {
    assert ErrorOf(results, Steps[0]).None? && ErrorOf(results, Steps[1]).None?;
    assert ErrorOf(results, Steps[2]).None? && ErrorOf(results, Steps[3]).None?;
    var basic := results.basicHomeResult.value;
    var log1 := [] + [Called(ChangeUserStep)];
    var log2 := log1 + [Called(BasicHomeResultStep)];
    var log3 := log2 + [Called(DeviceInfoStep)];
    RunChangingUser(state, [], results);
    RunFetchingStatus(state, log1, results);
    RunFetchingDevices(state, basic, log2, results);
    RunLoggingOut(state, basic, results.deviceInfo.value, log3, results);
    StepsCalled();
  }

  lemma FailsAtChangeUser(state: ClientState, results: StepResults)
    requires results.changeUser.Err?
    ensures Refresh(state, results) == Outcome(state, FailureLog(0), Err(results.changeUser.error))
  {
    RunChangingUser(state, [], results);
    StepsCalled();
  }

  lemma FailsAtBasicHomeResult(state: ClientState, results: StepResults)
    requires results.changeUser.Ok? && results.basicHomeResult.Err?
    ensures Refresh(state, results) == Outcome(state, FailureLog(1), Err(results.basicHomeResult.error))
  {
    var log1 := [] + [Called(ChangeUserStep)];
    RunChangingUser(state, [], results);
    RunFetchingStatus(state, log1, results);
    StepsCalled();
  }

  lemma FailsAtDeviceInfo(state: ClientState, results: StepResults)
    requires results.changeUser.Ok? && results.basicHomeResult.Ok? && results.deviceInfo.Err?
    ensures Refresh(state, results) == Outcome(state, FailureLog(2), Err(results.deviceInfo.error))
  {
    var log1 := [] + [Called(ChangeUserStep)];
    var log2 := log1 + [Called(BasicHomeResultStep)];
    RunChangingUser(state, [], results);
    RunFetchingStatus(state, log1, results);
    RunFetchingDevices(state, results.basicHomeResult.value, log2, results);
    StepsCalled();
  }

  lemma FailsAtLogout(state: ClientState, results: StepResults)
    requires results.changeUser.Ok? && results.basicHomeResult.Ok? && results.deviceInfo.Ok? && results.logout.Err?
    ensures Refresh(state, results) == Outcome(state, FailureLog(3), Err(results.logout.error))
  {
    var log1 := [] + [Called(ChangeUserStep)];
    var log2 := log1 + [Called(BasicHomeResultStep)];
    var log3 := log2 + [Called(DeviceInfoStep)];
    RunChangingUser(state, [], results);
    RunFetchingStatus(state, log1, results);
    RunFetchingDevices(state, results.basicHomeResult.value, log2, results);
    RunLoggingOut(state, results.basicHomeResult.value, results.deviceInfo.value, log3, results);
    StepsCalled();
  }

  /** When step `k` is the first to fail, the refresh has called exactly the
      steps up to and including `k` (so logout is not called after an earlier
      failure), leaves the state untouched, rejects with that step's error
      and emits nothing. */
  lemma RefreshFails(state: ClientState, results: StepResults, k: nat)
    requires FirstFailure(results) == Some(k)
    ensures k < |Steps|
    ensures Refresh(state, results) == Outcome(state, FailureLog(k), Err(ErrorOf(results, Steps[k]).value))
  {
    assert ErrorOf(results, Steps[k]).Some?;
    if k == 0 {
      FailsAtChangeUser(state, results);
    } else {
      assert ErrorOf(results, Steps[0]).None?;
      if k == 1 {
        FailsAtBasicHomeResult(state, results);
      } else {
        assert ErrorOf(results, Steps[1]).None?;
        if k == 2 {
          FailsAtDeviceInfo(state, results);
        } else {
          assert ErrorOf(results, Steps[2]).None?;
          FailsAtLogout(state, results);
        }
      }
    }
  }

  /** A refresh succeeds exactly when all four steps do. */
  lemma RefreshOkIff(state: ClientState, results: StepResults)
    ensures Refresh(state, results).result.Ok? <==> AllSucceed(results)
  {
    match FirstFailure(results)
    case None => RefreshSucceeds(state, results);
    case Some(k) => RefreshFails(state, results, k);
  }

  /** No half-updated state: a refresh either leaves the state as it was or
      replaces both fields with the published snapshot. */
  lemma RefreshAllOrNothing(state: ClientState, results: StepResults)
    ensures var o := Refresh(state, results);
      || (o.result.Err? && o.state == state)
      || (o.result.Ok? && results.basicHomeResult.Ok? && results.deviceInfo.Ok? && o.state == Published(results))
  {
    match FirstFailure(results)
    case None => RefreshSucceeds(state, results);
    case Some(k) => RefreshFails(state, results, k);
  }

  /** What the `devices` getter reads after a refresh: the fetched list
      itself, even when it is empty (unlike `status`, it has no fallback);
      after a failure, what it read before. */
  lemma DevicesAfterRefresh(state: ClientState, results: StepResults)
    ensures var o := Refresh(state, results);
      && (o.result.Ok? ==> results.deviceInfo.Ok? && Devices(o.state) == results.deviceInfo.value)
      && (o.result.Err? ==> Devices(o.state) == Devices(state))
  {
    RefreshAllOrNothing(state, results);
  }

  /** The effect counts of a refresh: the calls are a prefix of Steps, the
      state is written at most once, and `refreshed` is emitted once per
      successful refresh, as the last effect, after the commit, and never on
      failure. */
  lemma SuccessLogReads(s: ClientState)
    ensures CallsOf(SuccessLog(s)) == Steps
    ensures Emissions(SuccessLog(s)) == 1 && Commits(SuccessLog(s)) == 1
    ensures |SuccessLog(s)| == 7
    ensures SuccessLog(s)[4] == Committed(s) && SuccessLog(s)[5] == Settled(true)
    ensures SuccessLog(s)[6] == Emitted(Refreshed)
  {
    var f := Finish(s);
    assert f == [Committed(s)] + [Settled(true)] + [Emitted(Refreshed)];
    LogAppend([Committed(s)], [Settled(true)]);
    LogAppend([Committed(s)] + [Settled(true)], [Emitted(Refreshed)]);
    SingleReads(Committed(s));
    SingleReads(Settled(true));
    SingleReads(Emitted(Refreshed));
    LogAppend(CalledAll(Steps), f);
    CalledAllReads(Steps);
  }

  lemma FailureLogReads(k: nat)
    requires k < |Steps|
    ensures CallsOf(FailureLog(k)) == Steps[..k + 1]
    ensures Emissions(FailureLog(k)) == 0 && Commits(FailureLog(k)) == 0
    ensures |FailureLog(k)| == k + 2 && FailureLog(k)[k + 1] == Settled(false)
  {
    LogAppend(CalledAll(Steps[..k + 1]), [Settled(false)]);
    CalledAllReads(Steps[..k + 1]);
    SingleReads(Settled(false));
  }

  /** The effects of a refresh: the calls are a non-empty prefix of Steps,
      the state is written at most once, and `refreshed` is emitted once per
      successful refresh, as the last effect, after the commit, and never on
      failure, where the rejection is the last effect. */
  lemma RefreshEffects(state: ClientState, results: StepResults)
    ensures var o := Refresh(state, results);
      && CallsOf(o.log) <= Steps
      && |CallsOf(o.log)| > 0
      && Emissions(o.log) == Commits(o.log) == (if o.result.Ok? then 1 else 0)
      && |o.log| >= 2
      && (o.result.Ok? ==> |o.log| == 7 && o.log[4] == Committed(o.state) && o.log[5] == Settled(true)
                           && o.log[6] == Emitted(Refreshed))
      && (o.result.Err? ==> o.log[|o.log| - 1] == Settled(false))
  {
    match FirstFailure(results)
    case None =>
      RefreshSucceeds(state, results);
      SuccessLogReads(Published(results));
    case Some(k) =>
      RefreshFails(state, results, k);
      FailureLogReads(k);
  }

  // ---------------------------------------------------------------------
  // Repeated refreshes
  // ---------------------------------------------------------------------

  /** Refreshes run one after another (the source assumes callers do not
      overlap them), each with its own step outcomes. */
  function RefreshAll(state: ClientState, runs: seq<StepResults>): (o: Outcome)
    decreases |runs|
  {
    if |runs| == 0 then Outcome(state, [], Ok(()))
    else
      var before := RefreshAll(state, runs[..|runs| - 1]);
      var last := Refresh(before.state, runs[|runs| - 1]);
      Outcome(last.state, before.log + last.log, last.result)
  }

  /** How many of the runs succeed. */
  function Successes(runs: seq<StepResults>): nat
    decreases |runs|
  {
    if |runs| == 0 then 0
    else Successes(runs[..|runs| - 1]) + (if AllSucceed(runs[|runs| - 1]) then 1 else 0)
  }

  /** The index of the last run that succeeds, if any. */
  function LastSuccess(runs: seq<StepResults>): (k: Option<nat>)
    ensures k.Some? ==> k.value < |runs| && AllSucceed(runs[k.value])
    ensures k.Some? ==> forall j :: k.value < j < |runs| ==> !AllSucceed(runs[j])
    ensures k.None? ==> forall j :: 0 <= j < |runs| ==> !AllSucceed(runs[j])
    decreases |runs|
  {
    if |runs| == 0 then None
    else if AllSucceed(runs[|runs| - 1]) then Some(|runs| - 1)
    else LastSuccess(runs[..|runs| - 1])
  }

  /** Over any sequence of refreshes, `refreshed` is emitted once per
      successful refresh, and the client ends with the snapshot of the last
      successful one, or the state it started with when none succeeded. */
  lemma {:induction false} RefreshAllPublishesLast(state: ClientState, runs: seq<StepResults>)
    ensures Emissions(RefreshAll(state, runs).log) == Successes(runs)
    ensures LastSuccess(runs).None? ==> RefreshAll(state, runs).state == state
    ensures LastSuccess(runs).Some? ==>
              var r := runs[LastSuccess(runs).value];
              r.basicHomeResult.Ok? && r.deviceInfo.Ok? && RefreshAll(state, runs).state == Published(r)
    decreases |runs|
  {
    if |runs| > 0 {
      var init := runs[..|runs| - 1];
      var r := runs[|runs| - 1];
      RefreshAllPublishesLast(state, init);
      var before := RefreshAll(state, init);
      var last := Refresh(before.state, r);
      LogAppend(before.log, last.log);
      RefreshEffects(before.state, r);
      RefreshOkIff(before.state, r);
      RefreshAllOrNothing(before.state, r);
      if !AllSucceed(r) {
        assert LastSuccess(runs) == LastSuccess(init);
      }
    }
  }

  // ---------------------------------------------------------------------
  // A refresh against the router
  // ---------------------------------------------------------------------

  /** The outcome of each step when the page client talks to the router
      through `transport`. */
  function LiveResults(p: Pages.Pages, transport: Pages.Transport): StepResults {
    StepResults(
      Pages.ChangeUserPage(p, transport).result,
      Pages.BasicHomeResultPage(p, transport).result,
      Pages.DeviceInfoPage(p, transport).result,
      Pages.LogoutPage(p, transport).result)
  }

  /** The URLs requested by a sequence of calls. */
  function RequestsOf(p: Pages.Pages, steps: seq<Step>): (urls: seq<string>)
    ensures |urls| == |steps|
    ensures forall i :: 0 <= i < |steps| ==> urls[i] == Pages.UrlOf(p, OperationOf(steps[i]))
  {
    if |steps| == 0 then [] else [Pages.UrlOf(p, OperationOf(steps[0]))] + RequestsOf(p, steps[1..])
  }

  /** `client.refresh()` against the router: the new client, the URLs
      requested in order, the number of `refreshed` events and the result. */
  function RefreshClient(c: Client, transport: Pages.Transport): (r: (Client, seq<string>, nat, Result<()>))
    ensures r.0.pages == c.pages
    ensures r.3.Err? ==> r.0 == c
  {
    var o := Refresh(c.state, LiveResults(c.pages, transport));
    (Client(c.pages, o.state), RequestsOf(c.pages, CallsOf(o.log)), Emissions(o.log), o.result)
  }

  /** A step of a refresh against the router fails exactly when the router
      does not answer its page with success, or, for the two pages that are
      parsed, when the body does not parse. */
  lemma LiveStepFails(p: Pages.Pages, transport: Pages.Transport, step: Step)
    ensures var resp := transport(Pages.UrlOf(p, OperationOf(step)));
      ErrorOf(LiveResults(p, transport), step).Some? <==>
        || !Pages.IsSuccess(resp)
        || (step == BasicHomeResultStep && Pages.ParseBasicHomeResult(resp.body).Err?)
        || (step == DeviceInfoStep && Pages.ParseDeviceInfo(resp.body).Err?)
  {
  }

  /** When the router answers every page with success and both bodies
      parse, the refresh requests the four pages in order, emits one event,
      and the client then reports the status token of the status page and
      the decoded device list. */
  lemma LiveRefreshSucceeds(c: Client, transport: Pages.Transport)
    requires Pages.IsSuccess(transport(Pages.UrlOf(c.pages, Pages.ChangeUser)))
    requires Pages.IsSuccess(transport(Pages.UrlOf(c.pages, Pages.BasicHomeResult)))
    requires Pages.IsSuccess(transport(Pages.UrlOf(c.pages, Pages.DeviceInfo)))
    requires Pages.IsSuccess(transport(Pages.UrlOf(c.pages, Pages.Logout)))
    requires Pages.ParseBasicHomeResult(transport(Pages.UrlOf(c.pages, Pages.BasicHomeResult)).body).Ok?
    requires Pages.ParseDeviceInfo(transport(Pages.UrlOf(c.pages, Pages.DeviceInfo)).body).Ok?
    ensures var (c', requests, events, result) := RefreshClient(c, transport);
      && result == Ok(())
      && requests == [Pages.UrlOf(c.pages, Pages.ChangeUser), Pages.UrlOf(c.pages, Pages.BasicHomeResult),
                      Pages.UrlOf(c.pages, Pages.DeviceInfo), Pages.UrlOf(c.pages, Pages.Logout)]
      && events == 1
      && Status(c'.state) == Pages.ParseBasicHomeResult(transport(Pages.UrlOf(c.pages, Pages.BasicHomeResult)).body).value.status
      && Devices(c'.state) == Pages.ParseDeviceInfo(transport(Pages.UrlOf(c.pages, Pages.DeviceInfo)).body).value
  {
    var results := LiveResults(c.pages, transport);
    assert AllSucceed(results);
    var s := Published(results);
    assert s.status != "" by {
      assert Pages.IsStatusToken(results.basicHomeResult.value.status);
    }
    RefreshSucceeds(c.state, results);
    SuccessLogReads(s);
    RequestsOfSteps(c.pages);
  }

  lemma RequestsOfSteps(p: Pages.Pages)
    ensures RequestsOf(p, Steps) == [Pages.UrlOf(p, Pages.ChangeUser), Pages.UrlOf(p, Pages.BasicHomeResult),
                                     Pages.UrlOf(p, Pages.DeviceInfo), Pages.UrlOf(p, Pages.Logout)]
  {
  }

  /** When the router refuses one of the pages, or a body does not parse,
      the refresh stops there: it requests the pages up to and including the
      failing one, keeps the client's state, emits nothing and rejects with
      that page's error. */
  lemma LiveRefreshFails(c: Client, transport: Pages.Transport, k: nat)
    requires FirstFailure(LiveResults(c.pages, transport)) == Some(k)
    ensures k < |Steps|
    ensures var (c', requests, events, result) := RefreshClient(c, transport);
      && result == Err(ErrorOf(LiveResults(c.pages, transport), Steps[k]).value)
      && requests == RequestsOf(c.pages, Steps[..k + 1])
      && events == 0
      && c' == c
  {
    var results := LiveResults(c.pages, transport);
    RefreshFails(c.state, results, k);
    FailureLogReads(k);
  }
}
