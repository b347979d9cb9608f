/** Saving a chart's state under an identifier and restoring a chart from one:
    the `chart2id` guards, the `getState` long-poll with its growing delay and
    fifteen-minute budget, and `id2chart`. */
module StateManager {
  import opened Outcomes
  import opened Js
  import opened ChartManager

  const InitialDelay: int := 200
  const DelayStep: int := 100
  const MaxDelay: int := 3000
  /** Fifteen minutes, in milliseconds: the loop runs while the time waited is at most this. */
  const WaitBudget: int := 900000
  /** The number of polls after which the budget is exhausted. */
  const MaxPolls: nat := 314

  function Min(a: int, b: int): int {
    if a < b then a else b
  }

  /** The wait before poll number `attempt` (counting from 0), in closed form. */
  function Delay(attempt: nat): (d: int)
    ensures InitialDelay <= d <= MaxDelay
  {
    Min(InitialDelay + DelayStep * attempt, MaxDelay)
  }

  /** The schedule starts at 200 ms and each later delay is the previous one plus
      100 ms, capped at 3000 ms: the update the loop performs. */
  lemma DelayRecurrence(attempt: nat)
    ensures Delay(0) == InitialDelay
    ensures Delay(attempt + 1) == Min(Delay(attempt) + DelayStep, MaxDelay)
    ensures Delay(attempt) <= Delay(attempt + 1)
  {
  }

  /** Total time waited once `n` delays have been taken. */
  function Waited(n: nat): nat {
    if n == 0 then 0 else Waited(n - 1) + Delay(n - 1)
  }

  function Sum(s: seq<int>): int {
    if |s| == 0 then 0 else Sum(s[..|s| - 1]) + s[|s| - 1]
  }

  lemma {:induction false} WaitedRamp(n: nat)
    requires n <= 29
    ensures Waited(n) == 200 * n + 50 * n * (n - 1)
  {
    if n > 0 {
      WaitedRamp(n - 1);
      assert Delay(n - 1) == 200 + 100 * (n - 1);
      assert 50 * n * (n - 1) == 50 * (n - 1) * (n - 2) + 100 * (n - 1);
    }
  }

  lemma {:induction false} WaitedPlateau(n: nat)
    requires n >= 29
    ensures Waited(n) == 46400 + 3000 * (n - 29)
  {
    if n == 29 {
      WaitedRamp(29);
    } else {
      WaitedPlateau(n - 1);
    }
  }

  lemma {:induction false} WaitedMonotonic(n: nat, m: nat)
    requires n <= m
    ensures Waited(n) <= Waited(m)
    decreases m - n
  {
    if n < m {
      WaitedMonotonic(n, m - 1);
    }
  }

  /** The loop condition `timeWaited <= 900000` holds before exactly the first 314 polls. */
  lemma PollBudget(n: nat)
    ensures Waited(n) <= WaitBudget <==> n < MaxPolls
    ensures n == MaxPolls ==> Waited(n) == 901400
  {
    if n <= 29 {
      WaitedRamp(29);
      WaitedMonotonic(n, 29);
    } else {
      WaitedPlateau(n);
    }
  }

  /** A reply to `getState(stateID)`: an HTTP status with the stored state, or a
      rejected request. */
  datatype StateReply<S> = Reply(status: int, state: S) | Rejected

  /** A reply that makes the loop poll again. */
  predicate NotReady<S>(rep: StateReply<S>) {
    rep.Reply? && rep.status != 200
  }

  /** Poll `k` carries the first status-200 reply and comes within the budget. */
  ghost predicate FirstReady<S>(reply: nat -> StateReply<S>, k: nat) {
    && k < MaxPolls
    && reply(k).Reply? && reply(k).status == 200
    && forall j :: 0 <= j < k ==> NotReady(reply(j))
  }

  /** What `getState` settles with. `NoValue` is the promise resolving with
      `undefined` once the budget is spent. */
  datatype Retrieval<S> = AccessDenied | PollFailed | Retrieved(state: S) | NoValue

  /** A settled poll loop and the number of polls it made. */
  datatype Polled<S> = Polled(result: Retrieval<S>, polls: nat)

  /** The poll loop counted in polls rather than in time: from poll `n` on, stop at
      the first rejected or status-200 reply, or give up after `MaxPolls` polls. */
  function PollFrom<S>(reply: nat -> StateReply<S>, n: nat): (p: Polled<S>)
    requires n <= MaxPolls
    ensures p.polls <= MaxPolls
    ensures n < p.polls || n == p.polls == MaxPolls
    ensures !p.result.AccessDenied?
    ensures p.result.NoValue? ==> p.polls == MaxPolls
    decreases MaxPolls - n
  {
    if n == MaxPolls then Polled(NoValue, MaxPolls)
    else match reply(n)
      case Rejected => Polled(PollFailed, n + 1)
      case Reply(status, state) =>
        if status == 200 then Polled(Retrieved(state), n + 1) else PollFrom(reply, n + 1)
  }

  /** What the polls from `n` on observed: every poll before the last was not ready,
      the last one decides the result, and the budget runs out exactly when no poll
      from `n` to the end of the budget is ready or rejected. */
  lemma {:induction false} PollFromObserved<S>(reply: nat -> StateReply<S>, n: nat)
    requires n <= MaxPolls
    ensures var p := PollFrom(reply, n);
            && (forall j :: n <= j < p.polls - 1 ==> NotReady(reply(j)))
            && (p.result.Retrieved? ==> reply(p.polls - 1) == Reply(200, p.result.state))
            && (p.result.PollFailed? ==> reply(p.polls - 1).Rejected?)
            && (p.result.NoValue? <==> forall j :: n <= j < MaxPolls ==> NotReady(reply(j)))
    decreases MaxPolls - n
  {
    if n < MaxPolls && NotReady(reply(n)) {
      PollFromObserved(reply, n + 1);
    }
  }

  /** When poll `k` is the first ready one, polling from any earlier poll returns
      its state after exactly `k + 1` polls. */
  lemma {:induction false} PollFromFindsFirstReady<S>(reply: nat -> StateReply<S>, n: nat, k: nat)
    requires FirstReady(reply, k) && n <= k
    ensures PollFrom(reply, n) == Polled(Retrieved(reply(k).state), k + 1)
    decreases k - n
  {
    if n < k {
      assert NotReady(reply(n));
      PollFromFindsFirstReady(reply, n + 1, k);
    }
  }

  /** The delays taken before the first `n` polls. */
  function Schedule(n: nat): (s: seq<int>)
    ensures |s| == n
    ensures forall i :: 0 <= i < n ==> s[i] == Delay(i)
  {
    seq(n, i requires 0 <= i < n => Delay(i))
  }

  /** The schedule starts at 200 ms, adds 100 ms per poll up to the 3000 ms cap,
      and never decreases. */
  lemma ScheduleShape(n: nat)
    ensures n > 0 ==> Schedule(n)[0] == InitialDelay
    ensures forall i :: 0 < i < n ==> Schedule(n)[i] == Min(Schedule(n)[i - 1] + DelayStep, MaxDelay)
    ensures forall i :: 0 <= i < n ==> InitialDelay <= Schedule(n)[i] <= MaxDelay
    ensures forall i, j :: 0 <= i <= j < n ==> Schedule(n)[i] <= Schedule(n)[j]
  {
    forall i | 0 < i < n ensures Schedule(n)[i] == Min(Schedule(n)[i - 1] + DelayStep, MaxDelay) {
      DelayRecurrence(i - 1);
    }
  }

  /** The total of the schedule is the time waited, at most 901400 ms within the budget. */
  lemma {:induction false} ScheduleTotal(n: nat)
    ensures Sum(Schedule(n)) == Waited(n)
    ensures n <= MaxPolls ==> Sum(Schedule(n)) <= 901400
  {
    if n > 0 {
      ScheduleTotal(n - 1);
      assert Schedule(n)[..n - 1] == Schedule(n - 1);
    }
    if n <= MaxPolls {
      WaitedMonotonic(n, MaxPolls);
      PollBudget(MaxPolls);
    }
  }

  /** What the polls of a granted `getState` observe: between one and 314 polls;
      every poll before the last was not ready; the state returned is that of the
      first status-200 reply within the budget; the promise rejects exactly when the
      last poll was rejected; and no value comes back exactly when none of the 314
      polls is ready or rejected, after all 314 of them. */
  lemma PollsObserved<S>(reply: nat -> StateReply<S>)
    ensures var p := PollFrom(reply, 0);
            && 1 <= p.polls <= MaxPolls
            && (forall i :: 0 <= i < p.polls - 1 ==> NotReady(reply(i)))
            && (p.result.Retrieved? ==> FirstReady(reply, p.polls - 1) && reply(p.polls - 1).state == p.result.state)
            && (forall k: nat :: FirstReady(reply, k) ==> p == Polled(Retrieved(reply(k).state), k + 1))
            && (p.result.PollFailed? <==> reply(p.polls - 1).Rejected?)
            && (p.result.NoValue? <==> forall i :: 0 <= i < MaxPolls ==> NotReady(reply(i)))
            && (p.result.NoValue? ==> p.polls == MaxPolls)
  {
    var p := PollFrom(reply, 0);
    PollFromObserved(reply, 0);
    forall k: nat | FirstReady(reply, k) ensures p == Polled(Retrieved(reply(k).state), k + 1) {
      PollFromFindsFirstReady(reply, 0, k);
    }
  }

  /** The calls made to the backend, in order. */
  datatype Call = RequestAccess | PollState(attempt: nat)

  function PollCalls(n: nat): (calls: seq<Call>)
    ensures |calls| == n
    ensures forall i :: 0 <= i < n ==> calls[i] == PollState(i)
  {
    seq(n, i requires 0 <= i < n => PollState(i))
  }

  /** `getState(stateID)`. `accessGranted` is the outcome of `requestStateAccess`,
      `reply(i)` the backend's answer to poll `i`; `delays` are the waits taken.
      The loop runs on the time waited; its result is the count-based `PollFrom`. */
  method GetState<S>(accessGranted: bool, reply: nat -> StateReply<S>)
    returns (r: Retrieval<S>, calls: seq<Call>, delays: seq<int>)
    ensures calls == [RequestAccess] + PollCalls(|delays|)
    ensures delays == Schedule(|delays|)
    ensures !accessGranted ==> r == AccessDenied && delays == []
    ensures accessGranted ==> Polled(r, |delays|) == PollFrom(reply, 0)
  {
    calls := [RequestAccess];
    delays := [];
    if !accessGranted {
      return AccessDenied, calls, delays;
    }
    var timeWaited := 0;
    var delay := InitialDelay;
    var attempt: nat := 0;
    while timeWaited <= WaitBudget
      invariant attempt <= MaxPolls
      invariant delays == Schedule(attempt)
      invariant calls == [RequestAccess] + PollCalls(attempt)
      invariant timeWaited == Waited(attempt)
      invariant attempt > 0 ==> Waited(attempt - 1) <= WaitBudget
      invariant delay == Delay(attempt)
      invariant PollFrom(reply, attempt) == PollFrom(reply, 0)
      decreases WaitBudget + MaxDelay - timeWaited
    {
      PollBudget(attempt);
      DelayRecurrence(attempt);
      assert Schedule(attempt) + [delay] == Schedule(attempt + 1);
      assert PollCalls(attempt) + [PollState(attempt)] == PollCalls(attempt + 1);
      delays := delays + [delay];
      timeWaited := timeWaited + delay;
      delay := delay + DelayStep;
      delay := if delay > MaxDelay then MaxDelay else delay;
      calls := calls + [PollState(attempt)];
      var rv := reply(attempt);
      attempt := attempt + 1;
      if rv.Rejected? {
        return PollFailed, calls, delays;
      }
      if rv.status == 200 {
        return Retrieved(rv.state), calls, delays;
      }
    }
    PollBudget(attempt);
    PollBudget(attempt - 1);
    r := NoValue;
  }

  /** What the element under a selector exposes: the Vue instance attached to it,
      if any, by its component name and whether its parent accepts a state-changed callback. */
  datatype VueView = VueView(optionsName: string, parentCanSaveState: bool)
  datatype ElementView = ElementView(vue: Option<VueView>)

  datatype StateError =
    | NotExactlyOneElement(count: nat)
    | NotAChart
    | StateSavingUnsupported

  /** `chart2id(selector, callback)`, with the elements the selector matches given as
      a list. `Ok` means the state-changed callback was registered on the chart. */
  function Chart2Id(matches: seq<ElementView>): (r: Result<(), StateError>)
    ensures r.Ok? <==> && |matches| == 1
                       && matches[0].vue.Some?
                       && matches[0].vue.value.optionsName == "chart"
                       && matches[0].vue.value.parentCanSaveState
    ensures |matches| != 1 ==> r == Err(NotExactlyOneElement(|matches|))
    ensures |matches| == 1 && (matches[0].vue.None? || matches[0].vue.value.optionsName != "chart")
            ==> r == Err(NotAChart)
  {
    if |matches| != 1 then Err(NotExactlyOneElement(|matches|))
    else if matches[0].vue.None? || matches[0].vue.value.optionsName != "chart" then Err(NotAChart)
    else if !matches[0].vue.value.parentCanSaveState then Err(StateSavingUnsupported)
    else Ok(())
  }

  /** The record the registered callback saves when the chart reports a state change. */
  datatype StoredState = StoredState(chartName: string, chartState: JsValue)

  datatype RestoreError =
    | Denied
    | PollError
    | UndefinedState   // `state.chartName` read on the undefined value of an exhausted budget
    | MountFailed(e: ChartError)
    | NoSetState(container: Container)  // `vm._setState` is undefined: a TypeError once the chart is appended

  /** `id2chart(selector, stateID)`: fetch the stored state, mount the chart it names
      into the single container the selector matches, then apply the stored chart
      state to that chart. A chart without `_setState` fails after it was mounted,
      so its error carries the container with the chart already appended. */
  method Id2Chart(reg: Registry, matches: seq<Container>, accessGranted: bool, reply: nat -> StateReply<StoredState>)
    returns (r: Result<Mounted, RestoreError>)
    ensures !accessGranted ==> r == Err(Denied)
    ensures accessGranted && (forall i :: 0 <= i < MaxPolls ==> NotReady(reply(i))) ==> r == Err(UndefinedState)
    ensures accessGranted && PollFrom(reply, 0).result.PollFailed? ==> r == Err(PollError)
    ensures r.Ok? ==> exists k: nat :: && FirstReady(reply, k)
                                  && reply(k).state.chartName in reg.charts
                                  && reg.charts[reply(k).state.chartName].hasSetState
                                  && |matches| == 1
                                  && r.value.vm == ChartVm(reg.charts[reply(k).state.chartName], Some(reply(k).state.chartState))
                                  && r.value.container.children == matches[0].children + [ChartHost(r.value.vm)]
    ensures forall k: nat :: accessGranted && FirstReady(reply, k) ==>
              var saved := reply(k).state;
              if saved.chartName !in reg.charts then r == Err(MountFailed(NotAvailable(saved.chartName)))
              else if |matches| != 1 then r == Err(MountFailed(SelectorNotUnique(|matches|)))
              else if !reg.charts[saved.chartName].hasSetState then
                r == Err(NoSetState(Container(matches[0].children + [ChartHost(ChartVm(reg.charts[saved.chartName], None))])))
              else r.Ok? && r.value.vm == ChartVm(reg.charts[saved.chartName], Some(saved.chartState))
  {
    var retrieval, _, delays := GetState(accessGranted, reply);
    PollsObserved(reply);
    match retrieval
    case AccessDenied => r := Err(Denied);
    case PollFailed => r := Err(PollError);
    case NoValue => r := Err(UndefinedState);
    case Retrieved(state) =>
      var mounted := SetChart(reg, state.chartName, matches);
      if mounted.Err? {
        r := Err(MountFailed(mounted.error));
      } else if !mounted.value.vm.component.hasSetState {
        r := Err(NoSetState(mounted.value.container));
      } else {
        var vm := mounted.value.vm.(appliedState := Some(state.chartState));
        r := Ok(Mounted(vm, Container(matches[0].children + [ChartHost(vm)])));
        assert FirstReady(reply, |delays| - 1);
      }
  }
}
