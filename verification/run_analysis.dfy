/** The analysis task runner that chart components mix in: a per-component
    registry of named tasks, a status-poll loop, and cancellation of the previous
    remote task when a name is run again. The mixin itself is not part of this
    model; its behaviour is the one its tests fix. */
module RunAnalysis {
  import opened Js

  const Submitted: string := "SUBMITTED"
  const Succeeded: string := "SUCCESS"
  const Failed: string := "FAILURE"

  /** One answer of `getAnalysisStatus`: the task state and its result. */
  datatype StatusReply<R> = StatusReply(state: string, result: R)

  datatype RejectReason = AnalysisFailed | UnknownTaskState(state: string)

  /** How the promise of `runAnalysis` settles; `StillPolling` when the replies
      given run out while the task is still submitted. */
  datatype PollOutcome<R> = Resolved(value: R) | Rejected(reason: RejectReason) | StillPolling

  datatype Polled<R> = Polled(outcome: PollOutcome<R>, polls: nat)

  predicate Terminal<R>(reply: StatusReply<R>) {
    reply.state != Submitted
  }

  /** How one terminal reply settles the promise. */
  function Settle<R>(reply: StatusReply<R>): (o: PollOutcome<R>)
    requires Terminal(reply)
    ensures reply.state == Succeeded <==> o == Resolved(reply.result)
    ensures reply.state == Failed <==> o == Rejected(AnalysisFailed)
    ensures reply.state != Succeeded && reply.state != Failed <==> o == Rejected(UnknownTaskState(reply.state))
  {
    if reply.state == Succeeded then Resolved(reply.result)
    else if reply.state == Failed then Rejected(AnalysisFailed)
    else Rejected(UnknownTaskState(reply.state))
  }

  /** The poll loop over the successive status replies: poll again on
      `SUBMITTED`, settle on the first other state. */
  function Poll<R>(replies: seq<StatusReply<R>>): (p: Polled<R>)
    ensures p.polls <= |replies|
    ensures forall i :: 0 <= i < p.polls - 1 ==> replies[i].state == Submitted
    ensures p.outcome.StillPolling? ==> p.polls == |replies| && forall i :: 0 <= i < |replies| ==> replies[i].state == Submitted
    ensures !p.outcome.StillPolling? ==> p.polls >= 1 && Terminal(replies[p.polls - 1])
                                         && p.outcome == Settle(replies[p.polls - 1])
  {
    if |replies| == 0 then Polled(StillPolling, 0)
    else if replies[0].state == Submitted then
      var rest := Poll(replies[1..]);
      Polled(rest.outcome, rest.polls + 1)
    else Polled(Settle(replies[0]), 1)
  }

  /** A `SUCCESS` reply resolves with exactly its result after one poll, whatever would follow. */
  lemma SuccessResolves<R>(result: R, later: seq<StatusReply<R>>)
    ensures Poll([StatusReply(Succeeded, result)] + later) == Polled(Resolved(result), 1)
  {
  }

  /** `k` `SUBMITTED` replies followed by `SUCCESS` take exactly `k + 1` polls and
      resolve with the reported result. */
  lemma {:induction false} SubmittedThenSuccess<R>(k: nat, pending: R, result: R, later: seq<StatusReply<R>>)
    ensures Poll(Waiting(k, pending) + [StatusReply(Succeeded, result)] + later) == Polled(Resolved(result), k + 1)
  {
    var replies := Waiting(k, pending) + [StatusReply(Succeeded, result)] + later;
    if k > 0 {
      assert replies[0].state == Submitted;
      assert replies[1..] == Waiting(k - 1, pending) + [StatusReply(Succeeded, result)] + later;
      SubmittedThenSuccess(k - 1, pending, result, later);
    }
  }

  /** `k` `SUBMITTED` replies. */
  function Waiting<R>(k: nat, pending: R): (w: seq<StatusReply<R>>)
    ensures |w| == k && forall i :: 0 <= i < k ==> w[i] == StatusReply(Submitted, pending)
  {
    if k == 0 then [] else [StatusReply(Submitted, pending)] + Waiting(k - 1, pending)
  }

  /** A task in the registry: its name, arguments and the backend's task id. */
  datatype Task = Task(name: string, args: JsValue, taskId: int)

  /** A component's task registry and the remote task ids it has asked the
      backend to cancel, in order. */
  datatype Component = Component(tasks: map<string, Task>, cancelled: seq<int>)

  const NewComponent: Component := Component(map[], [])

  /** The calls one run makes to the backend, in order. */
  datatype Call = Cancel(taskId: int) | CreateAnalysis(name: string, args: JsValue) | GetStatus(taskId: int)

  datatype Run<R> = Run(component: Component, outcome: PollOutcome<R>, calls: seq<Call>)

  /** `runAnalysis(name, args)`: cancel a task registered under the same name
      (finished or not), submit the new task, register it (it stays registered
      once settled) and poll its status. `taskId` is the backend's answer to the
      submission and `replies` its answers to the status polls. */
  function RunAnalysis<R>(c: Component, name: string, args: JsValue, taskId: int, replies: seq<StatusReply<R>>)
    : (r: Run<R>)
    ensures r.component.tasks == c.tasks[name := Task(name, args, taskId)]
    ensures name in c.tasks ==> r.component.cancelled == c.cancelled + [c.tasks[name].taskId]
    ensures name !in c.tasks ==> r.component.cancelled == c.cancelled
    ensures var p := Poll(replies);
            var prefix := if name in c.tasks then [Cancel(c.tasks[name].taskId)] else [];
            && r.outcome == p.outcome
            && |r.calls| == |prefix| + 1 + p.polls
            && r.calls[..|prefix| + 1] == prefix + [CreateAnalysis(name, args)]
            && forall i :: |prefix| + 1 <= i < |r.calls| ==> r.calls[i] == GetStatus(taskId)
  {
    var cancels := if name in c.tasks then [Cancel(c.tasks[name].taskId)] else [];
    var cancelled := if name in c.tasks then c.cancelled + [c.tasks[name].taskId] else c.cancelled;
    var p := Poll(replies);
    var polls := seq(p.polls, _ => GetStatus(taskId));
    Run(Component(c.tasks[name := Task(name, args, taskId)], cancelled),
        p.outcome,
        cancels + [CreateAnalysis(name, args)] + polls)
  }

  /** Running a name issues one cancel exactly when the name is already registered,
      and adds a registry entry exactly when it is not. */
  lemma RunCounts<R>(c: Component, name: string, args: JsValue, taskId: int, replies: seq<StatusReply<R>>)
    ensures var r := RunAnalysis(c, name, args, taskId, replies);
            && |r.component.cancelled| == |c.cancelled| + (if name in c.tasks then 1 else 0)
            && |r.component.tasks| == |c.tasks| + (if name in c.tasks then 0 else 1)
  {
  }

  /** Running one name leaves the other names' tasks alone, and its only cancel,
      if any, is its first call and targets the task registered under the same
      name: two names never cancel each other. */
  lemma {:induction false} CancelsOnlyOwnName<R>(c: Component, name: string, args: JsValue, taskId: int,
                                                 replies: seq<StatusReply<R>>, other: string)
    requires other != name
    ensures other in RunAnalysis(c, name, args, taskId, replies).component.tasks <==> other in c.tasks
    ensures other in c.tasks ==> RunAnalysis(c, name, args, taskId, replies).component.tasks[other] == c.tasks[other]
    ensures var calls := RunAnalysis(c, name, args, taskId, replies).calls;
            forall i :: 0 <= i < |calls| && calls[i].Cancel? ==> i == 0 && name in c.tasks && calls[i] == Cancel(c.tasks[name].taskId)
  {
    var r := RunAnalysis(c, name, args, taskId, replies);
    var prefix := if name in c.tasks then [Cancel(c.tasks[name].taskId)] else [];
    forall i | 0 <= i < |r.calls|
      ensures r.calls[i].Cancel? ==> i == 0 && name in c.tasks && r.calls[i] == Cancel(c.tasks[name].taskId)
    {
      if i >= |prefix| + 1 {
        assert r.calls[i] == GetStatus(taskId);
      } else {
        assert r.calls[i] == (prefix + [CreateAnalysis(name, args)])[i];
      }
    }
  }

  /** The scenario of the runner's test suite: the same name twice, then another
      name, every task succeeding at once. */
  lemma CancelScenario(args: JsValue)
    ensures var first := RunAnalysis(NewComponent, "some-name", args, 123, [StatusReply(Succeeded, 123)]);
            var second := RunAnalysis(first.component, "some-name", args, 123, [StatusReply(Succeeded, 123)]);
            var third := RunAnalysis(second.component, "other-name", args, 123, [StatusReply(Succeeded, 123)]);
            && first.outcome == Resolved(123) && |first.component.tasks| == 1 && |first.component.cancelled| == 0
            && second.outcome == Resolved(123) && |second.component.tasks| == 1 && |second.component.cancelled| == 1
            && third.outcome == Resolved(123) && |third.component.tasks| == 2 && |third.component.cancelled| == 1
  {
    var first := RunAnalysis(NewComponent, "some-name", args, 123, [StatusReply(Succeeded, 123)]);
    var second := RunAnalysis(first.component, "some-name", args, 123, [StatusReply(Succeeded, 123)]);
    assert "other-name" != "some-name";
    assert first.component.tasks.Keys == {"some-name"};
    assert second.component.tasks.Keys == {"some-name"};
    RunCounts(second.component, "other-name", args, 123, [StatusReply(Succeeded, 123)]);
  }
}
