/** What every schedule makes of a run: exactly what is asked of it, what it sends and delivers, and how it ends. */
module OperationOutcomes {
  import opened OperationRun

  function Init(steps: seq<Step>): seq<Step>
    requires steps != []
  {
    steps[..|steps| - 1]
  }

  function Final(steps: seq<Step>): Step
    requires steps != []
  {
    steps[|steps| - 1]
  }

  /** The action the last step takes on a run that is there. */
  predicate Takes(steps: seq<Step>, id: nat, a: Action)
    requires steps != []
  {
    id < |Play(Init(steps)).runs| && Final(steps) == On(id, a)
  }

  // ----- what a schedule asks for -----

  function Starts(steps: seq<Step>): nat {
    if steps == [] then 0 else Starts(Init(steps)) + if Final(steps).Start? && Dispose !in steps then 1 else 0
  }

  predicate CancelAsked(steps: seq<Step>, id: nat) {
    steps != [] && (CancelAsked(Init(steps), id) || Takes(steps, id, RequestCancel))
  }

  /** By the caller, or by disposing of the scope before the run has ended. */
  predicate ReleaseAsked(steps: seq<Step>, id: nat) {
    steps != [] &&
    (|| ReleaseAsked(Init(steps), id)
     || Takes(steps, id, RequestRelease)
     || (var s := Play(Init(steps)); id < |s.runs| && !s.runs[id].phase.Finished? && Final(steps) == Dispose))
  }

  /** The first reply to the reservation. */
  function Reserved(steps: seq<Step>, id: nat): Prepare {
    if steps == [] then Pending
    else if Reserved(Init(steps), id) != Pending then Reserved(Init(steps), id)
    else if Takes(steps, id, PrepareReplies(true)) then Ready
    else if Takes(steps, id, PrepareReplies(false)) then Refused
    else Pending
  }

  lemma ActRequests(disposed: bool, r: Run, a: Action)
    requires Consistent(disposed, r)
    ensures var t := Act(disposed, r, a);
            && (t.cancelRequested <==> r.cancelRequested || a == RequestCancel)
            && (t.releaseRequested <==> r.releaseRequested || a == RequestRelease)
            && (a.PrepareReplies? && r.prepare.Pending? ==> t.prepare == if a.ok then Ready else Refused)
            && (!a.PrepareReplies? || !r.prepare.Pending? ==> t.prepare == r.prepare)
  {
  }

  /** A scope has one run for every start before its disposal, and is disposed of by being asked to. */
  lemma {:induction false} ScopeExactly(steps: seq<Step>)
    ensures |Play(steps).runs| == Starts(steps)
    ensures Play(steps).disposed <==> Dispose in steps
  {
    if steps == [] {
    } else {
      ScopeExactly(Init(steps));
      assert steps == Init(steps) + [Final(steps)];
    }
  }

  /** A run knows exactly what the schedule has asked of it. */
  lemma {:induction false} RequestsExactly(steps: seq<Step>, id: nat)
    ensures id < |Play(steps).runs| ==>
              var r := Play(steps).runs[id];
              && (r.cancelRequested <==> CancelAsked(steps, id))
              && (r.releaseRequested <==> ReleaseAsked(steps, id))
              && r.prepare == Reserved(steps, id)
    ensures id >= |Play(steps).runs| ==>
              !CancelAsked(steps, id) && !ReleaseAsked(steps, id) && Reserved(steps, id) == Pending
  {
    if steps == [] {
    } else {
      RequestsExactly(Init(steps), id);
      Reachable(Init(steps));
      var s := Play(Init(steps));
      if Final(steps).On? && Final(steps).id == id && id < |s.runs| {
        ActRequests(s.disposed, s.runs[id], Final(steps).action);
      }
    }
  }

  // ----- how a run ends -----

  /** The command is on the wire and nobody has answered it. */
  predicate Outstanding(r: Run) { Count(r.log, CommandSent) == 1 && !r.phase.Finished? }

  /** A run succeeds exactly when its outstanding command is answered with success. */
  lemma SucceedsExactly(steps: seq<Step>, step: Step, id: nat)
    requires id < |Play(steps).runs|
    ensures id < |Apply(Play(steps), step).runs|
    ensures Apply(Play(steps), step).runs[id].phase == Finished(true) <==>
            || Play(steps).runs[id].phase == Finished(true)
            || (Outstanding(Play(steps).runs[id]) && step == On(id, CommandReplies(true)))
  {
    Reachable(steps);
    var s := Play(steps);
    if step.On? && step.id == id { ActSucceeds(s.disposed, s.runs[id], step.action); }
  }

  lemma ActSucceeds(disposed: bool, r: Run, a: Action)
    requires Consistent(disposed, r)
    ensures Act(disposed, r, a).phase == Finished(true) <==>
            r.phase == Finished(true) || (Outstanding(r) && a == CommandReplies(true))
  {
  }

  /** The wait of the body is over, and what it waited for did not come. */
  predicate GivesUp(r: Run) {
    || (r.phase.AwaitPrepare? && r.prepare.Refused?)
    || (r.phase.AwaitCancel? && r.cancel.Failed?)
    || (r.phase.AwaitRelease? && (r.release.Acked? || r.release.Failed?))
  }

  /** It fails exactly when the command is answered with a failure or the body gives up before. */
  lemma FailsExactly(steps: seq<Step>, step: Step, id: nat)
    requires id < |Play(steps).runs|
    ensures id < |Apply(Play(steps), step).runs|
    ensures Apply(Play(steps), step).runs[id].phase == Finished(false) <==>
            || Play(steps).runs[id].phase == Finished(false)
            || (Outstanding(Play(steps).runs[id]) && step == On(id, CommandReplies(false)))
            || (GivesUp(Play(steps).runs[id]) && step == On(id, BodyWakes))
  {
    Reachable(steps);
    var s := Play(steps);
    if step.On? && step.id == id { ActFails(s.disposed, s.runs[id], step.action); }
  }

  lemma ActFails(disposed: bool, r: Run, a: Action)
    requires Consistent(disposed, r)
    ensures Act(disposed, r, a).phase == Finished(false) <==>
            || r.phase == Finished(false)
            || (Outstanding(r) && a == CommandReplies(false))
            || (GivesUp(r) && a == BodyWakes)
  {
  }

  // ----- what a run sends -----

  predicate Grows(before: Run, after: Run, e: Event) { Count(after.log, e) == Count(before.log, e) + 1 }

  predicate Same(before: Run, after: Run, e: Event) { Count(after.log, e) == Count(before.log, e) }

  /** A step sends a call or it does not. */
  predicate SendsIff(before: Run, after: Run, e: Event, sends: bool) {
    if sends then Grows(before, after, e) else Same(before, after, e)
  }

  /** The body has nothing left to wait for before its command. */
  predicate Cleared(disposed: bool, r: Run) {
    && r.prepare.Ready? && Current(disposed, r)
    && ((r.phase.AwaitPrepare? && !r.cancelRequested) || (r.phase.AwaitCancel? && r.cancel.Acked?))
  }

  predicate Registered(r: Run) { Count(r.log, CommandSent) == 1 && Count(r.log, Unregistered) == 0 }

  predicate Detaches(a: Action) { a == RequestRelease || a.CommandReplies? }

  predicate Unsent(r: Run, e: Event) { r.prepare.Ready? && Count(r.log, e) == 0 }

  predicate SendsRelease(r: Run, a: Action) {
    a == ReleaseFires && Unsent(r, ReleaseSent) && (r.releaseRequested || r.phase == Finished(false))
  }

  lemma ActCommands(disposed: bool, r: Run, a: Action)
    requires Consistent(disposed, r)
    ensures SendsIff(r, Act(disposed, r, a), CommandSent, a == BodyWakes && Cleared(disposed, r))
  {
    ActKeeps(disposed, r, a);
  }

  lemma ActDetaches(disposed: bool, r: Run, a: Action)
    requires Consistent(disposed, r)
    ensures SendsIff(r, Act(disposed, r, a), Unregistered, Detaches(a) && Registered(r))
  {
    ActKeeps(disposed, r, a);
  }

  lemma ActCancels(disposed: bool, r: Run, a: Action)
    requires Consistent(disposed, r)
    ensures SendsIff(r, Act(disposed, r, a), CancelSent, a == CancelFires && r.cancelRequested && Unsent(r, CancelSent))
  {
    ActKeeps(disposed, r, a);
  }

  lemma ActReleases(disposed: bool, r: Run, a: Action)
    requires Consistent(disposed, r)
    ensures SendsIff(r, Act(disposed, r, a), ReleaseSent, SendsRelease(r, a))
  {
    if a == ReleaseFires {
      CountAppend(r.log, ReleaseSent);
      assert !r.release.Unlinked? <==> r.releaseRequested || r.phase == Finished(false);
    } else {
      ActKeeps(disposed, r, a);
    }
  }

  /**
   Which step sends what: the command when the body is cleared, a cancellation when one was asked for, a release when
   one was asked for or the run has failed, and each once, after the reservation is granted.
   */
  lemma SendsExactly(steps: seq<Step>, id: nat, a: Action)
    requires id < |Play(steps).runs|
    ensures var s := Play(steps); var r, t := s.runs[id], Apply(s, On(id, a)).runs[id];
            && SendsIff(r, t, CommandSent, a == BodyWakes && Cleared(s.disposed, r))
            && SendsIff(r, t, CancelSent, a == CancelFires && r.cancelRequested && Unsent(r, CancelSent))
            && SendsIff(r, t, ReleaseSent, SendsRelease(r, a))
            && SendsIff(r, t, Unregistered, Detaches(a) && Registered(r))
  {
    Reachable(steps);
    var s := Play(steps);
    ActCommands(s.disposed, s.runs[id], a);
    ActDetaches(s.disposed, s.runs[id], a);
    ActCancels(s.disposed, s.runs[id], a);
    ActReleases(s.disposed, s.runs[id], a);
  }

  /** A cancellation is acknowledged or fails by its reply, and fails unsent when the reservation is refused. */
  lemma CancelSettles(disposed: bool, r: Run, a: Action)
    requires Consistent(disposed, r)
    ensures var t := Act(disposed, r, a);
            && (t.cancel == Acked <==> r.cancel == Acked || (r.cancel == Sent && a == CancelReplies(true)))
            && (t.cancel == Failed <==>
                || r.cancel == Failed || (r.cancel == Sent && a == CancelReplies(false))
                || (r.cancel == Waiting && r.prepare == Refused && a == CancelFires))
  {
  }

  /** So does a release. */
  lemma ReleaseSettles(disposed: bool, r: Run, a: Action)
    requires Consistent(disposed, r)
    ensures var t := Act(disposed, r, a);
            && (t.release == Acked <==> r.release == Acked || (r.release == Sent && a == ReleaseReplies(true)))
            && (t.release == Failed <==>
                || r.release == Failed || (r.release == Sent && a == ReleaseReplies(false))
                || (r.release == Waiting && r.prepare == Refused && a == ReleaseFires))
  {
  }

  /** Nothing stands between the run and its command but the body's own wakes. */
  predicate Due(disposed: bool, r: Run) {
    && r.prepare.Ready? && Current(disposed, r) && !r.phase.Finished?
    && (r.cancelRequested ==> r.cancel.Acked?)
  }

  lemma WakesSend(disposed: bool, r: Run)
    requires Consistent(disposed, r) && Due(disposed, r)
    ensures Count(Wake(disposed, Wake(disposed, r)).log, CommandSent) == 1
  {
    ActKeeps(disposed, r, BodyWakes);
    ActKeeps(disposed, Wake(disposed, r), BodyWakes);
  }

  /** With the reservation granted, the run current and every cancellation acknowledged, two wakes send the command. */
  lemma CommandFollows(steps: seq<Step>, id: nat)
    requires id < |Play(steps).runs| && Due(Play(steps).disposed, Play(steps).runs[id])
    ensures var t := Play(steps + [On(id, BodyWakes), On(id, BodyWakes)]);
            id < |t.runs| && Count(t.runs[id].log, CommandSent) == 1
  {
    Reachable(steps);
    var wake := On(id, BodyWakes);
    PlayStep(steps, wake);
    PlayStep(steps + [wake], wake);
    assert steps + [wake] + [wake] == steps + [wake, wake];
    WakesSend(Play(steps).disposed, Play(steps).runs[id]);
  }

  lemma PlayStep(steps: seq<Step>, step: Step)
    ensures Play(steps + [step]) == Apply(Play(steps), step)
  {
    assert (steps + [step])[..|steps|] == steps;
  }

  /** Answered with success, and not to be released. */
  predicate Kept(r: Run) { r.phase == Finished(true) && !r.releaseRequested }

  predicate KeptIn(s: Scope, id: nat) { id < |s.runs| && Kept(s.runs[id]) }

  lemma KeptStep(s: Scope, step: Step, id: nat)
    requires AllConsistent(s) && KeptIn(s, id) && step != On(id, RequestRelease)
    ensures KeptIn(Apply(s, step), id)
  {
    if step.On? && step.id == id {
      ActSucceeds(s.disposed, s.runs[id], step.action);
      ActRequests(s.disposed, s.runs[id], step.action);
    }
  }

  lemma KeptNext(steps: seq<Step>, step: Step, id: nat)
    requires KeptIn(Play(steps), id) && step != On(id, RequestRelease)
    ensures KeptIn(Play(steps + [step]), id)
  {
    Reachable(steps);
    KeptStep(Play(steps), step, id);
    PlayStep(steps, step);
  }

  lemma {:induction false} KeptForever(steps: seq<Step>, more: seq<Step>, id: nat)
    requires KeptIn(Play(steps), id) && On(id, RequestRelease) !in more
    ensures KeptIn(Play(steps + more), id)
    decreases |more|
  {
    if more == [] {
      assert steps + more == steps;
    } else {
      KeptNext(steps, more[0], id);
      KeptForever(steps + [more[0]], more[1..], id);
      assert steps + [more[0]] + more[1..] == steps + more;
    }
  }

  /** A success that nobody asks to release is never released. */
  lemma KeptOnSuccess(steps: seq<Step>, more: seq<Step>, id: nat)
    requires id < |Play(steps).runs| && Play(steps).runs[id].phase == Finished(true)
    requires !ReleaseAsked(steps, id) && On(id, RequestRelease) !in more
    ensures id < |Play(steps + more).runs|
    ensures Kept(Play(steps + more).runs[id]) && Count(Play(steps + more).runs[id].log, ReleaseSent) == 0
  {
    RequestsExactly(steps, id);
    KeptForever(steps, more, id);
    Reachable(steps + more);
  }

  // ----- what a run delivers -----

  /** A report that is shown: matching, on an open channel of a current run, and ahead of all before it. */
  predicate Shown(disposed: bool, r: Run, a: Action) {
    && a.ProgressArrives? && a.matches && a.n > 0
    && Registered(r) && Current(disposed, r) && forall d | d in r.delivered :: d < a.n
  }

  lemma ActDelivers(disposed: bool, r: Run, a: Action)
    requires Consistent(disposed, r)
    ensures Act(disposed, r, a).delivered == if Shown(disposed, r, a) then r.delivered + [a.n] else r.delivered
  {
    assert r.delivered != [] ==> r.delivered[|r.delivered| - 1] in r.delivered;
  }

  /** Exactly these reports are delivered. */
  lemma DeliversExactly(steps: seq<Step>, id: nat, a: Action)
    requires id < |Play(steps).runs|
    ensures var s := Play(steps); var r, t := s.runs[id], Apply(s, On(id, a)).runs[id];
            t.delivered == if Shown(s.disposed, r, a) then r.delivered + [a.n] else r.delivered
  {
    Reachable(steps);
    ActDelivers(Play(steps).disposed, Play(steps).runs[id], a);
  }

  /** A step concerns the run it names; a disposal concerns all, and only asks for their release. */
  lemma OthersUntouched(steps: seq<Step>, step: Step, id: nat)
    requires id < |Play(steps).runs| && (step.On? ==> step.id != id)
    ensures id < |Apply(Play(steps), step).runs|
    ensures var r, t := Play(steps).runs[id], Apply(Play(steps), step).runs[id];
            && (step != Dispose ==> t == r)
            && t.delivered == r.delivered && t.phase == r.phase && Same(r, t, CommandSent) && Same(r, t, CancelSent)
            && Same(r, t, ReleaseSent)
            && SendsIff(r, t, Unregistered, step == Dispose && Registered(r) && !r.phase.Finished?)
  {
    Reachable(steps);
    ApplyKeeps(Play(steps), step);
  }
}
