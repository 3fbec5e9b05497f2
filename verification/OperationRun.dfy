/**
 One presentation scope and the operations it runs. Each synchronous stretch between two awaits is one step;
 native replies, user requests and microtasks interleave in any order, and every reply may be a failure.
 */
module OperationRun {
  datatype Prepare = Pending | Ready | Refused

  /** A memoized call chained on the reservation: not asked for, waiting for it, on the wire, settled. */
  datatype Link = Unlinked | Waiting | Sent | Acked | Failed

  datatype Phase = AwaitPrepare | AwaitCancel | AwaitRelease | AwaitCommand | Finished(success: bool)

  datatype Channel = NoChannel | Open | Closed

  datatype Event = CommandSent | CancelSent | ReleaseSent | Unregistered

  datatype Run = Run(
    prepare: Prepare,
    cancelRequested: bool,
    releaseRequested: bool,
    cancel: Link,
    release: Link,
    phase: Phase,
    channel: Channel,
    sequence: nat,
    log: seq<Event>,
    delivered: seq<nat>)

  datatype Action =
    | RequestCancel
    | RequestRelease
    | PrepareReplies(ok: bool)
    | CancelFires
    | CancelReplies(ok: bool)
    | ReleaseFires
    | ReleaseReplies(ok: bool)
    | BodyWakes
    | CommandReplies(ok: bool)
    | ProgressArrives(n: nat, matches: bool)

  /** Presentation data may still be shown. */
  predicate Current(disposed: bool, r: Run) { !disposed && !r.releaseRequested }

  // ----- the pieces of one run -----

  function Linked(l: Link): Link { if l.Unlinked? then Waiting else l }

  function Detach(r: Run): Run {
    if r.channel.Open? then r.(channel := Closed, log := r.log + [Unregistered]) else r
  }

  function AskCancel(r: Run): Run { r.(cancelRequested := true, cancel := Linked(r.cancel)) }

  function AskRelease(r: Run): Run { Detach(r.(releaseRequested := true)).(release := Linked(r.release)) }

  /** The `finally` block: detach, leave the running set, and release what was not delivered. */
  function Finish(r: Run, success: bool): Run {
    var detached := Detach(r);
    detached.(phase := Finished(success), release := if success then detached.release else Linked(detached.release))
  }

  function Invoke(r: Run): Run {
    r.(phase := AwaitCommand, channel := Open, log := r.log + [CommandSent])
  }

  /** The chained call runs once the reservation is known; a refused reservation rejects it unsent. */
  function FireCancel(r: Run): Run {
    if r.cancel.Waiting? && r.prepare.Ready? then r.(cancel := Sent, log := r.log + [CancelSent])
    else if r.cancel.Waiting? && r.prepare.Refused? then r.(cancel := Failed)
    else r
  }

  function FireRelease(r: Run): Run {
    if r.release.Waiting? && r.prepare.Ready? then r.(release := Sent, log := r.log + [ReleaseSent])
    else if r.release.Waiting? && r.prepare.Refused? then r.(release := Failed)
    else r
  }

  function Settle(l: Link, ok: bool): Link {
    if !l.Sent? then l else if ok then Acked else Failed
  }

  /** After an await: give up when no longer current, otherwise go on. */
  function Proceed(disposed: bool, r: Run): Run {
    if !Current(disposed, r) then AskRelease(r).(phase := AwaitRelease) else Invoke(r)
  }

  function Wake(disposed: bool, r: Run): Run {
    match r.phase
    case AwaitPrepare =>
      if r.prepare.Pending? then r
      else if r.prepare.Refused? then Finish(r, false)
      else if Current(disposed, r) && r.cancelRequested then AskCancel(r).(phase := AwaitCancel)
      else Proceed(disposed, r)
    case AwaitCancel =>
      if r.cancel.Acked? then Proceed(disposed, r)
      else if r.cancel.Failed? then Finish(r, false)
      else r
    case AwaitRelease => if r.release.Acked? || r.release.Failed? then Finish(r, false) else r
    case _ => r
  }

  function Deliver(disposed: bool, r: Run, n: nat, matches: bool): Run {
    if r.channel.Open? && Current(disposed, r) && matches && n > r.sequence
    then r.(sequence := n, delivered := r.delivered + [n]) else r
  }

  function Prepared(r: Run, ok: bool): Run {
    if r.prepare.Pending? then r.(prepare := if ok then Ready else Refused) else r
  }

  function Act(disposed: bool, r: Run, a: Action): Run {
    match a
    case RequestCancel => AskCancel(r)
    case RequestRelease => AskRelease(r)
    case PrepareReplies(ok) => Prepared(r, ok)
    case CancelFires => FireCancel(r)
    case CancelReplies(ok) => r.(cancel := Settle(r.cancel, ok))
    case ReleaseFires => FireRelease(r)
    case ReleaseReplies(ok) => r.(release := Settle(r.release, ok))
    case BodyWakes => Wake(disposed, r)
    case CommandReplies(ok) => if r.phase.AwaitCommand? then Finish(r, ok) else r
    case ProgressArrives(n, matches) => Deliver(disposed, r, n, matches)
  }

  // ----- the scope -----

  datatype Scope = Scope(disposed: bool, runs: seq<Run>)

  datatype Step = Start | Dispose | On(id: nat, action: Action)

  ghost predicate Fresh(r: Run) {
    && r.prepare.Pending? && !r.cancelRequested && !r.releaseRequested
    && r.cancel.Unlinked? && r.release.Unlinked? && r.phase.AwaitPrepare? && r.channel.NoChannel?
    && r.sequence == 0 && r.log == [] && r.delivered == []
  }

  function Created(): (r: Run)
    ensures Fresh(r)
  {
    Run(Pending, false, false, Unlinked, Unlinked, AwaitPrepare, NoChannel, 0, [], [])
  }

  /** Disposal asks every unfinished run for its release. */
  function Abandon(r: Run): Run { if r.phase.Finished? then r else AskRelease(r) }

  function Apply(s: Scope, step: Step): Scope {
    match step
    case Start => if s.disposed then s else s.(runs := s.runs + [Created()])
    case Dispose =>
      if s.disposed then s else Scope(true, seq(|s.runs|, i requires 0 <= i < |s.runs| => Abandon(s.runs[i])))
    case On(id, action) =>
      if id < |s.runs| then s.(runs := s.runs[id := Act(s.disposed, s.runs[id], action)]) else s
  }

  function Play(steps: seq<Step>): Scope {
    if steps == [] then Scope(false, []) else Apply(Play(steps[..|steps| - 1]), steps[|steps| - 1])
  }

  // ----- what holds of every run in every reachable scope -----

  function Count(log: seq<Event>, e: Event): nat {
    if log == [] then 0 else Count(log[..|log| - 1], e) + if log[|log| - 1] == e then 1 else 0
  }

  lemma CountAppend(log: seq<Event>, e: Event)
    ensures Count(log + [e], e) == Count(log, e) + 1
    ensures forall f :: f != e ==> Count(log + [e], f) == Count(log, f)
  {
    assert (log + [e])[..|log|] == log;
  }

  predicate Increasing(ns: seq<nat>) {
    forall i, j :: 0 <= i < j < |ns| ==> ns[i] < ns[j]
  }

  /** How often a chained call is on the log, by the state of its link. */
  predicate SentAsLinked(count: nat, l: Link, prepare: Prepare) {
    match l
    case Unlinked => count == 0
    case Waiting => count == 0
    case Sent => count == 1 && prepare.Ready?
    case Acked => count == 1 && prepare.Ready?
    case Failed => !prepare.Pending? && count == (if prepare.Ready? then 1 else 0)
  }

  ghost predicate Consistent(disposed: bool, r: Run) {
    && SentAsLinked(Count(r.log, CancelSent), r.cancel, r.prepare)
    && SentAsLinked(Count(r.log, ReleaseSent), r.release, r.prepare)
    && Count(r.log, CommandSent) == (if r.channel.NoChannel? then 0 else 1)
    && Count(r.log, Unregistered) == (if r.channel.Closed? then 1 else 0)
    && (r.cancel.Unlinked? <==> !r.cancelRequested)
    && (r.releaseRequested ==> !r.release.Unlinked?)
    && Placed(disposed, r)
    && Increasing(r.delivered)
    && (forall i :: 0 <= i < |r.delivered| ==> 0 < r.delivered[i] <= r.sequence)
    && r.sequence == (if r.delivered == [] then 0 else r.delivered[|r.delivered| - 1])
  }

  /** Where the body can be. */
  predicate Placed(disposed: bool, r: Run) {
    && (disposed && !r.phase.Finished? ==> r.releaseRequested)
    && (r.channel.Open? ==> r.phase.AwaitCommand? && !r.releaseRequested)
    && match r.phase
       case AwaitPrepare => r.channel.NoChannel? && Asked(r)
       case AwaitCancel => r.channel.NoChannel? && r.prepare.Ready? && r.cancelRequested && Asked(r)
       case AwaitRelease => r.channel.NoChannel? && r.prepare.Ready? && r.releaseRequested
       case AwaitCommand => !r.channel.NoChannel? && r.prepare.Ready? && Asked(r)
       case Finished(true) => r.channel.Closed? && r.prepare.Ready? && Asked(r)
       case Finished(false) => !r.prepare.Pending? && !r.release.Unlinked?
  }

  /** A release is chained only when someone asked for it. */
  predicate Asked(r: Run) { r.release.Unlinked? || r.releaseRequested }

  lemma ActKeeps(disposed: bool, r: Run, a: Action)
    requires Consistent(disposed, r)
    ensures Consistent(disposed, Act(disposed, r, a))
  {
    match a
    case RequestCancel => AskCancelKeeps(disposed, r);
    case RequestRelease => ReleaseKeeps(disposed, r);
    case PrepareReplies(ok) => PreparedKeeps(disposed, r, ok);
    case CancelFires => CancelFireKeeps(disposed, r);
    case CancelReplies(ok) => SettleKeeps(disposed, r, ok);
    case ReleaseFires => ReleaseFireKeeps(disposed, r);
    case ReleaseReplies(ok) => SettleKeeps(disposed, r, ok);
    case BodyWakes => WakeKeeps(disposed, r);
    case CommandReplies(ok) => if r.phase.AwaitCommand? { FinishKeeps(disposed, r, ok); }
    case ProgressArrives(n, matches) => DeliverKeeps(disposed, r, n, matches);
  }

  lemma AskCancelKeeps(disposed: bool, r: Run)
    requires Consistent(disposed, r)
    ensures Consistent(disposed, AskCancel(r))
  {
  }

  lemma PreparedKeeps(disposed: bool, r: Run, ok: bool)
    requires Consistent(disposed, r)
    ensures Consistent(disposed, Prepared(r, ok))
  {
  }

  lemma SettleKeeps(disposed: bool, r: Run, ok: bool)
    requires Consistent(disposed, r)
    ensures Consistent(disposed, r.(cancel := Settle(r.cancel, ok)))
    ensures Consistent(disposed, r.(release := Settle(r.release, ok)))
  {
  }

  lemma DeliverKeeps(disposed: bool, r: Run, n: nat, matches: bool)
    requires Consistent(disposed, r)
    ensures Consistent(disposed, Deliver(disposed, r, n, matches))
  {
  }

  lemma CancelFireKeeps(disposed: bool, r: Run)
    requires Consistent(disposed, r)
    ensures Consistent(disposed, FireCancel(r))
  {
    CountAppend(r.log, CancelSent);
  }

  lemma ReleaseFireKeeps(disposed: bool, r: Run)
    requires Consistent(disposed, r)
    ensures Consistent(disposed, FireRelease(r))
  {
    CountAppend(r.log, ReleaseSent);
  }

  lemma ReleaseKeeps(disposed: bool, r: Run)
    requires Consistent(disposed, r)
    ensures Consistent(disposed, AskRelease(r)) && Consistent(true, AskRelease(r))
    ensures r.channel.NoChannel? ==> AskRelease(r).log == r.log && AskRelease(r).channel.NoChannel?
  {
    CountAppend(r.log, Unregistered);
  }

  lemma FinishKeeps(disposed: bool, r: Run, success: bool)
    requires Consistent(disposed, r) && !r.phase.Finished? && !r.prepare.Pending?
    requires success ==> r.phase.AwaitCommand?
    ensures Consistent(disposed, Finish(r, success))
  {
    CountAppend(r.log, Unregistered);
  }

  lemma ProceedKeeps(disposed: bool, r: Run)
    requires Consistent(disposed, r) && r.prepare.Ready? && (r.phase.AwaitPrepare? || r.phase.AwaitCancel?)
    ensures Consistent(disposed, Proceed(disposed, r))
  {
    CountAppend(r.log, CommandSent);
    ReleaseKeeps(disposed, r);
  }

  lemma WakeKeeps(disposed: bool, r: Run)
    requires Consistent(disposed, r)
    ensures Consistent(disposed, Wake(disposed, r))
  {
    match r.phase
    case AwaitPrepare =>
      if r.prepare.Refused? { FinishKeeps(disposed, r, false); }
      else if r.prepare.Ready? { ProceedKeeps(disposed, r); }
    case AwaitCancel =>
      if r.cancel.Acked? { ProceedKeeps(disposed, r); }
      else if r.cancel.Failed? { FinishKeeps(disposed, r, false); }
    case AwaitRelease => FinishKeeps(disposed, r, false);
    case _ =>
  }

  ghost predicate AllConsistent(s: Scope) {
    forall i :: 0 <= i < |s.runs| ==> Consistent(s.disposed, s.runs[i])
  }

  lemma ApplyKeeps(s: Scope, step: Step)
    requires AllConsistent(s)
    ensures AllConsistent(Apply(s, step))
  {
    match step
    case Start =>
    case Dispose =>
      if !s.disposed {
        forall i | 0 <= i < |s.runs| ensures Consistent(true, Abandon(s.runs[i])) {
            ReleaseKeeps(s.disposed, s.runs[i]); }
      }
    case On(id, action) => if id < |s.runs| { ActKeeps(s.disposed, s.runs[id], action); }
  }

  /** Every reachable scope is consistent. */
  lemma {:induction false} Reachable(steps: seq<Step>)
    ensures AllConsistent(Play(steps))
  {
    if steps == [] {
    } else {
      Reachable(steps[..|steps| - 1]);
      ApplyKeeps(Play(steps[..|steps| - 1]), steps[|steps| - 1]);
    }
  }

  // ----- the promises -----

  /** Each native call is made at most once, and a finished run has unregistered exactly the channels it opened. */
  lemma EachCallOnce(steps: seq<Step>, id: nat)
    requires id < |Play(steps).runs|
    ensures var log := Play(steps).runs[id].log;
      && Count(log, CommandSent) <= 1 && Count(log, CancelSent) <= 1 && Count(log, ReleaseSent) <= 1
      && Count(log, Unregistered) <= Count(log, CommandSent)
    ensures var r := Play(steps).runs[id];
      r.phase.Finished? || r.releaseRequested ==> Count(r.log, Unregistered) == Count(r.log, CommandSent)
  {
    Reachable(steps);
  }

  /** No microtask of the run is waiting to be taken. */
  predicate Quiet(r: Run) { FireCancel(r) == r && FireRelease(r) == r }

  /**
   A run that ends without a delivered success gives its reservation back, once; one that succeeds gives it back
   only if somebody asked.
   */
  lemma ReleasedUnlessDelivered(steps: seq<Step>, id: nat)
    requires id < |Play(steps).runs| && Play(steps).runs[id].phase.Finished?
    requires Play(steps).runs[id].prepare.Ready? && Quiet(Play(steps).runs[id])
    ensures var r := Play(steps).runs[id];
      Count(r.log, ReleaseSent) == if r.phase.success && !r.releaseRequested then 0 else 1
  {
    Reachable(steps);
  }

  /**
   The command goes out only after a granted reservation, while the run is current, and after the acknowledgement of
   every cancellation asked for before.
   */
  lemma CommandAllowed(steps: seq<Step>, step: Step, id: nat)
    requires id < |Play(steps).runs|
    requires Count(Apply(Play(steps), step).runs[id].log, CommandSent) > Count(Play(steps).runs[id].log, CommandSent)
    ensures var s := Play(steps); var r := s.runs[id];
      && r.prepare.Ready? && Current(s.disposed, r) && (r.cancelRequested ==> r.cancel.Acked?)
      && Count(r.log, CommandSent) == 0
  {
    Reachable(steps);
    ApplyKeeps(Play(steps), step);
    var s := Play(steps);
    if step.On? && step.id == id { Opening(s.disposed, s.runs[id], step.action); }
  }

  /** The channel is created where the command is sent, and nowhere else. */
  lemma Opening(disposed: bool, r: Run, a: Action)
    requires Consistent(disposed, r) && r.channel.NoChannel? && !Act(disposed, r, a).channel.NoChannel?
    ensures r.prepare.Ready? && Current(disposed, r) && (r.cancelRequested ==> r.cancel.Acked?)
  {
  }

  // ----- nothing happens for a run that is no longer current -----

  lemma StaleStep(s: Scope, step: Step, id: nat)
    requires id < |s.runs| && AllConsistent(s) && !Current(s.disposed, s.runs[id])
    ensures var t := Apply(s, step);
      && id < |t.runs| && !Current(t.disposed, t.runs[id])
      && Count(t.runs[id].log, CommandSent) == Count(s.runs[id].log, CommandSent)
      && t.runs[id].delivered == s.runs[id].delivered
  {
    ApplyKeeps(s, step);
    if step.On? && step.id == id { StaleAct(s.disposed, s.runs[id], step.action); }
  }

  lemma StaleAct(disposed: bool, r: Run, a: Action)
    requires Consistent(disposed, r) && !Current(disposed, r)
    ensures var t := Act(disposed, r, a);
      !Current(disposed, t) && t.channel.NoChannel? == r.channel.NoChannel? && t.delivered == r.delivered
  {
  }

  /** Once a scope is disposed or a run released, that run never calls its command and never delivers progress again. */
  lemma {:induction false} StaleForever(steps: seq<Step>, more: seq<Step>, id: nat)
    requires id < |Play(steps).runs| && !Current(Play(steps).disposed, Play(steps).runs[id])
    ensures id < |Play(steps + more).runs| && !Current(Play(steps + more).disposed, Play(steps + more).runs[id])
    ensures var before := Play(steps).runs[id]; var after := Play(steps + more).runs[id];
      && Count(after.log, CommandSent) == Count(before.log, CommandSent) && after.delivered == before.delivered
    decreases |more|
  {
    if more == [] {
      assert steps + more == steps;
    } else {
      var last := |more| - 1;
      StaleForever(steps, more[..last], id);
      assert (steps + more)[..|steps + more| - 1] == steps + more[..last];
      Reachable(steps + more[..last]);
      StaleStep(Play(steps + more[..last]), more[last], id);
    }
  }

  /** Progress reaches the caller in strictly increasing order. */
  lemma ProgressOrdered(steps: seq<Step>, id: nat)
    requires id < |Play(steps).runs|
    ensures Increasing(Play(steps).runs[id].delivered)
  {
    Reachable(steps);
  }

  // ----- every run comes to an end -----

  function LinkRank(l: Link): nat {
    match l case Unlinked => 3 case Waiting => 2 case Sent => 1 case _ => 0
  }

  function PhaseRank(p: Phase): nat {
    match p case AwaitPrepare => 3 case AwaitCancel => 2 case Finished(_) => 0 case _ => 1
  }

  /** An upper bound on the effective actions still to come. */
  function Rank(r: Run): nat {
    (if r.prepare.Pending? then 1 else 0) + LinkRank(r.cancel) + LinkRank(r.release) + PhaseRank(r.phase)
    + if r.releaseRequested then 0 else 1
  }

  /** Apart from progress, an action either changes nothing or uses up some of the run's rank. */
  lemma RankDrops(disposed: bool, r: Run, a: Action)
    requires Consistent(disposed, r) && !a.ProgressArrives?
    ensures Act(disposed, r, a) == r || Rank(Act(disposed, r, a)) < Rank(r)
  {
  }

  predicate Progress(step: Step) { step.On? && step.action.ProgressArrives? }

  /** How many of the later steps, progress aside, change the run. */
  ghost function Effective(steps: seq<Step>, more: seq<Step>, id: nat): nat
    requires id < |Play(steps).runs|
    decreases |more|
  {
    if more == [] then 0
    else
      var last := |more| - 1;
      RunsStay(steps, more[..last]);
      var s := Play(steps + more[..last]);
      Effective(steps, more[..last], id)
      + if !Progress(more[last]) && Apply(s, more[last]).runs[id] != s.runs[id] then 1 else 0
  }

  lemma {:induction false} RunsStay(steps: seq<Step>, more: seq<Step>)
    ensures |Play(steps).runs| <= |Play(steps + more).runs|
    decreases |more|
  {
    if more == [] {
      assert steps + more == steps;
    } else {
      RunsStay(steps, more[..|more| - 1]);
      assert (steps + more)[..|steps + more| - 1] == steps + more[..|more| - 1];
    }
  }

  /** However long the schedule, only a bounded number of steps can still change a run. */
  lemma {:induction false} BoundedEffort(steps: seq<Step>, more: seq<Step>, id: nat)
    requires id < |Play(steps).runs|
    ensures Effective(steps, more, id) <= Rank(Play(steps).runs[id]) <= 11
    ensures id < |Play(steps + more).runs|
    ensures Effective(steps, more, id) + Rank(Play(steps + more).runs[id]) <= Rank(Play(steps).runs[id])
    decreases |more|
  {
    if more == [] {
      assert steps + more == steps;
    } else {
      var last := |more| - 1;
      BoundedEffort(steps, more[..last], id);
      assert (steps + more)[..|steps + more| - 1] == steps + more[..last];
      Reachable(steps + more[..last]);
      StepRank(Play(steps + more[..last]), more[last], id);
    }
  }

  lemma StepRank(s: Scope, step: Step, id: nat)
    requires id < |s.runs| && AllConsistent(s)
    ensures var t := Apply(s, step);
      && id < |t.runs|
      && (t.runs[id] == s.runs[id] || Rank(t.runs[id]) < Rank(s.runs[id])
          || (Progress(step) && Rank(t.runs[id]) == Rank(s.runs[id])))
  {
    if step.On? && step.id == id && !Progress(step) { RankDrops(s.disposed, s.runs[id], step.action); }
  }

  /** A native reply that the run is owed. */
  predicate AwaitsNative(r: Run) {
    r.prepare.Pending? || r.cancel.Sent? || r.release.Sent? || r.phase.AwaitCommand?
  }

  /** An unfinished run that is owed no reply can always take a step of its own. */
  lemma NeverStuck(steps: seq<Step>, id: nat)
    requires id < |Play(steps).runs|
    ensures var s := Play(steps); var r := s.runs[id];
      r.phase.Finished? || AwaitsNative(r) || !Quiet(r) || Wake(s.disposed, r) != r
  {
    Reachable(steps);
  }
}
