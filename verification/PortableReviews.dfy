/**
 The portable review flow: reviews opened by creator operations, consumed by at most one operation at a time, and
 dropped only by cleanups. Every synchronous stretch between two awaits is one step; replies, microtasks and callers
 interleave in any order. A step that is not enabled changes nothing.
 */
module PortableReviews {
  import opened Options

  datatype Kind = Import | Restore | Unopened | Export | Backup

  datatype Grant = Unknown | Granted | Refused

  /**
   `known` is a received preview identifier; `outcomes` records, per ended consumption, whether the review was
   retained.
   */
  datatype Review = Review(
    kind: Kind,
    creator: nat,
    known: bool,
    settled: bool,
    consumer: Option<nat>,
    closing: bool,
    grant: Grant,
    cancelled: bool,
    outcomes: seq<bool>)

  /** `Settling` is the tail of a result: it may wait for a cleanup before the operation leaves the tracked set. */
  datatype Phase = Running | Replied | Settling(waitsFor: Option<Key>) | Done

  datatype Op = Op(review: nat, creates: bool, phase: Phase)

  /** Cleanups started one by one, and the two sweeps of a disposal round. */
  datatype Key = Loose(n: nat) | First(round: nat, review: nat) | Last(round: nat, review: nat)

  datatype Stage = ReleaseConsumer | ReleaseCreator | Identify | Cancel | Succeeded | Rejected

  datatype Cleanup = Cleanup(review: nat, stage: Stage)

  datatype Disposal =
    | Idle
    | Releasing(snapshot: set<nat>)
    | Signalling(snapshot: set<nat>)
    | Awaiting(snapshot: set<nat>)
    | Sweeping
    | Resolved

  datatype State = State(
    reviews: seq<Review>,
    live: set<nat>,
    ops: seq<Op>,
    tracked: set<nat>,
    cleanups: map<Key, Cleanup>,
    round: nat,
    disposed: bool,
    disposal: Disposal)

  datatype Step =
    | Preview(kind: Kind)
    | CreatorReplies(op: nat)
    | CreatorSettles(op: nat, current: bool, n: nat)
    | Consume(review: nat, starts: bool, n: nat)
    | ConsumerSettles(op: nat, claimed: bool, current: bool, n: nat)
    | OperationEnds(op: nat)
    | CleanupStarts(review: nat, n: nat)
    | CleanupAdvances(key: Key, ok: bool)
    | Dispose
    | DisposalAdvances

  // ----- the steps -----

  predicate Prepared(kind: Kind) { kind.Export? || kind.Backup? }

  function Group(reviews: seq<Review>, live: set<nat>, prepared: bool): set<nat> {
    set i | i in live && i < |reviews| && Prepared(reviews[i].kind) == prepared
  }

  function NewReview(kind: Kind, creator: nat): Review {
    Review(kind, creator, false, false, None, false, Unknown, false, [])
  }

  function Opened(s: State, kind: Kind): State {
    if s.disposed || |Group(s.reviews, s.live, Prepared(kind))| >= 3 then s
    else
      s.(reviews := s.reviews + [NewReview(kind, |s.ops|)],
         live := s.live + {|s.reviews|},
         ops := s.ops + [Op(|s.reviews|, true, Running)],
         tracked := s.tracked + {|s.ops|})
  }

  /** The synchronous start of a cleanup. */
  function Begin(s: State, i: nat, n: nat): State
    requires i < |s.reviews|
  {
    s.(reviews := s.reviews[i := s.reviews[i].(closing := true)],
       cleanups := s.cleanups[Loose(n) := Cleanup(i, ReleaseConsumer)])
  }

  function WithReview(s: State, i: nat, r: Review): State
    requires i < |s.reviews|
  {
    s.(reviews := s.reviews[i := r])
  }

  function WithPhase(s: State, o: nat, p: Phase): State
    requires o < |s.ops|
  {
    s.(ops := s.ops[o := s.ops[o].(phase := p)])
  }

  function Learned(s: State, o: nat): State {
    if o < |s.ops| && s.ops[o].creates && s.ops[o].phase.Running? && s.ops[o].review < |s.reviews| then
      var i := s.ops[o].review;
      WithPhase(WithReview(s, i, s.reviews[i].(known := true)), o, Replied)
    else s
  }

  /** The tail of a result: a cleanup when it is due, then the operation may leave. */
  function Tail(s: State, o: nat, i: nat, due: bool, n: nat): State
    requires o < |s.ops| && i < |s.reviews|
  {
    if due then WithPhase(Begin(s, i, n), o, Settling(Some(Loose(n)))) else WithPhase(s, o, Settling(None))
  }

  predicate Pending(s: State, o: nat, creates: bool, n: nat) {
    && o < |s.ops| && s.ops[o].review < |s.reviews| && s.ops[o].creates == creates
    && (s.ops[o].phase.Running? || s.ops[o].phase.Replied?) && Loose(n) !in s.cleanups
  }

  function Settled(s: State, o: nat, current: bool, n: nat): State {
    if Pending(s, o, true, n) then
      var i := s.ops[o].review;
      var r := s.reviews[i].(settled := true);
      Tail(WithReview(s, i, r), o, i, !r.known || r.closing || s.disposed || !current, n)
    else s
  }

  predicate Available(s: State, i: nat) {
    && !s.disposed && i in s.live && i < |s.reviews|
    && var r := s.reviews[i]; r.known && r.settled && r.consumer.None? && !r.closing
  }

  function Consumed(s: State, i: nat, starts: bool, n: nat): State {
    if !Available(s, i) || Loose(n) in s.cleanups then s
    else if !starts then Begin(s, i, n)
    else
      WithReview(s, i, s.reviews[i].(consumer := Some(|s.ops|)))
      .(ops := s.ops + [Op(i, false, Running)], tracked := s.tracked + {|s.ops|})
  }

  /** Only a restore whose safety backup failed may keep its review. */
  function Concluded(s: State, o: nat, claimed: bool, current: bool, n: nat): State {
    if Pending(s, o, false, n) then
      var i := s.ops[o].review;
      var retained := s.reviews[i].kind.Restore? && claimed;
      var r := s.reviews[i].(consumer := None, outcomes := s.reviews[i].outcomes + [retained]);
      Tail(WithReview(s, i, r), o, i, !retained || r.closing || s.disposed || !current, n)
    else s
  }

  predicate Over(s: State, k: Key) {
    k in s.cleanups && (s.cleanups[k].stage.Succeeded? || s.cleanups[k].stage.Rejected?)
  }

  function Ended(s: State, o: nat): State {
    if o < |s.ops| && s.ops[o].phase.Settling?
       && (s.ops[o].phase.waitsFor.None? || Over(s, s.ops[o].phase.waitsFor.value))
    then WithPhase(s, o, Done).(tracked := s.tracked - {o})
    else s
  }

  function Started(s: State, i: nat, n: nat): State {
    if i < |s.reviews| && Loose(n) !in s.cleanups then Begin(s, i, n) else s
  }

  function Stepped(s: State, k: Key, stage: Stage): State
    requires k in s.cleanups
  {
    s.(cleanups := s.cleanups[k := s.cleanups[k].(stage := stage)])
  }

  /** The end of a cleanup drops the review unless it is still in use. */
  function Drop(s: State, i: nat): State
    requires i < |s.reviews|
  {
    if s.reviews[i].settled && s.reviews[i].consumer.None? then s.(live := s.live - {i}) else s
  }

  function Identified(s: State, k: Key, ok: bool): State
    requires k in s.cleanups && s.cleanups[k].review < |s.reviews|
  {
    var i := s.cleanups[k].review;
    var r := s.reviews[i];
    if r.grant.Granted? || (r.grant.Unknown? && ok) then Stepped(WithReview(s, i, r.(grant := Granted)), k, Cancel)
    else Drop(Stepped(WithReview(s, i, r.(grant := Refused)), k, Succeeded), i)
  }

  function Advanced(s: State, k: Key, ok: bool): State {
    if k !in s.cleanups || s.cleanups[k].review >= |s.reviews| then s
    else
      match s.cleanups[k].stage
      case ReleaseConsumer => Stepped(s, k, ReleaseCreator)
      case ReleaseCreator => Stepped(s, k, Identify)
      case Identify => Identified(s, k, ok)
      case Cancel =>
        var i := s.cleanups[k].review;
        if ok then Drop(Stepped(WithReview(s, i, s.reviews[i].(cancelled := true)), k, Succeeded), i)
        else Stepped(s, k, Rejected)
      case _ => s
  }

  function Close(s: State): seq<Review> {
    seq(|s.reviews|, i requires 0 <= i < |s.reviews| =>
      if i in s.live then s.reviews[i].(closing := true) else s.reviews[i])
  }

  function Batch(keys: set<Key>): map<Key, Cleanup>
    requires forall k | k in keys :: !k.Loose?
  {
    map k | k in keys :: Cleanup(k.review, ReleaseConsumer)
  }

  /** A cleanup of every review in the set. */
  function Sweep(s: State, batch: map<Key, Cleanup>, next: Disposal): State {
    s.(reviews := Close(s), cleanups := s.cleanups + batch, disposal := next)
  }

  function Disposing(s: State): State {
    s.(disposed := true,
       disposal := if s.disposal.Idle? then Releasing(s.tracked) else s.disposal,
       round := if s.disposal.Idle? then s.round + 1 else s.round)
  }

  /**
   The next stage of a disposal, when what it waits for is there; a rejected sweep leaves it to be asked for again.
   */
  function Disposed(s: State): State {
    match s.disposal
    case Releasing(snapshot) =>
      Sweep(s, Batch(set i | i in s.live :: First(s.round, i)), Signalling(snapshot))
    case Signalling(snapshot) =>
      if forall k | k in s.cleanups.Keys && k.First? && k.round == s.round :: Over(s, k)
      then s.(disposal := Awaiting(snapshot)) else s
    case Awaiting(snapshot) =>
      if forall o | o in snapshot && o < |s.ops| :: s.ops[o].phase.Done? then
        Sweep(s, Batch(set i | i in s.live :: Last(s.round, i)), Sweeping)
      else s
    case Sweeping =>
      if exists k | k in s.cleanups.Keys && k.Last? && k.round == s.round :: s.cleanups[k].stage.Rejected?
      then s.(disposal := Idle)
      else if forall k | k in s.cleanups.Keys && k.Last? && k.round == s.round :: s.cleanups[k].stage.Succeeded?
      then s.(disposal := Resolved)
      else s
    case _ => s
  }

  function Apply(s: State, step: Step): State {
    match step
    case Preview(kind) => Opened(s, kind)
    case CreatorReplies(o) => Learned(s, o)
    case CreatorSettles(o, current, n) => Settled(s, o, current, n)
    case Consume(i, starts, n) => Consumed(s, i, starts, n)
    case ConsumerSettles(o, claimed, current, n) => Concluded(s, o, claimed, current, n)
    case OperationEnds(o) => Ended(s, o)
    case CleanupStarts(i, n) => Started(s, i, n)
    case CleanupAdvances(k, ok) => Advanced(s, k, ok)
    case Dispose => Disposing(s)
    case DisposalAdvances => Disposed(s)
  }

  function Play(steps: seq<Step>): State {
    if steps == [] then State([], {}, [], {}, map[], 0, false, Idle)
    else Apply(Play(steps[..|steps| - 1]), steps[|steps| - 1])
  }

  // ----- what holds in every reachable state -----

  predicate Active(p: Phase) { p.Running? || p.Replied? }

  predicate Creator(ops: seq<Op>, i: nat, r: Review) {
    r.creator < |ops| &&
    var o := ops[r.creator]; o.creates && o.review == i && (r.settled <==> !Active(o.phase))
  }

  predicate Consumer(ops: seq<Op>, i: nat, r: Review) {
    r.consumer.Some? ==>
      && r.consumer.value < |ops|
      && var o := ops[r.consumer.value]; !o.creates && o.review == i && Active(o.phase)
  }

  predicate Claimed(reviews: seq<Review>, o: nat, op: Op) {
    op.review < |reviews| &&
    var r := reviews[op.review];
    if op.creates then r.creator == o else Active(op.phase) ==> r.consumer == Some(o)
  }

  /** A review is unsettled exactly while its creator is active, and consumed exactly while its consumer is. */
  ghost predicate Tracking(reviews: seq<Review>, ops: seq<Op>, tracked: set<nat>) {
    && (forall o: nat :: o in tracked <==> o < |ops| && !ops[o].phase.Done?)
    && (forall i: nat | i < |reviews| :: Creator(ops, i, reviews[i]) && Consumer(ops, i, reviews[i]))
    && (forall o: nat | o < |ops| :: Claimed(reviews, o, ops[o]))
  }

  /**
   Only a settled review is consumed. Every consumption but the last one kept the review; after one that did not, and
   after a creator that gave no preview, the review is closing.
   */
  predicate Lived(r: Review) {
    && (r.settled && !r.known ==> r.closing)
    && (r.consumer.Some? ==> r.settled && r.known)
    && (forall j | 0 <= j < |r.outcomes| :: r.outcomes[j] ==> r.kind.Restore?)
    && (forall j | 0 <= j < |r.outcomes| - 1 :: r.outcomes[j])
    && (r.outcomes != [] && !r.outcomes[|r.outcomes| - 1] ==> r.closing && r.consumer.None?)
  }

  /** What a review must have gone through before it was dropped. */
  predicate Dropped(r: Review) {
    r.settled && r.consumer.None? && r.closing && (r.cancelled || r.grant.Refused?)
  }

  predicate Kept(reviews: seq<Review>, live: set<nat>, cleanups: map<Key, Cleanup>) {
    && (forall i | i in live :: i < |reviews|)
    && (forall i: nat | i < |reviews| :: Lived(reviews[i]) && (i in live || Dropped(reviews[i])))
    && (forall k | k in cleanups :: cleanups[k].review < |reviews| && reviews[cleanups[k].review].closing)
  }

  predicate Bounded(reviews: seq<Review>, live: set<nat>) {
    forall p: bool :: |Group(reviews, live, p)| <= 3
  }

  predicate Ending(s: State) {
    && (!s.disposal.Idle? ==> s.disposed)
    && (forall k | k in s.cleanups :: !k.Loose? ==> s.cleanups[k].review == k.review)
    && match s.disposal
       case Idle => true
       case Resolved => s.tracked == {} && s.live == {}
       case Sweeping =>
         && s.tracked == {}
         && (forall i | i in s.live :: Last(s.round, i) in s.cleanups && !s.cleanups[Last(s.round, i)].stage.Succeeded?)
       case _ => s.tracked <= s.disposal.snapshot
  }

  ghost predicate Inv(s: State) {
    && Tracking(s.reviews, s.ops, s.tracked)
    && Kept(s.reviews, s.live, s.cleanups)
    && Bounded(s.reviews, s.live)
    && Ending(s)
  }

  // ----- one component at a time -----

  /** No group grows when no review is added. */
  lemma GroupsShrink(reviews: seq<Review>, live: set<nat>, reviews': seq<Review>, live': set<nat>)
    requires Bounded(reviews, live) && live' <= live && |reviews| == |reviews'|
    requires forall i | 0 <= i < |reviews| :: reviews'[i].kind == reviews[i].kind
    ensures Bounded(reviews', live')
  {
    forall p: bool ensures |Group(reviews', live', p)| <= 3 {
      var big, small := Group(reviews, live, p), Group(reviews', live', p);
      assert small <= big;
      assert small + (big - small) == big;
    }
  }

  lemma GroupGrows(reviews: seq<Review>, live: set<nat>, r: Review)
    requires Bounded(reviews, live) && |Group(reviews, live, Prepared(r.kind))| < 3
    requires forall i | i in live :: i < |reviews|
    ensures Bounded(reviews + [r], live + {|reviews|})
  {
    forall p: bool ensures |Group(reviews + [r], live + {|reviews|}, p)| <= 3 {
      GroupAfter(reviews, live, r, p);
      if p == Prepared(r.kind) {
        assert |Group(reviews, live, p) + {|reviews|}| <= |Group(reviews, live, p)| + 1;
      }
    }
  }

  lemma GroupAfter(reviews: seq<Review>, live: set<nat>, r: Review, p: bool)
    requires forall i | i in live :: i < |reviews|
    ensures Group(reviews + [r], live + {|reviews|}, p) ==
            if p == Prepared(r.kind) then Group(reviews, live, p) + {|reviews|} else Group(reviews, live, p)
  {
    assert (reviews + [r])[|reviews|] == r;
    assert forall i | i in live :: (reviews + [r])[i] == reviews[i];
  }

  /** A change that leaves the review's role alone and only adds to what cleanups record. */
  predicate Touched(r: Review, r': Review) {
    && r'.kind == r.kind && r'.creator == r.creator && r'.consumer == r.consumer
    && r'.settled == r.settled && r'.outcomes == r.outcomes && (r.known ==> r'.known)
    && (r.closing ==> r'.closing) && (r.cancelled ==> r'.cancelled) && (r.grant.Refused? ==> r'.grant.Refused?)
  }

  lemma TouchKeeps(s: State, i: nat, r: Review)
    requires Inv(s) && i < |s.reviews| && Touched(s.reviews[i], r)
    ensures Inv(WithReview(s, i, r))
  {
    GroupsShrink(s.reviews, s.live, s.reviews[i := r], s.live);
    assert Lived(r);
    assert Kept(s.reviews[i := r], s.live, s.cleanups);
    TouchTracking(s.reviews, s.ops, s.tracked, i, r);
  }

  lemma TouchTracking(reviews: seq<Review>, ops: seq<Op>, tracked: set<nat>, i: nat, r: Review)
    requires Tracking(reviews, ops, tracked) && i < |reviews| && Touched(reviews[i], r)
    ensures Tracking(reviews[i := r], ops, tracked)
  {
  }

  lemma BeginKeeps(s: State, i: nat, n: nat)
    requires Inv(s) && i < |s.reviews| && Loose(n) !in s.cleanups
    ensures Inv(Begin(s, i, n))
  {
    var r := s.reviews[i].(closing := true);
    TouchKeeps(s, i, r);
  }

  lemma DropKeeps(s: State, i: nat)
    requires Inv(s) && i < |s.reviews| && s.reviews[i].closing
    requires s.reviews[i].cancelled || s.reviews[i].grant.Refused?
    ensures Inv(Drop(s, i))
  {
    GroupsShrink(s.reviews, s.live, s.reviews, s.live - {i});
  }

  /** A cleanup may count as done once its review is gone, or before the last sweep. */
  lemma SteppedKeeps(s: State, k: Key, stage: Stage)
    requires Inv(s) && k in s.cleanups
    requires stage.Succeeded? && s.disposal.Sweeping? ==> s.cleanups[k].review !in s.live
    ensures Inv(Stepped(s, k, stage))
  {
  }

  // ----- one step at a time -----

  lemma OpenedKeeps(s: State, kind: Kind)
    requires Inv(s)
    ensures Inv(Opened(s, kind))
  {
    var t := Opened(s, kind);
    if t != s {
      var r := NewReview(kind, |s.ops|);
      GroupGrows(s.reviews, s.live, r);
      OpenTracking(s.reviews, s.ops, s.tracked, r);
    }
  }

  lemma OpenTracking(reviews: seq<Review>, ops: seq<Op>, tracked: set<nat>, r: Review)
    requires Tracking(reviews, ops, tracked) && r.creator == |ops| && !r.settled && r.consumer.None?
    ensures Tracking(reviews + [r], ops + [Op(|reviews|, true, Running)], tracked + {|ops|})
  {
  }

  lemma PhaseKeeps(s: State, o: nat, p: Phase)
    requires Inv(s) && o < |s.ops| && Active(s.ops[o].phase) && Active(p)
    ensures Inv(WithPhase(s, o, p))
  {
  }

  lemma LearnedKeeps(s: State, o: nat)
    requires Inv(s)
    ensures Inv(Learned(s, o))
  {
    if Learned(s, o) != s {
      var i := s.ops[o].review;
      TouchKeeps(s, i, s.reviews[i].(known := true));
      PhaseKeeps(WithReview(s, i, s.reviews[i].(known := true)), o, Replied);
    }
  }

  lemma SettleKeeps(s: State, o: nat, w: Option<Key>)
    requires Inv(s) && o < |s.ops| && s.ops[o].creates && Active(s.ops[o].phase) && s.ops[o].review < |s.reviews|
    requires var r := s.reviews[s.ops[o].review]; r.known || r.closing
    ensures var i := s.ops[o].review;
      Inv(WithPhase(WithReview(s, i, s.reviews[i].(settled := true)), o, Settling(w)))
  {
    var i := s.ops[o].review;
    var r := s.reviews[i].(settled := true);
    GroupsShrink(s.reviews, s.live, s.reviews[i := r], s.live);
    assert Lived(r);
    assert Kept(s.reviews[i := r], s.live, s.cleanups);
    SettleTracking(s.reviews, s.ops, s.tracked, o, Settling(w));
  }

  lemma SettleTracking(reviews: seq<Review>, ops: seq<Op>, tracked: set<nat>, o: nat, p: Phase)
    requires Tracking(reviews, ops, tracked) && o < |ops| && ops[o].creates && Active(ops[o].phase) && p.Settling?
    ensures ops[o].review < |reviews|
    ensures var i := ops[o].review;
      Tracking(reviews[i := reviews[i].(settled := true)], ops[o := ops[o].(phase := p)], tracked)
  {
  }

  lemma SettledKeeps(s: State, o: nat, current: bool, n: nat)
    requires Inv(s)
    ensures Inv(Settled(s, o, current, n))
  {
    if Pending(s, o, true, n) {
      var i := s.ops[o].review;
      if !s.reviews[i].known || s.reviews[i].closing || s.disposed || !current {
        SettledClosing(s, o, n);
      } else {
        SettleKeeps(s, o, None);
      }
    }
  }

  lemma SettledClosing(s: State, o: nat, n: nat)
    requires Inv(s) && Pending(s, o, true, n)
    ensures var i := s.ops[o].review; Inv(Tail(WithReview(s, i, s.reviews[i].(settled := true)), o, i, true, n))
  {
    var i := s.ops[o].review;
    var r := s.reviews[i].(settled := true);
    var b := Begin(s, i, n);
    BeginKeeps(s, i, n);
    SettleKeeps(b, o, Some(Loose(n)));
    assert b.reviews[i := b.reviews[i].(settled := true)] == s.reviews[i := r][i := r.(closing := true)];
    assert WithPhase(WithReview(b, i, b.reviews[i].(settled := true)), o, Settling(Some(Loose(n))))
        == Tail(WithReview(s, i, r), o, i, true, n);
  }

  lemma ConsumedKeeps(s: State, i: nat, starts: bool, n: nat)
    requires Inv(s)
    ensures Inv(Consumed(s, i, starts, n))
  {
    if Available(s, i) && Loose(n) !in s.cleanups {
      if starts {
        var r := s.reviews[i].(consumer := Some(|s.ops|));
        GroupsShrink(s.reviews, s.live, s.reviews[i := r], s.live);
        assert Lived(r);
        assert Kept(s.reviews[i := r], s.live, s.cleanups);
        ConsumeTracking(s.reviews, s.ops, s.tracked, i);
      } else {
        BeginKeeps(s, i, n);
      }
    }
  }

  lemma ConsumeTracking(reviews: seq<Review>, ops: seq<Op>, tracked: set<nat>, i: nat)
    requires Tracking(reviews, ops, tracked) && i < |reviews| && reviews[i].consumer.None?
    ensures Tracking(reviews[i := reviews[i].(consumer := Some(|ops|))], ops + [Op(i, false, Running)], tracked +
        {|ops|})
  {
  }

  function Outcome(r: Review, retained: bool): Review {
    r.(consumer := None, outcomes := r.outcomes + [retained])
  }

  lemma ConcludeKeeps(s: State, o: nat, retained: bool, w: Option<Key>)
    requires Inv(s) && o < |s.ops| && !s.ops[o].creates && Active(s.ops[o].phase)
    requires s.ops[o].review < |s.reviews|
    requires var r := s.reviews[s.ops[o].review]; if retained then r.kind.Restore? else r.closing
    ensures var i := s.ops[o].review; Inv(WithPhase(WithReview(s, i, Outcome(s.reviews[i], retained)), o, Settling(w)))
  {
    var i := s.ops[o].review;
    var r := Outcome(s.reviews[i], retained);
    GroupsShrink(s.reviews, s.live, s.reviews[i := r], s.live);
    assert s.reviews[i].consumer == Some(o);
    assert Lived(s.reviews[i]);
    assert Lived(r);
    assert Kept(s.reviews[i := r], s.live, s.cleanups);
    ConcludeTracking(s.reviews, s.ops, s.tracked, o, retained, Settling(w));
  }

  lemma ConcludeTracking(reviews: seq<Review>, ops: seq<Op>, tracked: set<nat>, o: nat, retained: bool, p: Phase)
    requires Tracking(reviews, ops, tracked) && o < |ops| && !ops[o].creates && Active(ops[o].phase) && p.Settling?
    ensures ops[o].review < |reviews|
    ensures var i := ops[o].review;
      Tracking(reviews[i := Outcome(reviews[i], retained)], ops[o := ops[o].(phase := p)], tracked)
  {
  }

  lemma ConcludedKeeps(s: State, o: nat, claimed: bool, current: bool, n: nat)
    requires Inv(s)
    ensures Inv(Concluded(s, o, claimed, current, n))
  {
    if Pending(s, o, false, n) {
      var i := s.ops[o].review;
      var retained := s.reviews[i].kind.Restore? && claimed;
      if !retained || s.reviews[i].closing || s.disposed || !current {
        ConcludedClosing(s, o, retained, n);
      } else {
        ConcludeKeeps(s, o, retained, None);
      }
    }
  }

  lemma ConcludedClosing(s: State, o: nat, retained: bool, n: nat)
    requires Inv(s) && Pending(s, o, false, n) && (retained ==> s.reviews[s.ops[o].review].kind.Restore?)
    ensures var i := s.ops[o].review; Inv(Tail(WithReview(s, i, Outcome(s.reviews[i], retained)), o, i, true, n))
  {
    var i := s.ops[o].review;
    var r := Outcome(s.reviews[i], retained);
    var b := Begin(s, i, n);
    BeginKeeps(s, i, n);
    ConcludeKeeps(b, o, retained, Some(Loose(n)));
    assert b.reviews[i := Outcome(b.reviews[i], retained)] == s.reviews[i := r][i := r.(closing := true)];
    assert WithPhase(WithReview(b, i, Outcome(b.reviews[i], retained)), o, Settling(Some(Loose(n))))
        == Tail(WithReview(s, i, r), o, i, true, n);
  }

  lemma EndedKeeps(s: State, o: nat)
    requires Inv(s)
    ensures Inv(Ended(s, o))
  {
    if Ended(s, o) != s { EndTracking(s.reviews, s.ops, s.tracked, o); }
  }

  lemma EndTracking(reviews: seq<Review>, ops: seq<Op>, tracked: set<nat>, o: nat)
    requires Tracking(reviews, ops, tracked) && o < |ops| && ops[o].phase.Settling?
    ensures Tracking(reviews, ops[o := ops[o].(phase := Done)], tracked - {o})
  {
  }

  /** With no operation left, a cleanup that comes to its end drops its review. */
  lemma NothingTracked(s: State, i: nat)
    requires Inv(s) && i < |s.reviews| && s.tracked == {}
    ensures s.reviews[i].settled && s.reviews[i].consumer.None?
  {
    assert forall o: nat | o < |s.ops| :: o !in s.tracked ==> s.ops[o].phase.Done?;
    assert Creator(s.ops, i, s.reviews[i]) && Consumer(s.ops, i, s.reviews[i]);
  }

  lemma DoneKeeps(s: State, k: Key, r: Review)
    requires Inv(s) && k in s.cleanups
    requires s.cleanups[k].review < |s.reviews| && Touched(s.reviews[s.cleanups[k].review], r)
    requires r.closing && (r.cancelled || r.grant.Refused?)
    ensures var i := s.cleanups[k].review; Inv(Drop(Stepped(WithReview(s, i, r), k, Succeeded), i))
  {
    var i := s.cleanups[k].review;
    var t := WithReview(s, i, r);
    TouchKeeps(s, i, r);
    DropKeeps(t, i);
    if s.disposal.Sweeping? { NothingTracked(t, i); }
    SteppedKeeps(Drop(t, i), k, Succeeded);
    assert Drop(Stepped(t, k, Succeeded), i) == Stepped(Drop(t, i), k, Succeeded);
  }

  lemma AdvancedKeeps(s: State, k: Key, ok: bool)
    requires Inv(s)
    ensures Inv(Advanced(s, k, ok))
  {
    if k in s.cleanups && s.cleanups[k].review < |s.reviews| {
      var i := s.cleanups[k].review;
      var r := s.reviews[i];
      assert r.closing;
      match s.cleanups[k].stage
      case ReleaseConsumer => SteppedKeeps(s, k, ReleaseCreator);
      case ReleaseCreator => SteppedKeeps(s, k, Identify);
      case Identify =>
        if r.grant.Granted? || (r.grant.Unknown? && ok) {
          TouchKeeps(s, i, r.(grant := Granted));
          SteppedKeeps(WithReview(s, i, r.(grant := Granted)), k, Cancel);
        } else {
          DoneKeeps(s, k, r.(grant := Refused));
        }
      case Cancel =>
        if ok { DoneKeeps(s, k, r.(cancelled := true)); } else { SteppedKeeps(s, k, Rejected); }
      case _ =>
    }
  }

  lemma DisposingKeeps(s: State)
    requires Inv(s)
    ensures Inv(Disposing(s))
  {
  }

  lemma CloseKeeps(s: State)
    requires Inv(s)
    ensures Inv(s.(reviews := Close(s)))
    ensures forall i | i in s.live :: Close(s)[i].closing
  {
    var reviews := Close(s);
    assert forall i | 0 <= i < |reviews| :: Touched(s.reviews[i], reviews[i]);
    GroupsShrink(s.reviews, s.live, reviews, s.live);
    CloseKept(s.reviews, reviews, s.live, s.cleanups);
    CloseTracking(s.reviews, reviews, s.ops, s.tracked);
  }

  lemma CloseKept(reviews: seq<Review>, reviews': seq<Review>, live: set<nat>, cleanups: map<Key, Cleanup>)
    requires Kept(reviews, live, cleanups) && |reviews'| == |reviews|
    requires forall i | 0 <= i < |reviews| :: Touched(reviews[i], reviews'[i])
    ensures Kept(reviews', live, cleanups)
  {
    forall i: nat | i < |reviews'| ensures Lived(reviews'[i]) && (i in live || Dropped(reviews'[i])) {
      assert Touched(reviews[i], reviews'[i]);
      assert Lived(reviews[i]);
    }
  }

  lemma CloseTracking(reviews: seq<Review>, reviews': seq<Review>, ops: seq<Op>, tracked: set<nat>)
    requires Tracking(reviews, ops, tracked) && |reviews'| == |reviews|
    requires forall i | 0 <= i < |reviews| :: Touched(reviews[i], reviews'[i])
    ensures Tracking(reviews', ops, tracked)
  {
  }

  lemma SweepKeeps(s: State, batch: map<Key, Cleanup>, next: Disposal)
    requires Inv(s)
    requires forall k | k in batch :: batch[k].review in s.live && !k.Loose? && batch[k].review == k.review
    requires Ending(s.(cleanups := s.cleanups + batch, disposal := next))
    ensures Inv(Sweep(s, batch, next))
  {
    CloseKeeps(s);
    assert Kept(Close(s), s.live, s.cleanups + batch);
  }

  lemma LastSweepKeeps(s: State)
    requires Inv(s) && s.disposal.Awaiting?
    ensures Inv(Disposed(s))
  {
    if Disposed(s) != s {
      assert s.tracked == {};
      SweepKeeps(s, Batch(set i | i in s.live :: Last(s.round, i)), Sweeping);
    }
  }

  lemma ResolvedKeeps(s: State)
    requires Inv(s) && s.disposal.Sweeping?
    ensures Inv(Disposed(s))
  {
    if Disposed(s).disposal.Resolved? {
      assert forall i | i in s.live :: Last(s.round, i) in s.cleanups.Keys;
      assert s.live == {};
    }
  }

  lemma DisposedKeeps(s: State)
    requires Inv(s)
    ensures Inv(Disposed(s))
  {
    match s.disposal
    case Releasing(snapshot) =>
      SweepKeeps(s, Batch(set i | i in s.live :: First(s.round, i)), Signalling(snapshot));
    case Awaiting(snapshot) => LastSweepKeeps(s);
    case Sweeping => ResolvedKeeps(s);
    case _ =>
  }

  lemma ApplyKeeps(s: State, step: Step)
    requires Inv(s)
    ensures Inv(Apply(s, step))
  {
    match step
    case Preview(kind) => OpenedKeeps(s, kind);
    case CreatorReplies(o) => LearnedKeeps(s, o);
    case CreatorSettles(o, current, n) => SettledKeeps(s, o, current, n);
    case Consume(i, starts, n) => ConsumedKeeps(s, i, starts, n);
    case ConsumerSettles(o, claimed, current, n) => ConcludedKeeps(s, o, claimed, current, n);
    case OperationEnds(o) => EndedKeeps(s, o);
    case CleanupStarts(i, n) => if Started(s, i, n) != s { BeginKeeps(s, i, n); }
    case CleanupAdvances(k, ok) => AdvancedKeeps(s, k, ok);
    case Dispose => DisposingKeeps(s);
    case DisposalAdvances => DisposedKeeps(s);
  }

  lemma {:induction false} Reachable(steps: seq<Step>)
    ensures Inv(Play(steps))
  {
    if steps == [] {
      assert forall p: bool :: Group([], {}, p) == {};
    } else {
      Reachable(steps[..|steps| - 1]);
      ApplyKeeps(Play(steps[..|steps| - 1]), steps[|steps| - 1]);
    }
  }

  // ----- how often a review is consumed -----

  /** The consumer operations ever started on a review. */
  function Consumers(ops: seq<Op>, i: nat): nat {
    if ops == [] then 0
    else
      var last := ops[|ops| - 1];
      Consumers(ops[..|ops| - 1], i) + if !last.creates && last.review == i then 1 else 0
  }

  lemma {:induction false} SameConsumers(ops: seq<Op>, ops': seq<Op>, i: nat)
    requires |ops| == |ops'|
    requires forall o | 0 <= o < |ops| :: ops[o].creates == ops'[o].creates && ops[o].review == ops'[o].review
    ensures Consumers(ops, i) == Consumers(ops', i)
  {
    if ops == [] {
    } else {
      SameConsumers(ops[..|ops| - 1], ops'[..|ops| - 1], i);
    }
  }

  lemma {:induction false} NoConsumers(ops: seq<Op>, i: nat)
    requires forall o | 0 <= o < |ops| :: ops[o].review < i
    ensures Consumers(ops, i) == 0
  {
    if ops == [] {
    } else {
      NoConsumers(ops[..|ops| - 1], i);
    }
  }

  function Consumptions(r: Review): nat { |r.outcomes| + if r.consumer.Some? then 1 else 0 }

  ghost predicate Counted(s: State) {
    forall i: nat | i < |s.reviews| :: Consumers(s.ops, i) == Consumptions(s.reviews[i])
  }

  /** The step neither starts nor ends a consumption. */
  ghost predicate SameUse(s: State, t: State) {
    && |s.ops| == |t.ops| && |s.reviews| == |t.reviews|
    && (forall o | 0 <= o < |s.ops| :: s.ops[o].creates == t.ops[o].creates && s.ops[o].review == t.ops[o].review)
    && (forall i | 0 <= i < |s.reviews| :: Consumptions(s.reviews[i]) == Consumptions(t.reviews[i]))
  }

  lemma OtherSteps(s: State, step: Step)
    requires !step.Preview? && !(step.Consume? && step.starts) && !step.ConsumerSettles?
    ensures SameUse(s, Apply(s, step))
  {
    match step
    case CreatorReplies(o) => LearnedUse(s, o);
    case CreatorSettles(o, current, n) => SettledUse(s, o, current, n);
    case Consume(i, starts, n) => StartedUse(s, i, n);
    case OperationEnds(o) => EndedUse(s, o);
    case CleanupStarts(i, n) => StartedUse(s, i, n);
    case CleanupAdvances(k, ok) => AdvancedUse(s, k, ok);
    case Dispose =>
    case DisposalAdvances => DisposedUse(s);
  }

  lemma LearnedUse(s: State, o: nat)
    ensures SameUse(s, Learned(s, o))
  {
  }

  lemma EndedUse(s: State, o: nat)
    ensures SameUse(s, Ended(s, o))
  {
  }

  lemma StartedUse(s: State, i: nat, n: nat)
    ensures SameUse(s, Started(s, i, n)) && SameUse(s, Consumed(s, i, false, n))
  {
  }

  lemma DisposedUse(s: State)
    ensures SameUse(s, Disposed(s))
  {
    assert SameUse(s, s.(reviews := Close(s)));
  }

  lemma SettledUse(s: State, o: nat, current: bool, n: nat)
    ensures SameUse(s, Settled(s, o, current, n))
  {
  }

  lemma TouchUse(s: State, t: State, i: nat, r: Review)
    requires i < |s.reviews| && Consumptions(r) == Consumptions(s.reviews[i])
    requires t.ops == s.ops && t.reviews == s.reviews[i := r]
    ensures SameUse(s, t)
  {
  }

  lemma AdvancedUse(s: State, k: Key, ok: bool)
    ensures SameUse(s, Advanced(s, k, ok))
  {
    if k in s.cleanups && s.cleanups[k].review < |s.reviews| {
      var i := s.cleanups[k].review;
      var r := s.reviews[i];
      var t := Advanced(s, k, ok);
      match s.cleanups[k].stage
      case Identify =>
        TouchUse(s, t, i, r.(grant := if r.grant.Granted? || (r.grant.Unknown? && ok) then Granted else Refused));
      case Cancel => TouchUse(s, t, i, if ok then r.(cancelled := true) else r);
      case _ =>
    }
  }

  lemma ConcludedUse(s: State, o: nat, claimed: bool, current: bool, n: nat)
    requires Inv(s)
    ensures SameUse(s, Concluded(s, o, claimed, current, n))
  {
    if Pending(s, o, false, n) { assert Claimed(s.reviews, o, s.ops[o]); }
  }

  lemma SameUseCounted(s: State, t: State)
    requires Counted(s) && SameUse(s, t)
    ensures Counted(t)
  {
    forall i: nat | i < |t.reviews| ensures Consumers(t.ops, i) == Consumptions(t.reviews[i]) {
      SameConsumers(s.ops, t.ops, i);
    }
  }

  lemma OpenedCounted(s: State, kind: Kind)
    requires Inv(s) && Counted(s)
    ensures Counted(Opened(s, kind))
  {
    var t := Opened(s, kind);
    if t != s {
      assert t.ops[..|s.ops|] == s.ops;
      NoConsumers(s.ops, |s.reviews|);
    }
  }

  lemma ConsumedCounted(s: State, i: nat, n: nat)
    requires Inv(s) && Counted(s)
    ensures Counted(Consumed(s, i, true, n))
  {
    var t := Consumed(s, i, true, n);
    if t != s { assert t.ops[..|s.ops|] == s.ops; }
  }

  lemma CountedKeeps(s: State, step: Step)
    requires Inv(s) && Counted(s)
    ensures Counted(Apply(s, step))
  {
    if step.Preview? {
      OpenedCounted(s, step.kind);
    } else if step.Consume? && step.starts {
      ConsumedCounted(s, step.review, step.n);
    } else {
      if step.ConsumerSettles? { ConcludedUse(s, step.op, step.claimed, step.current, step.n); } else {
          OtherSteps(s, step); }
      SameUseCounted(s, Apply(s, step));
    }
  }

  lemma {:induction false} AlwaysCounted(steps: seq<Step>)
    ensures Counted(Play(steps))
  {
    if steps == [] {
    } else {
      AlwaysCounted(steps[..|steps| - 1]);
      Reachable(steps[..|steps| - 1]);
      CountedKeeps(Play(steps[..|steps| - 1]), steps[|steps| - 1]);
    }
  }

  lemma Grows(s: State, step: Step)
    requires Inv(s)
    ensures var t := Apply(s, step); |s.reviews| <= |t.reviews| && |s.ops| <= |t.ops|
    ensures var t := Apply(s, step); s.disposed ==> |s.reviews| == |t.reviews| && |s.ops| == |t.ops|
  {
    if step.ConsumerSettles? {
      ConcludedUse(s, step.op, step.claimed, step.current, step.n);
    } else if !step.Preview? && !(step.Consume? && step.starts) {
      OtherSteps(s, step);
    }
  }

  lemma Shrinks(s: State, step: Step)
    requires s.disposed
    ensures Apply(s, step).disposed && Apply(s, step).live <= s.live
  {
  }

  // ----- the promises -----

  /** A review has at most one active consumer, and only while it is in the set and settled. */
  lemma OneConsumer(steps: seq<Step>, o: nat, p: nat)
    requires var s := Play(steps); o < |s.ops| && p < |s.ops| && s.ops[o].review == s.ops[p].review
    requires var s := Play(steps); !s.ops[o].creates && !s.ops[p].creates
    requires var s := Play(steps); Active(s.ops[o].phase) && Active(s.ops[p].phase)
    ensures o == p
    ensures Play(steps).ops[o].review in Play(steps).live
  {
    Reachable(steps);
    var s := Play(steps);
    assert Claimed(s.reviews, o, s.ops[o]) && Claimed(s.reviews, p, s.ops[p]);
  }

  lemma RetainedBefore(r: Review)
    requires Lived(r)
    ensures forall j | 0 <= j < |r.outcomes| && j + 1 < Consumptions(r) :: r.outcomes[j] && r.kind.Restore?
    ensures !r.kind.Restore? ==> Consumptions(r) <= 1
  {
    if |r.outcomes| > 0 { assert r.outcomes[0] ==> r.kind.Restore?; }
  }

  /**
   A review is consumed again only after outcomes that retained it, which only a restore can have; any other kind is
   consumed at most once.
   */
  lemma ConsumedAgainOnlyIfRetained(steps: seq<Step>, i: nat)
    requires i < |Play(steps).reviews|
    ensures var s := Play(steps); var r := s.reviews[i];
      && (forall j | 0 <= j < |r.outcomes| && j + 1 < Consumers(s.ops, i) :: r.outcomes[j] && r.kind.Restore?)
      && (!r.kind.Restore? ==> Consumers(s.ops, i) <= 1)
  {
    Reachable(steps);
    AlwaysCounted(steps);
    RetainedBefore(Play(steps).reviews[i]);
  }

  /**
   A review leaves the set only when its creator has settled and nothing consumes it, after an acknowledged cancel of
   its creator or a refused reservation.
   */
  lemma LeavesOnlySettled(steps: seq<Step>, step: Step, i: nat)
    requires i in Play(steps).live && i !in Apply(Play(steps), step).live
    ensures i < |Apply(Play(steps), step).reviews| && Dropped(Apply(Play(steps), step).reviews[i])
  {
    Reachable(steps);
    ApplyKeeps(Play(steps), step);
    Grows(Play(steps), step);
  }

  /**
   No dead review lingers: a settled one without a preview, or after a consumption that used it up, is being closed.
   */
  lemma SpentReviewsClose(steps: seq<Step>, i: nat)
    requires i < |Play(steps).reviews|
    ensures var r := Play(steps).reviews[i];
      || (r.settled && !r.known)
      || (r.outcomes != [] && !r.outcomes[|r.outcomes| - 1])
      || i !in Play(steps).live
      ==> r.closing && !Available(Play(steps), i)
  {
    Reachable(steps);
    assert Lived(Play(steps).reviews[i]);
  }

  lemma AtMostThree(steps: seq<Step>, prepared: bool)
    ensures |Group(Play(steps).reviews, Play(steps).live, prepared)| <= 3
  {
    Reachable(steps);
  }

  /** Nothing starts on a disposed flow. */
  lemma {:induction false} NothingStarts(steps: seq<Step>, more: seq<Step>)
    requires Play(steps).disposed
    ensures var s := Play(steps); var t := Play(steps + more);
      t.disposed && |t.ops| == |s.ops| && |t.reviews| == |s.reviews| && t.live <= s.live
    decreases |more|
  {
    if more == [] {
      assert steps + more == steps;
    } else {
      NothingStarts(steps, more[..|more| - 1]);
      assert (steps + more)[..|steps + more| - 1] == steps + more[..|more| - 1];
      Reachable(steps + more[..|more| - 1]);
      Grows(Play(steps + more[..|more| - 1]), more[|more| - 1]);
      Shrinks(Play(steps + more[..|more| - 1]), more[|more| - 1]);
    }
  }

  /**
   When disposal resolves no review remains, every operation has settled, every review went through an acknowledged
   cancel or had no reservation, and all of that stays so.
   */
  lemma DisposalResolves(steps: seq<Step>, more: seq<Step>)
    requires Play(steps).disposal.Resolved?
    ensures var s := Play(steps); s.live == {} && s.tracked == {}
    ensures var s := Play(steps); forall o | 0 <= o < |s.ops| :: s.ops[o].phase.Done?
    ensures var s := Play(steps); forall i | 0 <= i < |s.reviews| :: Dropped(s.reviews[i])
    ensures var t := Play(steps + more); t.live == {} && |t.ops| == |Play(steps).ops|
  {
    Reachable(steps);
    NothingStarts(steps, more);
    assert forall o: nat | o < |Play(steps).ops| :: o !in Play(steps).tracked;
  }

  // ----- a disposal is never stuck -----

  /** An operation that waits for a cleanup waits for one that was started. */
  predicate Awaited(cleanups: map<Key, Cleanup>, p: Phase) {
    p.Settling? && p.waitsFor.Some? ==> p.waitsFor.value in cleanups
  }

  predicate AllAwaited(s: State) { forall o | 0 <= o < |s.ops| :: Awaited(s.cleanups, s.ops[o].phase) }

  lemma SettlingAwaited(s: State, o: nat, i: nat, due: bool, n: nat)
    requires AllAwaited(s) && o < |s.ops| && i < |s.reviews|
    ensures AllAwaited(Tail(s, o, i, due, n))
  {
  }

  lemma AdvancedAwaited(s: State, k: Key, ok: bool)
    requires AllAwaited(s)
    ensures AllAwaited(Advanced(s, k, ok))
  {
    assert Advanced(s, k, ok).ops == s.ops;
    assert s.cleanups.Keys <= Advanced(s, k, ok).cleanups.Keys;
  }

  lemma DisposedAwaited(s: State)
    requires AllAwaited(s)
    ensures AllAwaited(Disposed(s))
  {
    assert Disposed(s).ops == s.ops;
    assert s.cleanups.Keys <= Disposed(s).cleanups.Keys;
  }

  lemma ApplyAwaited(s: State, step: Step)
    requires AllAwaited(s)
    ensures AllAwaited(Apply(s, step))
  {
    match step
    case CreatorSettles(o, current, n) =>
      if Pending(s, o, true, n) {
        var i := s.ops[o].review;
        var r := s.reviews[i].(settled := true);
        SettlingAwaited(WithReview(s, i, r), o, i, !r.known || r.closing || s.disposed || !current, n);
      }
    case ConsumerSettles(o, claimed, current, n) =>
      if Pending(s, o, false, n) {
        var i := s.ops[o].review;
        var retained := s.reviews[i].kind.Restore? && claimed;
        var r := Outcome(s.reviews[i], retained);
        SettlingAwaited(WithReview(s, i, r), o, i, !retained || r.closing || s.disposed || !current, n);
      }
    case CleanupAdvances(k, ok) => AdvancedAwaited(s, k, ok);
    case DisposalAdvances => DisposedAwaited(s);
    case _ =>
  }

  lemma {:induction false} AlwaysAwaited(steps: seq<Step>)
    ensures AllAwaited(Play(steps))
  {
    if steps == [] {
    } else {
      AlwaysAwaited(steps[..|steps| - 1]);
      ApplyAwaited(Play(steps[..|steps| - 1]), steps[|steps| - 1]);
    }
  }

  /** No native reply is outstanding: every operation has its result and every cleanup has come to an end. */
  predicate OwedNothing(s: State) {
    && (forall o | 0 <= o < |s.ops| :: !Active(s.ops[o].phase))
    && (forall k | k in s.cleanups.Keys :: Over(s, k))
  }

  /** An unfinished disposal that is owed no reply can go on: itself, or by an operation that leaves the tracked set. */
  lemma DisposalNeverStuck(steps: seq<Step>)
    requires var s := Play(steps); !s.disposal.Idle? && !s.disposal.Resolved? && OwedNothing(s)
    ensures var s := Play(steps);
      || Apply(s, DisposalAdvances) != s
      || exists o: nat :: o in s.tracked && Apply(s, OperationEnds(o)).tracked == s.tracked - {o}
  {
    AlwaysAwaited(steps);
    Reachable(steps);
    var s := Play(steps);
    match s.disposal
    case Awaiting(snapshot) =>
      if exists o :: o in snapshot && o < |s.ops| && !s.ops[o].phase.Done? {
        var o :| o in snapshot && o < |s.ops| && !s.ops[o].phase.Done?;
        EndsNow(s, o);
      }
    case Sweeping => SweepEnds(s);
    case _ =>
  }

  lemma EndsNow(s: State, o: nat)
    requires OwedNothing(s) && AllAwaited(s) && Tracking(s.reviews, s.ops, s.tracked)
    requires o < |s.ops| && !s.ops[o].phase.Done?
    ensures o in s.tracked && Apply(s, OperationEnds(o)).tracked == s.tracked - {o}
  {
    assert Awaited(s.cleanups, s.ops[o].phase) && !Active(s.ops[o].phase);
    if s.ops[o].phase.waitsFor.Some? { assert s.ops[o].phase.waitsFor.value in s.cleanups.Keys; }
  }

  lemma SweepEnds(s: State)
    requires OwedNothing(s) && s.disposal.Sweeping?
    ensures !Disposed(s).disposal.Sweeping?
  {
    assert forall k | k in s.cleanups.Keys :: s.cleanups[k].stage.Succeeded? || s.cleanups[k].stage.Rejected?;
  }
}
