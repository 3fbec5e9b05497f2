/** What each call of the review flow does in every reachable state, and the way of a review from preview to cleanup. */
module ReviewOutcomes {
  import opened Options
  import opened PortableReviews

  // ----- opening -----

  /** Live exports and backups. */
  function Outgoing(s: State): set<nat> {
    set i | i in s.live && i < |s.reviews| && (s.reviews[i].kind == Export || s.reviews[i].kind == Backup)
  }

  /** Live imports, restores and unopened projects. */
  function Incoming(s: State): set<nat> {
    set i | i in s.live && i < |s.reviews| &&
            (s.reviews[i].kind == Import || s.reviews[i].kind == Restore || s.reviews[i].kind == Unopened)
  }

  lemma GroupsSpelled(s: State)
    ensures Group(s.reviews, s.live, true) == Outgoing(s)
    ensures Group(s.reviews, s.live, false) == Incoming(s)
  {
  }

  /** At most three of each, in every reachable state. */
  lemma ThreeOfEach(steps: seq<Step>)
    ensures |Outgoing(Play(steps))| <= 3 && |Incoming(Play(steps))| <= 3
    ensures Outgoing(Play(steps)) + Incoming(Play(steps)) == Play(steps).live
    ensures |Play(steps).live| <= 6
  {
    Reachable(steps);
    var s := Play(steps);
    GroupsSpelled(s);
    assert Bounded(s.reviews, s.live);
    assert |Group(s.reviews, s.live, true)| <= 3 && |Group(s.reviews, s.live, false)| <= 3;
    assert Outgoing(s) !! Incoming(s);
    assert Outgoing(s) + Incoming(s) == s.live;
    assert |Outgoing(s) + Incoming(s)| == |Outgoing(s)| + |Incoming(s)|;
  }

  /** One review is added: live, unanswered, with a running creator of its own. */
  predicate AddsReview(s: State, t: State, kind: Kind) {
    && |t.reviews| == |s.reviews| + 1 && t.reviews[..|s.reviews|] == s.reviews
    && t.reviews[|s.reviews|] == Review(kind, |s.ops|, false, false, None, false, Unknown, false, [])
    && t.live == s.live + {|s.reviews|}
    && t.ops == s.ops + [Op(|s.reviews|, true, Running)] && t.tracked == s.tracked + {|s.ops|}
    && t.cleanups == s.cleanups && t.disposed == s.disposed && t.disposal == s.disposal && t.round == s.round
  }

  /** A preview opens a review exactly when the flow is not disposed and its group has a place left. */
  lemma PreviewExactly(s: State, kind: Kind)
    ensures kind == Export || kind == Backup ==>
              var t := Apply(s, Preview(kind));
              if !s.disposed && |Outgoing(s)| < 3 then AddsReview(s, t, kind) else t == s
    ensures kind == Import || kind == Restore || kind == Unopened ==>
              var t := Apply(s, Preview(kind));
              if !s.disposed && |Incoming(s)| < 3 then AddsReview(s, t, kind) else t == s
  {
    GroupsSpelled(s);
  }

  // ----- consuming -----

  /** Previewed, answered, unused, and not being closed. */
  predicate Ready(s: State, i: nat) {
    && !s.disposed && i in s.live && i < |s.reviews|
    && s.reviews[i].known && s.reviews[i].settled && s.reviews[i].consumer == None && !s.reviews[i].closing
  }

  /** An operation starts on a review exactly when it is ready; a start that throws closes the review instead. */
  lemma ConsumeExactly(s: State, i: nat, starts: bool, n: nat)
    requires Loose(n) !in s.cleanups
    ensures var t := Apply(s, Consume(i, starts, n));
            && (Ready(s, i) && starts ==>
                  && t.ops == s.ops + [Op(i, false, Running)] && t.tracked == s.tracked + {|s.ops|}
                  && t.reviews == s.reviews[i := s.reviews[i].(consumer := Some(|s.ops|))]
                  && t.live == s.live && t.cleanups == s.cleanups)
            && (Ready(s, i) && !starts ==>
                  && t.ops == s.ops && t.reviews == s.reviews[i := s.reviews[i].(closing := true)]
                  && t.live == s.live && t.cleanups == s.cleanups[Loose(n) := Cleanup(i, ReleaseConsumer)])
            && (!Ready(s, i) ==> t == s)
  {
  }

  // ----- settling -----

  /** The identifier of a preview is known from the reply of its creator on. */
  lemma {:induction false} ReplyIsKept(steps: seq<Step>, o: nat)
    requires var s := Play(steps); o < |s.ops| && s.ops[o].creates && s.ops[o].phase == Running
    ensures var s := Play(steps); var t := Apply(s, CreatorReplies(o));
            s.ops[o].review < |s.reviews| && |t.reviews| == |s.reviews| && t.ops[o].phase == Replied
            && t.reviews[s.ops[o].review] == s.reviews[s.ops[o].review].(known := true)
  {
    Reachable(steps);
    assert Claimed(Play(steps).reviews, o, Play(steps).ops[o]);
  }

  /**
   A creator that settles makes its review ready, unless it brought no preview, the review is being closed, the flow is
   disposed or the operation is no longer current: then a cleanup starts and the operation waits for it.
   */
  lemma CreatorSettlesExactly(steps: seq<Step>, o: nat, current: bool, n: nat)
    requires var s := Play(steps); o < |s.ops| && s.ops[o].creates && Active(s.ops[o].phase) && Loose(n) !in s.cleanups
    ensures var s := Play(steps); var i := s.ops[o].review; i < |s.reviews|
    ensures var s := Play(steps); var i := s.ops[o].review; var t := Apply(s, CreatorSettles(o, current, n));
            && |t.reviews| == |s.reviews| && i in t.live && t.reviews[i].settled
            && if s.reviews[i].known && !s.reviews[i].closing && !s.disposed && current
               then Ready(t, i) && t.cleanups == s.cleanups && t.ops[o].phase == Settling(None)
               else && !Ready(t, i) && t.reviews[i].closing && t.ops[o].phase == Settling(Some(Loose(n)))
                    && t.cleanups == s.cleanups[Loose(n) := Cleanup(i, ReleaseConsumer)]
  {
    Reachable(steps);
    var s := Play(steps);
    var i := s.ops[o].review;
    assert Claimed(s.reviews, o, s.ops[o]);
    assert Creator(s.ops, i, s.reviews[i]) && Lived(s.reviews[i]);
  }

  /**
   A consumer that settles leaves its review ready only when a restore keeps it and nothing closes it; its outcome is
   recorded either way.
   */
  lemma ConsumerSettlesExactly(steps: seq<Step>, o: nat, claimed: bool, current: bool, n: nat)
    requires var s := Play(steps); o < |s.ops| && !s.ops[o].creates && Active(s.ops[o].phase) && Loose(n) !in s.cleanups
    ensures var s := Play(steps); s.ops[o].review < |s.reviews|
    ensures var s := Play(steps); var i := s.ops[o].review; var r := s.reviews[i];
            var t := Apply(s, ConsumerSettles(o, claimed, current, n));
            var keeps := r.kind == Restore && claimed;
            && |t.reviews| == |s.reviews| && i in t.live
            && t.reviews[i].consumer == None && t.reviews[i].outcomes == r.outcomes + [keeps]
            && if keeps && !r.closing && !s.disposed && current
               then Ready(t, i) && t.cleanups == s.cleanups && t.ops[o].phase == Settling(None)
               else && !Ready(t, i) && t.reviews[i].closing && t.ops[o].phase == Settling(Some(Loose(n)))
                    && t.cleanups == s.cleanups[Loose(n) := Cleanup(i, ReleaseConsumer)]
  {
    Reachable(steps);
    var s := Play(steps);
    assert Claimed(s.reviews, o, s.ops[o]);
    assert Lived(s.reviews[s.ops[o].review]);
  }

  predicate Finished(s: State, k: Key) {
    k in s.cleanups && (s.cleanups[k].stage == Succeeded || s.cleanups[k].stage == Rejected)
  }

  /** An operation leaves the tracked set exactly when it has settled and the cleanup it waits for is over. */
  lemma EndsExactly(steps: seq<Step>, step: Step, o: nat)
    requires o in Play(steps).tracked
    ensures var s := Play(steps);
            o !in Apply(s, step).tracked <==>
            && step == OperationEnds(o) && o < |s.ops| && s.ops[o].phase.Settling?
            && (s.ops[o].phase.waitsFor.None? || Finished(s, s.ops[o].phase.waitsFor.value))
  {
  }

  // ----- cleaning up -----

  /** A release of either operation starts a cleanup and closes the review. */
  lemma CleanupStartsExactly(s: State, i: nat, n: nat)
    requires i < |s.reviews| && Loose(n) !in s.cleanups
    ensures Apply(s, CleanupStarts(i, n)) ==
            s.(reviews := s.reviews[i := s.reviews[i].(closing := true)],
               cleanups := s.cleanups[Loose(n) := Cleanup(i, ReleaseConsumer)])
  {
  }

  /** The last reply of a cleanup: the creator is cancelled, or it turns out that there is nothing to cancel. */
  predicate LastReply(s: State, k: Key, ok: bool)
    requires k in s.cleanups && s.cleanups[k].review < |s.reviews|
  {
    var grant := s.reviews[s.cleanups[k].review].grant;
    || (s.cleanups[k].stage == Cancel && ok)
    || (s.cleanups[k].stage == Identify && (grant == Refused || (grant == Unknown && !ok)))
  }

  predicate Drops(s: State, k: Key, ok: bool, i: nat) {
    && k in s.cleanups && s.cleanups[k].review == i && i < |s.reviews|
    && s.reviews[i].settled && s.reviews[i].consumer == None && LastReply(s, k, ok)
  }

  lemma AdvanceDrops(s: State, k: Key, ok: bool, i: nat)
    requires i in s.live
    ensures i !in Advanced(s, k, ok).live <==> Drops(s, k, ok, i)
  {
  }

  lemma LiveStays(s: State, step: Step)
    requires !step.CleanupAdvances?
    ensures s.live <= Apply(s, step).live
  {
  }

  /** A review leaves the set exactly at the last reply of one of its cleanups, once it is settled and not consumed. */
  lemma LeavesExactly(steps: seq<Step>, step: Step, i: nat)
    requires i in Play(steps).live
    ensures i !in Apply(Play(steps), step).live <==> step.CleanupAdvances? && Drops(Play(steps), step.key, step.ok, i)
  {
    Reachable(steps);
    if step.CleanupAdvances? { AdvanceDrops(Play(steps), step.key, step.ok, i); } else { LiveStays(Play(steps), step); }
  }

  /** The cleanup reaches a stage and the review is as given; no operation is touched. */
  predicate Reaches(s: State, t: State, k: Key, stage: Stage, r: Review)
    requires k in s.cleanups && s.cleanups[k].review < |s.reviews|
  {
    && t.ops == s.ops && t.tracked == s.tracked
    && t.cleanups == s.cleanups[k := Cleanup(s.cleanups[k].review, stage)]
    && t.reviews == s.reviews[s.cleanups[k].review := r]
  }

  /** A cleanup asks for both releases, whatever they answer. */
  lemma ReleasesExactly(s: State, k: Key, ok: bool)
    requires k in s.cleanups && s.cleanups[k].review < |s.reviews|
    ensures var t, r := Apply(s, CleanupAdvances(k, ok)), s.reviews[s.cleanups[k].review];
            && (s.cleanups[k].stage == ReleaseConsumer ==> Reaches(s, t, k, ReleaseCreator, r))
            && (s.cleanups[k].stage == ReleaseCreator ==> Reaches(s, t, k, Identify, r))
  {
  }

  /** Then for the identifier of the creator, granted or refused once; without one there is nothing to cancel. */
  lemma IdentifyExactly(s: State, k: Key, ok: bool)
    requires k in s.cleanups && s.cleanups[k].review < |s.reviews| && s.cleanups[k].stage == Identify
    ensures var t, r := Apply(s, CleanupAdvances(k, ok)), s.reviews[s.cleanups[k].review];
            if r.grant == Granted || (r.grant == Unknown && ok) then Reaches(s, t, k, Cancel, r.(grant := Granted))
            else Reaches(s, t, k, Succeeded, r.(grant := Refused))
  {
  }

  /** Then for the cancellation; if that fails the review stays as it is. */
  lemma CancelExactly(s: State, k: Key, ok: bool)
    requires k in s.cleanups && s.cleanups[k].review < |s.reviews| && s.cleanups[k].stage == Cancel
    ensures var t, r := Apply(s, CleanupAdvances(k, ok)), s.reviews[s.cleanups[k].review];
            if ok then Reaches(s, t, k, Succeeded, r.(cancelled := true)) else Reaches(s, t, k, Rejected, r)
  {
  }

  // ----- disposing -----

  /** The flow is disposed by being asked to. */
  lemma {:induction false} DisposedExactly(steps: seq<Step>)
    ensures Play(steps).disposed <==> Dispose in steps
  {
    if steps == [] {
    } else {
      var last := |steps| - 1;
      DisposedExactly(steps[..last]);
      DisposedBy(Play(steps[..last]), steps[last]);
      assert steps == steps[..last] + [steps[last]];
    }
  }

  lemma DisposedBy(s: State, step: Step)
    ensures Apply(s, step).disposed <==> s.disposed || step == Dispose
  {
  }

  /** Asking starts a round that releases the operations now tracked, unless one is under way or done. */
  lemma DisposeExactly(s: State)
    ensures var t := Apply(s, Dispose);
            t == if s.disposal == Idle then s.(disposed := true, disposal := Releasing(s.tracked), round := s.round + 1)
                 else s.(disposed := true)
  {
  }

  /** Every live review is closing and has a cleanup under the given key; nothing else has changed. */
  predicate Sweeps(s: State, t: State, last: bool) {
    && t.live == s.live && t.ops == s.ops && |t.reviews| == |s.reviews|
    && (forall i: nat | i in s.live && i < |s.reviews| :: t.reviews[i] == s.reviews[i].(closing := true))
    && (forall i: nat | i !in s.live && i < |s.reviews| :: t.reviews[i] == s.reviews[i])
    && (forall i: nat | i in s.live ::
          var k := if last then Last(s.round, i) else First(s.round, i);
          k in t.cleanups && t.cleanups[k] == Cleanup(i, ReleaseConsumer))
  }

  /**
   A disposal sweeps, waits for its first cleanups, waits for the operations it found, sweeps again, and resolves when
   the last cleanups have all succeeded; if one was rejected it can be asked for again.
   */
  lemma DisposalExactly(s: State)
    ensures var t := Apply(s, DisposalAdvances);
            && (s.disposal.Releasing? ==> t.disposal == Signalling(s.disposal.snapshot) && Sweeps(s, t, false))
            && (s.disposal.Signalling? ==>
                  t == if forall k | k in s.cleanups.Keys && k.First? && k.round == s.round :: Finished(s, k)
                       then s.(disposal := Awaiting(s.disposal.snapshot)) else s)
            && (s.disposal.Awaiting? ==>
                  if forall o | o in s.disposal.snapshot && o < |s.ops| :: s.ops[o].phase == Done
                  then t.disposal == Sweeping && Sweeps(s, t, true) else t == s)
            && (s.disposal.Sweeping? ==>
                  var mine := set k | k in s.cleanups.Keys && k.Last? && k.round == s.round;
                  && (t.disposal == Idle <==> exists k | k in mine :: s.cleanups[k].stage == Rejected)
                  && (t.disposal == Resolved <==> forall k | k in mine :: s.cleanups[k].stage == Succeeded))
  {
  }

  // ----- a step that is not enabled -----

  predicate Answerable(s: State, o: nat, creates: bool) {
    o < |s.ops| && s.ops[o].creates == creates && (s.ops[o].phase == Running || s.ops[o].phase == Replied)
  }

  predicate Enabled(s: State, step: Step) {
    match step
    case CreatorReplies(o) => o < |s.ops| && s.ops[o].creates && s.ops[o].phase == Running
    case CreatorSettles(o, _, n) => Answerable(s, o, true) && Loose(n) !in s.cleanups
    case ConsumerSettles(o, _, _, n) => Answerable(s, o, false) && Loose(n) !in s.cleanups
    case Consume(i, _, n) => Ready(s, i) && Loose(n) !in s.cleanups
    case CleanupStarts(i, n) => i < |s.reviews| && Loose(n) !in s.cleanups
    case CleanupAdvances(k, _) => k in s.cleanups && !Finished(s, k)
    case OperationEnds(o) => o < |s.ops| && s.ops[o].phase.Settling?
    case _ => true
  }

  /** Replies that nobody waits for, and starts under a name in use, change nothing. */
  lemma OtherwiseNothing(s: State, step: Step)
    requires !Enabled(s, step)
    ensures Apply(s, step) == s
  {
  }
}
