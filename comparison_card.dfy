/**
 * The card that offers one pair of job listings for a forced choice.
 *
 * Five flags drive it: the selected job, whether a selection is being
 * submitted, whether the rejected card has faded, whether the selected card
 * is moving, and whether the entering animation still runs. A pair change
 * resets them and starts the entering timer; a selection starts a chain of
 * three nested timers (fade, move, then the callback with the chosen job).
 *
 * Timers are discrete events in a pending list, and any pending timer may
 * fire next: the model keeps only the causal order (a stage is scheduled by
 * the one before it), not the delays. Only the entering timer is cancelled
 * when the pair changes; the selection timers are not.
 */
module ComparisonCard {
  import opened ExperimentTypes

  /** A pending timer; selection stages remember the job their selection chose. */
  datatype CardTimer = EnterDone | Fade(job: JobNumber) | Move(job: JobNumber) | Commit(job: JobNumber)

  predicate IsStage(t: CardTimer) {
    !t.EnterDone?
  }

  datatype CardState = CardState(
    job1: JobListing,
    job2: JobListing,
    disabled: bool,
    selectedJob: Option<JobNumber>,
    isSubmitting: bool,
    rejectedFaded: bool,
    selectedMoving: bool,
    isEntering: bool,
    timers: seq<CardTimer>)

  /** The selection stages among the pending timers, in scheduling order. */
  function Stages(ts: seq<CardTimer>): (r: seq<CardTimer>)
    ensures |r| <= |ts|
    ensures forall i :: 0 <= i < |r| ==> IsStage(r[i])
  {
    if ts == [] then []
    else (if IsStage(ts[0]) then [ts[0]] else []) + Stages(ts[1..])
  }

  lemma {:induction false} StagesConcat(a: seq<CardTimer>, b: seq<CardTimer>)
    ensures Stages(a + b) == Stages(a) + Stages(b)
  {
    if a != [] {
      var head := if IsStage(a[0]) then [a[0]] else [];
      assert (a + b)[0] == a[0] && (a + b)[1..] == a[1..] + b;
      calc {
        Stages(a + b);
        head + Stages(a[1..] + b);
        { StagesConcat(a[1..], b); }
        head + (Stages(a[1..]) + Stages(b));
        (head + Stages(a[1..])) + Stages(b);
        Stages(a) + Stages(b);
      }
    } else {
      assert a + b == b;
    }
  }

  /** The pending timers without the entering timer: what the effect cleanup leaves. */
  function WithoutEnter(ts: seq<CardTimer>): (r: seq<CardTimer>)
    ensures EnterDone !in r
  {
    if ts == [] then []
    else (if ts[0] == EnterDone then [] else [ts[0]]) + WithoutEnter(ts[1..])
  }

  /** The cleanup keeps every selection stage, in order. */
  lemma {:induction false} CleanupKeepsStages(ts: seq<CardTimer>)
    ensures Stages(WithoutEnter(ts)) == Stages(ts)
  {
    if ts != [] {
      CleanupKeepsStages(ts[1..]);
      StagesConcat(if ts[0] == EnterDone then [] else [ts[0]], WithoutEnter(ts[1..]));
    }
  }

  /** The pending timers once timer `k` has fired. */
  function RemoveAt(ts: seq<CardTimer>, k: nat): (r: seq<CardTimer>)
    requires k < |ts|
    ensures |r| == |ts| - 1
  {
    ts[..k] + ts[k + 1..]
  }

  /** Firing a timer removes exactly one occurrence of it. */
  lemma RemoveAtMultiset(ts: seq<CardTimer>, k: nat)
    requires k < |ts|
    ensures multiset(RemoveAt(ts, k)) == multiset(ts) - multiset{ts[k]}
  {
    assert ts == ts[..k] + [ts[k]] + ts[k + 1..];
  }

  lemma SplitAt(ts: seq<CardTimer>, k: nat)
    requires k < |ts|
    ensures ts == ts[..k] + ([ts[k]] + ts[k + 1..])
  {
    assert ts == ts[..k] + ts[k..];
    assert ts[k..] == [ts[k]] + ts[k + 1..];
  }

  /** The stages of a timer list, read around position `k`. */
  lemma StagesAround(ts: seq<CardTimer>, k: nat)
    requires k < |ts|
    ensures Stages(ts) == Stages(ts[..k]) + Stages([ts[k]]) + Stages(ts[k + 1..])
  {
    SplitAt(ts, k);
    StagesConcat(ts[..k], [ts[k]] + ts[k + 1..]);
    StagesConcat([ts[k]], ts[k + 1..]);
  }

  /** Firing a timer removes it from the stages and keeps the order of the others. */
  lemma RemoveAtStages(ts: seq<CardTimer>, k: nat)
    requires k < |ts|
    ensures Stages(ts) == Stages(ts[..k]) + Stages([ts[k]]) + Stages(ts[k + 1..])
    ensures Stages(RemoveAt(ts, k)) == Stages(ts[..k]) + Stages(ts[k + 1..])
  {
    StagesAround(ts, k);
    StagesConcat(ts[..k], ts[k + 1..]);
  }

  // ---------------------------------------------------------------------------
  // Steps
  // ---------------------------------------------------------------------------

  /** The effect run when the pair changes: the old entering timer is cancelled and every flag reset. */
  function PairChangeStep(s: CardState, j1: JobListing, j2: JobListing): (r: CardState)
    ensures r.job1 == j1 && r.job2 == j2 && r.disabled == s.disabled
    ensures r.selectedJob == None && !r.isSubmitting && !r.rejectedFaded && !r.selectedMoving && r.isEntering
    ensures r.timers == WithoutEnter(s.timers) + [EnterDone]
  {
    s.(job1 := j1, job2 := j2, selectedJob := None, isSubmitting := false, rejectedFaded := false,
       selectedMoving := false, isEntering := true, timers := WithoutEnter(s.timers) + [EnterDone])
  }

  /** The state once the card is mounted and its effect has run. */
  function Mounted(j1: JobListing, j2: JobListing, disabled: bool): CardState {
    CardState(j1, j2, disabled, None, false, false, false, true, [EnterDone])
  }

  /** New props: the effect runs again exactly when the pair itself differs. */
  function PropsStep(s: CardState, j1: JobListing, j2: JobListing, disabled: bool): (r: CardState)
    ensures r.disabled == disabled && r.job1 == j1 && r.job2 == j2
    ensures j1 == s.job1 && j2 == s.job2 ==> r == s.(disabled := disabled)
    ensures j1 != s.job1 || j2 != s.job2 ==>
      r.selectedJob == None && !r.isSubmitting && !r.rejectedFaded && !r.selectedMoving && r.isEntering &&
      r.timers == WithoutEnter(s.timers) + [EnterDone]
  {
    var t := s.(disabled := disabled);
    if j1 == s.job1 && j2 == s.job2 then t else PairChangeStep(t, j1, j2)
  }

  /** A click on a select button: the choice is shown and its fade stage scheduled. */
  function SelectStep(s: CardState, n: JobNumber): (r: CardState)
    ensures r.selectedJob == Some(n) && r.isSubmitting
    ensures r.timers == s.timers + [Fade(n)]
    ensures r.job1 == s.job1 && r.job2 == s.job2 && r.disabled == s.disabled &&
            r.rejectedFaded == s.rejectedFaded && r.selectedMoving == s.selectedMoving && r.isEntering == s.isEntering
  {
    s.(selectedJob := Some(n), isSubmitting := true, timers := s.timers + [Fade(n)])
  }

  /** Pending timer `k` fires; the callback's job, when it is the last stage, is the second component. */
  function FireStep(s: CardState, k: nat): (r: (CardState, Option<JobNumber>))
    requires k < |s.timers|
    ensures r.0.selectedJob == s.selectedJob && r.0.isSubmitting == s.isSubmitting
    ensures r.0.job1 == s.job1 && r.0.job2 == s.job2 && r.0.disabled == s.disabled
    ensures r.1.Some? <==> s.timers[k].Commit?
    ensures r.1.Some? ==> r.1.value == s.timers[k].job
    // the entering timer ends the entering animation
    ensures s.timers[k].EnterDone? ==>
      !r.0.isEntering && r.0.rejectedFaded == s.rejectedFaded && r.0.selectedMoving == s.selectedMoving &&
      r.0.timers == RemoveAt(s.timers, k)
    // the fade stage fades the other card and schedules the move
    ensures s.timers[k].Fade? ==>
      r.0.rejectedFaded && r.0.selectedMoving == s.selectedMoving && r.0.isEntering == s.isEntering &&
      r.0.timers == RemoveAt(s.timers, k) + [Move(s.timers[k].job)]
    // the move stage moves the selected card and schedules the callback
    ensures s.timers[k].Move? ==>
      r.0.selectedMoving && r.0.rejectedFaded == s.rejectedFaded && r.0.isEntering == s.isEntering &&
      r.0.timers == RemoveAt(s.timers, k) + [Commit(s.timers[k].job)]
    // the callback stage changes no flag
    ensures s.timers[k].Commit? ==>
      r.0.rejectedFaded == s.rejectedFaded && r.0.selectedMoving == s.selectedMoving &&
      r.0.isEntering == s.isEntering && r.0.timers == RemoveAt(s.timers, k)
  {
    var rest := RemoveAt(s.timers, k);
    match s.timers[k]
    case EnterDone => (s.(isEntering := false, timers := rest), None)
    case Fade(n) => (s.(rejectedFaded := true, timers := rest + [Move(n)]), None)
    case Move(n) => (s.(selectedMoving := true, timers := rest + [Commit(n)]), None)
    case Commit(n) => (s.(timers := rest), Some(n))
  }

  function ButtonsDisabled(s: CardState): bool {
    s.disabled || s.isSubmitting
  }

  // ---------------------------------------------------------------------------
  // Invariants
  // ---------------------------------------------------------------------------

  /** The entering animation runs exactly while its single timer is pending. */
  ghost predicate EnterInvariant(s: CardState) {
    multiset(s.timers)[EnterDone] == if s.isEntering then 1 else 0
  }

  /** The flags a pending stage leaves behind it: fading before moving before the callback. */
  predicate StageMatches(s: CardState, t: CardTimer)
    requires IsStage(t)
  {
    s.selectedJob == Some(t.job) &&
    match t
    case Fade(_) => !s.rejectedFaded && !s.selectedMoving
    case Move(_) => s.rejectedFaded && !s.selectedMoving
    case Commit(_) => s.rejectedFaded && s.selectedMoving
  }

  /**
   * One selection at most is in flight and it belongs to the current pair:
   * without a selection nothing has faded or moved; with a selection either its
   * next stage is pending or every stage has run.
   */
  ghost predicate StagedInvariant(s: CardState) {
    (s.isSubmitting <==> s.selectedJob.Some?) &&
    |Stages(s.timers)| <= 1 &&
    (Stages(s.timers) != [] ==> StageMatches(s, Stages(s.timers)[0])) &&
    (s.selectedJob == None ==> !s.rejectedFaded && !s.selectedMoving && Stages(s.timers) == []) &&
    (s.selectedJob.Some? && Stages(s.timers) == [] ==> s.rejectedFaded && s.selectedMoving)
  }

  ghost predicate CardInvariant(s: CardState) {
    EnterInvariant(s) && StagedInvariant(s)
  }

  lemma MountedInvariant(j1: JobListing, j2: JobListing, disabled: bool)
    ensures CardInvariant(Mounted(j1, j2, disabled))
  {
    assert Stages([EnterDone]) == [] by {
      assert Stages([EnterDone]) == [] + Stages([]);
    }
  }

  /**
   * A pair change cancels the pending entering timer and starts exactly one
   * new one, whatever else is pending, and leaves every selection stage pending.
   */
  lemma PairChangeTimers(s: CardState, j1: JobListing, j2: JobListing)
    ensures EnterInvariant(PairChangeStep(s, j1, j2))
    ensures Stages(PairChangeStep(s, j1, j2).timers) == Stages(s.timers)
  {
    CleanupKeepsStages(s.timers);
    StagesConcat(WithoutEnter(s.timers), [EnterDone]);
    assert Stages([EnterDone]) == [] + Stages([]);
    assert multiset(WithoutEnter(s.timers))[EnterDone] == 0;
  }

  /** A pair change while no selection stage is pending keeps the whole invariant. */
  lemma PairChangeKeepsInvariant(s: CardState, j1: JobListing, j2: JobListing)
    requires Stages(s.timers) == []
    ensures CardInvariant(PairChangeStep(s, j1, j2))
  {
    PairChangeTimers(s, j1, j2);
  }

  lemma PropsKeepInvariant(s: CardState, j1: JobListing, j2: JobListing, disabled: bool)
    requires CardInvariant(s)
    requires j1 != s.job1 || j2 != s.job2 ==> Stages(s.timers) == []
    ensures CardInvariant(PropsStep(s, j1, j2, disabled))
  {
    if j1 != s.job1 || j2 != s.job2 {
      PairChangeKeepsInvariant(s.(disabled := disabled), j1, j2);
    }
  }

  /** A click the enabled buttons allow starts the one selection of this pair. */
  lemma SelectKeepsInvariant(s: CardState, n: JobNumber)
    requires CardInvariant(s) && !ButtonsDisabled(s)
    ensures CardInvariant(SelectStep(s, n))
    ensures Stages(SelectStep(s, n).timers) == [Fade(n)]
  {
    StagesConcat(s.timers, [Fade(n)]);
    assert Stages([Fade(n)]) == [Fade(n)] + Stages([]);
  }

  lemma FireEnterKeepsInvariant(s: CardState, k: nat)
    requires CardInvariant(s) && k < |s.timers| && s.timers[k] == EnterDone
    ensures CardInvariant(FireStep(s, k).0)
    ensures !FireStep(s, k).0.isEntering && Stages(FireStep(s, k).0.timers) == Stages(s.timers)
  {
    var rest := RemoveAt(s.timers, k);
    RemoveAtStages(s.timers, k);
    RemoveAtMultiset(s.timers, k);
    assert Stages([EnterDone]) == [] + Stages([]);
    assert FireStep(s, k).0 == s.(isEntering := false, timers := rest);
    assert Stages(rest) == Stages(s.timers);
  }

  /** Firing the only pending stage leaves no stage pending. */
  lemma OnlyStage(ts: seq<CardTimer>, k: nat)
    requires k < |ts| && IsStage(ts[k]) && |Stages(ts)| <= 1
    ensures Stages(ts) == [ts[k]]
    ensures Stages(RemoveAt(ts, k)) == []
  {
    RemoveAtStages(ts, k);
    assert Stages([ts[k]]) == [ts[k]] + Stages([]);
  }

  /** Firing the only pending stage and scheduling `next` leaves `next` as the only stage, and the entering timer untouched. */
  lemma ReplaceStage(ts: seq<CardTimer>, k: nat, next: CardTimer)
    requires k < |ts| && IsStage(ts[k]) && |Stages(ts)| <= 1 && IsStage(next)
    ensures Stages(ts) == [ts[k]]
    ensures Stages(RemoveAt(ts, k) + [next]) == [next]
    ensures multiset(RemoveAt(ts, k) + [next])[EnterDone] == multiset(ts)[EnterDone]
  {
    OnlyStage(ts, k);
    StagesConcat(RemoveAt(ts, k), [next]);
    assert Stages([next]) == [next] + Stages([]);
    RemoveAtMultiset(ts, k);
  }

  /** Firing a selection stage that is not the last one schedules the next stage. */
  lemma FireEarlyStageKeepsInvariant(s: CardState, k: nat, next: CardTimer)
    requires CardInvariant(s) && k < |s.timers| && (s.timers[k].Fade? || s.timers[k].Move?)
    requires next == (if s.timers[k].Fade? then Move(s.timers[k].job) else Commit(s.timers[k].job))
    ensures CardInvariant(FireStep(s, k).0)
    ensures StageMatches(s, s.timers[k])
    ensures Stages(FireStep(s, k).0.timers) == [next]
  {
    ReplaceStage(s.timers, k, next);
    assert FireStep(s, k).0.timers == RemoveAt(s.timers, k) + [next];
  }

  /** Firing the last stage of a selection leaves none of it pending. */
  lemma FireCommitKeepsInvariant(s: CardState, k: nat)
    requires CardInvariant(s) && k < |s.timers| && s.timers[k].Commit?
    ensures CardInvariant(FireStep(s, k).0)
    ensures StageMatches(s, s.timers[k])
    ensures Stages(FireStep(s, k).0.timers) == []
  {
    var t := s.timers[k];
    var rest := RemoveAt(s.timers, k);
    RemoveAtStages(s.timers, k);
    RemoveAtMultiset(s.timers, k);
    assert Stages([t]) == [t] + Stages([]);
    assert Stages(s.timers) == [t] && Stages(rest) == [];
    assert FireStep(s, k).0 == s.(timers := rest);
  }

  /**
   * Firing any pending timer keeps the invariant. The stages run in order: the
   * move only after the fade, the callback only after the move, and the
   * callback carries the selected job; once it has run nothing of the
   * selection is pending and the buttons stay disabled.
   */
  lemma FireKeepsInvariant(s: CardState, k: nat)
    requires CardInvariant(s) && k < |s.timers|
    ensures CardInvariant(FireStep(s, k).0)
    ensures s.timers[k].Move? ==> s.rejectedFaded
    ensures s.timers[k].Commit? ==>
      && s.rejectedFaded && s.selectedMoving
      && FireStep(s, k).1 == s.selectedJob
      && Stages(FireStep(s, k).0.timers) == [] && ButtonsDisabled(FireStep(s, k).0)
  {
    match s.timers[k]
    case EnterDone => FireEnterKeepsInvariant(s, k);
    case Fade(n) => FireEarlyStageKeepsInvariant(s, k, Move(n));
    case Move(n) => FireEarlyStageKeepsInvariant(s, k, Commit(n));
    case Commit(_) => FireCommitKeepsInvariant(s, k);
  }

  // ---------------------------------------------------------------------------
  // Which card is highlighted and how it animates
  // ---------------------------------------------------------------------------

  function IsSelected(selected: Option<JobNumber>, n: JobNumber): bool {
    selected == Some(n)
  }

  function IsOther(selected: Option<JobNumber>, n: JobNumber): bool {
    selected.Some? && selected.value != n
  }

  /** A card is never both selected and the other one; it is neither exactly when nothing is selected, and then for both cards. */
  lemma SelectedOrOther(selected: Option<JobNumber>, n: JobNumber)
    ensures !(IsSelected(selected, n) && IsOther(selected, n))
    ensures !IsSelected(selected, n) && !IsOther(selected, n) <==> selected == None
    ensures selected.Some? ==> (IsSelected(selected, Job1) <==> IsOther(selected, Job2))
  {
  }

  datatype Animation = SlideInLeft | SlideInRight | MoveCenterDropLeft | MoveCenterDropRight | FadeOut | Still

  /** The animation class of card `n`: entering first, then the selected card moving, then the other one fading. */
  function AnimationOf(s: CardState, n: JobNumber): (a: Animation)
    ensures (a.SlideInLeft? || a.SlideInRight?) <==> s.isEntering
    ensures (a.SlideInLeft? || a.MoveCenterDropLeft?) ==> n == Job1
    ensures (a.SlideInRight? || a.MoveCenterDropRight?) ==> n == Job2
    ensures (a.MoveCenterDropLeft? || a.MoveCenterDropRight?) <==>
              !s.isEntering && IsSelected(s.selectedJob, n) && s.selectedMoving
    ensures a == FadeOut <==>
              !s.isEntering && IsOther(s.selectedJob, n) && s.rejectedFaded
  {
    if s.isEntering then (match n case Job1 => SlideInLeft case Job2 => SlideInRight)
    else if IsSelected(s.selectedJob, n) && s.selectedMoving then
      (match n case Job1 => MoveCenterDropLeft case Job2 => MoveCenterDropRight)
    else if IsOther(s.selectedJob, n) && s.rejectedFaded then FadeOut
    else Still
  }

  /**
   * The two cards animate coherently: both slide in together; at most one
   * moves, it is the selected one, and the other has faded out by then;
   * with nothing selected neither card moves or fades.
   */
  lemma CardsAnimateTogether(s: CardState)
    requires StagedInvariant(s)
    ensures AnimationOf(s, Job1) == SlideInLeft <==> AnimationOf(s, Job2) == SlideInRight
    ensures !(AnimationOf(s, Job1) == MoveCenterDropLeft && AnimationOf(s, Job2) == MoveCenterDropRight)
    ensures AnimationOf(s, Job1) == MoveCenterDropLeft ==> s.selectedJob == Some(Job1) && AnimationOf(s, Job2) == FadeOut
    ensures AnimationOf(s, Job2) == MoveCenterDropRight ==> s.selectedJob == Some(Job2) && AnimationOf(s, Job1) == FadeOut
    ensures s.selectedJob == None ==> AnimationOf(s, Job1) in {SlideInLeft, Still} && AnimationOf(s, Job2) in {SlideInRight, Still}
  {
    if Stages(s.timers) != [] {
      var t := Stages(s.timers)[0];
      assert StageMatches(s, t);
    }
  }

  /**
   * After the callback stage, the card stays locked while its pair stays the
   * same: nothing is pending that could clear `isSubmitting`, and new props for
   * the same pair do not run the reset, so the buttons remain disabled.
   */
  lemma NoRetryAfterFailedSubmit(s: CardState, k: nat, disabled: bool)
    requires CardInvariant(s) && k < |s.timers| && s.timers[k].Commit?
    ensures var after := PropsStep(FireStep(s, k).0, s.job1, s.job2, disabled);
            && after.isSubmitting && ButtonsDisabled(after)
            && after.selectedJob == Some(s.timers[k].job)
            && Stages(after.timers) == []
            && CardInvariant(after)
  {
    FireCommitKeepsInvariant(s, k);
    PropsKeepInvariant(FireStep(s, k).0, s.job1, s.job2, disabled);
  }

  /** The entering timer of a mounted card fires, then a selection of job 1 runs its fade stage. */
  lemma SelectAndFade(j1: JobListing, j2: JobListing)
    ensures FireStep(Mounted(j1, j2, false), 0).0 == CardState(j1, j2, false, None, false, false, false, false, [])
    ensures FireStep(SelectStep(FireStep(Mounted(j1, j2, false), 0).0, Job1), 0).0 ==
            CardState(j1, j2, false, Some(Job1), true, true, false, false, [Move(Job1)])
  {
    assert RemoveAt([EnterDone], 0) == [];
    var s0 := SelectStep(FireStep(Mounted(j1, j2, false), 0).0, Job1);
    assert s0.timers == [Fade(Job1)];
    assert RemoveAt(s0.timers, 0) == [];
  }

  /** The pair changes while the move stage is pending: the flags reset and the move stage stays. */
  lemma StalePairChangeStep(s1: CardState, j3: JobListing, j4: JobListing)
    requires s1.timers == [Move(Job1)] && !s1.disabled
    requires j3 != s1.job1 || j4 != s1.job2
    ensures PropsStep(s1, j3, j4, false) == CardState(j3, j4, false, None, false, false, false, true, [Move(Job1), EnterDone])
  {
    assert WithoutEnter(s1.timers) == [Move(Job1)] by {
      assert WithoutEnter([Move(Job1)]) == [Move(Job1)] + WithoutEnter([]);
    }
  }

  /** The surviving stages move the new pair's first card and report job 1. */
  lemma StaleMoveAndCommit(j3: JobListing, j4: JobListing)
    ensures var s2 := CardState(j3, j4, false, None, false, false, false, true, [Move(Job1), EnterDone]);
            && FireStep(s2, 0).0 == CardState(j3, j4, false, None, false, false, true, true, [EnterDone, Commit(Job1)])
            && FireStep(FireStep(s2, 0).0, 1) == (CardState(j3, j4, false, None, false, false, true, true, [EnterDone]), Some(Job1))
  {
    var s2 := CardState(j3, j4, false, None, false, false, false, true, [Move(Job1), EnterDone]);
    assert RemoveAt(s2.timers, 0) == [EnterDone];
    var s3 := FireStep(s2, 0).0;
    assert s3.timers == [EnterDone, Commit(Job1)];
    assert RemoveAt(s3.timers, 1) == [EnterDone];
  }

  /**
   * A pair change while a selection is in flight: the old selection's stages
   * survive, move the new pair's card although nothing is selected on it, and
   * finally report the old choice for the new pair. The buttons of the new
   * pair are enabled meanwhile.
   */
  lemma StaleSelectionReportsOnNewPair(j1: JobListing, j2: JobListing, j3: JobListing, j4: JobListing)
    requires j3 != j1 || j4 != j2
    ensures var s2 := PropsStep(FireStep(SelectStep(FireStep(Mounted(j1, j2, false), 0).0, Job1), 0).0, j3, j4, false);
            && s2 == CardState(j3, j4, false, None, false, false, false, true, [Move(Job1), EnterDone])
            && !ButtonsDisabled(s2) && !StagedInvariant(s2)
            && FireStep(s2, 0).0 == CardState(j3, j4, false, None, false, false, true, true, [EnterDone, Commit(Job1)])
            && FireStep(FireStep(s2, 0).0, 1) == (CardState(j3, j4, false, None, false, false, true, true, [EnterDone]), Some(Job1))
  {
    SelectAndFade(j1, j2);
    var s1 := FireStep(SelectStep(FireStep(Mounted(j1, j2, false), 0).0, Job1), 0).0;
    StalePairChangeStep(s1, j3, j4);
    var s2 := PropsStep(s1, j3, j4, false);
    assert Stages(s2.timers) == [Move(Job1)] by {
      assert Stages([EnterDone]) == [] + Stages([]);
      assert Stages([Move(Job1)]) == [Move(Job1)] + Stages([]);
      StagesConcat([Move(Job1)], [EnterDone]);
    }
    StaleMoveAndCommit(j3, j4);
  }

  // ---------------------------------------------------------------------------
  // The component
  // ---------------------------------------------------------------------------

  class Card {
    var job1: JobListing
    var job2: JobListing
    var disabled: bool
    var selectedJob: Option<JobNumber>
    var isSubmitting: bool
    var rejectedFaded: bool
    var selectedMoving: bool
    var isEntering: bool
    var timers: seq<CardTimer>

    function State(): CardState
      reads this
    {
      CardState(job1, job2, disabled, selectedJob, isSubmitting, rejectedFaded, selectedMoving,
                isEntering, timers)
    }

    /** Mounting: the initial flags, then the effect's entering timer. */
    constructor (j1: JobListing, j2: JobListing, disabledProp: bool)
      ensures State() == Mounted(j1, j2, disabledProp) && CardInvariant(State())
    {
      job1, job2, disabled := j1, j2, disabledProp;
      selectedJob := None;
      isSubmitting := false;
      rejectedFaded := false;
      selectedMoving := false;
      isEntering := true;
      timers := [EnterDone];
      MountedInvariant(j1, j2, disabledProp);
    }

    /** A re-render with new props; the reset effect runs when the pair differs. */
    method SetProps(j1: JobListing, j2: JobListing, disabledProp: bool)
      modifies this
      ensures State() == PropsStep(old(State()), j1, j2, disabledProp)
    {
      disabled := disabledProp;
      if j1 == job1 && j2 == job2 {
        return;
      }
      ghost var before := State();
      job1, job2 := j1, j2;
      selectedJob := None;
      isSubmitting := false;
      rejectedFaded := false;
      selectedMoving := false;
      isEntering := true;
      timers := WithoutEnter(timers) + [EnterDone];
      assert State() == PairChangeStep(before, j1, j2);
    }

    method HandleSelect(n: JobNumber)
      modifies this
      ensures State() == SelectStep(old(State()), n)
      ensures old(CardInvariant(State()) && !ButtonDisabled()) ==> CardInvariant(State())
    {
      if CardInvariant(State()) && !ButtonDisabled() {
        SelectKeepsInvariant(State(), n);
      }
      selectedJob := Some(n);
      isSubmitting := true;
      timers := timers + [Fade(n)];
    }

    /** Pending timer `k` fires; `emitted` is the job passed to the selection callback, if this was that stage. */
    method Fire(k: nat) returns (emitted: Option<JobNumber>)
      requires k < |timers|
      modifies this
      ensures (State(), emitted) == FireStep(old(State()), k)
      ensures old(CardInvariant(State())) ==> CardInvariant(State())
    {
      if CardInvariant(State()) {
        FireKeepsInvariant(State(), k);
      }
      var timer := timers[k];
      timers := RemoveAt(timers, k);
      emitted := None;
      match timer
      case EnterDone =>
        isEntering := false;
      case Fade(n) =>
        rejectedFaded := true;
        timers := timers + [Move(n)];
      case Move(n) =>
        selectedMoving := true;
        timers := timers + [Commit(n)];
      case Commit(n) =>
        emitted := Some(n);
    }

    function ButtonDisabled(): bool
      reads this
    {
      ButtonsDisabled(State())
    }
  }
}
