/** What becomes of every read of the snapshot device. */
module Reads {
  import opened Blocks
  import opened BioQueues
  import opened Protocol
  import opened Invariants
  import opened ShapeProof
  import opened TrackingProof
  import opened Runs
  import opened Periods

  /** The answer is for this very request, and for all of it. */
  predicate AnswersTo(a: Answer, r: Entry) { r.Read? && a.id == r.id && a.sect == r.sect && |a.data| == 512 * r.len }

  function AnsweringTo(r: Entry): Answer -> bool { (a: Answer) => AnswersTo(a, r) }

  /** A read that completes leaves one answer, to itself, over its full range; no
      other step answers anything. */
  lemma ReadIsAnsweredInFull(s: State, step: Step)
    requires Enabled(s, step) && !step.ToSnapshot?
    ensures step.ReadDone? && !s.failed ==>
      |Apply(s, step).answers| == |s.answers| + 1 && Apply(s, step).answers[..|s.answers|] == s.answers
      && AnswersTo(Apply(s, step).answers[|s.answers|], s.hand.e)
    ensures !(step.ReadDone? && !s.failed) ==> Apply(s, step).answers == s.answers
  {
    hide Enabled;
    hide Apply;
    if step.ReadDone? { DoneAnswers(s); }
    else if AboutReferences(step) { ReferencesFrame(s, step); }
    else if AboutQueue(step) { QueueAnswersNothing(s, step); }
    else { OthersAnswerNothing(s, step); }
  }

  lemma DoneAnswers(s: State)
    requires Enabled(s, ReadDone)
    ensures Apply(s, ReadDone).answers == if s.failed then s.answers else s.answers + [AnswerNow(s)]
    ensures AnswersTo(AnswerNow(s), s.hand.e)
  {
  }

  lemma QueueAnswersNothing(s: State, step: Step)
    requires Enabled(s, step) && AboutQueue(step) && !step.ReadDone?
    ensures Apply(s, step).answers == s.answers
  {
    hide Dequeue;
  }

  ghost predicate ReadsLeft(s: State, z: State) {
    z.answers == s.answers && z.voided == s.voided && z.queue == s.queue && z.hand == s.hand
  }

  lemma OthersAnswerNothing(s: State, step: Step)
    requires Enabled(s, step) && !AboutReferences(step) && !AboutQueue(step) && !step.ToSnapshot?
    ensures ReadsLeft(s, Apply(s, step))
  {
    hide Apply;
    hide Enabled;
    hide ReadsLeft;
    if AboutRequests(step) { RequestsAnswerNothing(s, step); } else { RestAnswersNothing(s, step); }
  }

  lemma RequestsAnswerNothing(s: State, step: Step)
    requires Enabled(s, step) && AboutRequests(step)
    ensures ReadsLeft(s, Apply(s, step))
  {
    hide NeedsCow;
    hide Fetched;
  }

  lemma RestAnswersNothing(s: State, step: Step)
    requires Enabled(s, step) && !AboutReferences(step) && !AboutQueue(step) && !AboutRequests(step) && !step.ToSnapshot?
    ensures ReadsLeft(s, Apply(s, step))
  {
  }

  // -------------------------------------------------------------- conservation

  /** How often request `r` is queued, in hand, answered in full, or ended without an answer. */
  ghost function Standing(s: State, r: Entry): nat {
    multiset(s.queue)[r] + (if s.hand.Answering? && s.hand.e == r then 1 else 0)
    + Count(s.answers, AnsweringTo(r)) + s.voided[r]
  }

  /** How often request `r` arrives in the `i`-th period from now. */
  ghost function Arrivals(steps: seq<Step>, i: nat, r: Entry): nat
    decreases |steps|
  {
    if steps == [] then 0
    else if steps[0].ToSnapshot? then if i > 0 then Arrivals(steps[1..], i - 1, r) else 0
    else (if i == 0 && steps[0] == ArriveRead(r) then 1 else 0) + Arrivals(steps[1..], i, r)
  }

  /** Only a failure ends reads without an answer. */
  ghost predicate Voids(s: State) { !s.failed ==> s.voided == multiset{} }

  lemma VoidsKept(s: State, step: Step)
    requires Voids(s) && Enabled(s, step)
    ensures Voids(Apply(s, step))
  {
    hide Enabled;
    hide Apply;
    if s.failed { if step.ToSnapshot? { NewPeriod(s, step); } else { FailedStays(s, step); } }
    else if step.ToSnapshot? { NewPeriod(s, step); }
    else if AboutReferences(step) { ReferencesFrame(s, step); }
    else if AboutQueue(step) { VoidedByQueue(s, step); }
    else { OthersAnswerNothing(s, step); }
  }

  lemma VoidedByQueue(s: State, step: Step)
    requires Enabled(s, step) && AboutQueue(step) && !s.failed
    ensures Apply(s, step).voided == s.voided || Apply(s, step).failed
  {
    hide Dequeue;
  }

  /** The finished period is archived with its answers, and everything starts anew. */
  lemma NewPeriod(s: State, step: Step)
    requires Enabled(s, step) && step.ToSnapshot?
    ensures var z := Apply(s, step);
      && |z.past.epochs| == |s.past.epochs| + 1 && z.past.epochs[|s.past.epochs|].answers == s.answers
      && z.queue == [] && z.hand == Idle && z.answers == [] && z.voided == multiset{} && !z.failed
    ensures !s.failed && s.queue == [] && s.hand == Idle
  {
  }

  /** Every step but the next snapshot changes how often a request stands exactly by its arrival. */
  lemma StandingStep(s: State, step: Step, r: Entry)
    requires Shape(s) && Enabled(s, step) && !step.ToSnapshot? && r.Read?
    ensures Standing(Apply(s, step), r) == Standing(s, r) + if step == ArriveRead(r) then 1 else 0
  {
    hide Enabled;
    hide Apply;
    hide Shape;
    if AboutReferences(step) { ReferencesFrame(s, step); }
    else if step.TakeNext? { StandingTaken(s, step, r); }
    else if step.ReadDone? { StandingDone(s, r); }
    else if step.QueueClone? || step.ArriveRead? { StandingQueued(s, step, r); }
    else if AboutQueue(step) { StandingInHand(s, step, r); }
    else { OthersAnswerNothing(s, step); }
  }

  lemma StandingTaken(s: State, step: Step, r: Entry)
    requires Enabled(s, step) && step.TakeNext? && r.Read?
    ensures Standing(Apply(s, step), r) == Standing(s, r)
  {
    hide Count;
    DequeueConserves(s.queue);
    hide Dequeue;
  }

  lemma StandingDone(s: State, r: Entry)
    requires Enabled(s, ReadDone) && r.Read?
    ensures Standing(Apply(s, ReadDone), r) == Standing(s, r)
  {
    var z, e := Apply(s, ReadDone), s.hand.e;
    DoneAnswers(s);
    if !s.failed {
      assert z.answers[..|z.answers| - 1] == s.answers;
      assert AnswersTo(AnswerNow(s), r) <==> e == r;
    }
    hide AnswerNow;
  }

  lemma StandingQueued(s: State, step: Step, r: Entry)
    requires Enabled(s, step) && (step.QueueClone? || step.ArriveRead?) && r.Read?
    ensures Standing(Apply(s, step), r) == Standing(s, r) + if step == ArriveRead(r) then 1 else 0
  {
    hide Count;
  }

  lemma StandingInHand(s: State, step: Step, r: Entry)
    requires Shape(s) && Enabled(s, step) && r.Read?
    requires step.StoreDone? || step.StoreError? || step.FetchRead? || step.ReadError?
    ensures Standing(Apply(s, step), r) == Standing(s, r)
  {
    hide Count;
  }

  /** The same for the `n`-th period: of a finished one, only answers are left. */
  ghost function StandingIn(s: State, n: nat, r: Entry): nat
    requires n < PeriodCount(s)
  {
    if n == |s.past.epochs| then Standing(s, r) else Count(s.past.epochs[n].answers, AnsweringTo(r))
  }

  lemma {:induction false} StandingAlong(s: State, steps: seq<Step>, n: nat, r: Entry)
    requires Inv(s) && Voids(s) && Possible(s, steps) && r.Read? && |s.past.epochs| <= n < PeriodCount(After(s, steps))
    ensures StandingIn(After(s, steps), n, r)
      == (if n == |s.past.epochs| then Standing(s, r) else 0) + Arrivals(steps, n - |s.past.epochs|, r)
    ensures Voids(After(s, steps))
    decreases |steps|
  {
    hide Enabled;
    hide Apply;
    hide Inv;
    hide Standing;
    hide Voids;
    hide Count;
    if steps != [] {
      var s1, rest := Apply(s, steps[0]), steps[1..];
      InvParts(s);
      hide Shape;
      InvKept(s, steps[0]);
      VoidsKept(s, steps[0]);
      PastStep(s, steps[0]);
      PastStays(s1, rest);
      if steps[0].ToSnapshot? {
        NewPeriod(s, steps[0]);
        NothingStands(s1, r);
        AllAnswered(s, r);
        if n > |s.past.epochs| { StandingAlong(s1, rest, n, r); } else { VoidsAlong(s1, rest); }
      } else {
        StandingStep(s, steps[0], r);
        StandingAlong(s1, rest, n, r);
      }
    }
  }

  lemma {:induction false} VoidsAlong(s: State, steps: seq<Step>)
    requires Voids(s) && Possible(s, steps)
    ensures Voids(After(s, steps))
    decreases |steps|
  {
    hide Enabled;
    hide Apply;
    hide Voids;
    if steps != [] {
      VoidsKept(s, steps[0]);
      VoidsAlong(Apply(s, steps[0]), steps[1..]);
    }
  }

  lemma NothingStands(s: State, r: Entry)
    requires s.queue == [] && s.hand == Idle && s.answers == [] && s.voided == multiset{}
    ensures Standing(s, r) == 0
  {
  }

  lemma AllAnswered(s: State, r: Entry)
    requires s.queue == [] && s.hand == Idle && !s.failed && Voids(s)
    ensures Standing(s, r) == Count(s.answers, AnsweringTo(r))
  {
  }

  /** In every run, a read of the current period is queued, in hand, answered over
      its full range, or ended without an answer, as often as it arrived; and only
      a failure of the device ends reads without an answer. */
  lemma ReadsAreConserved(base: seq<byte>, seqid: nat, steps: seq<Step>, r: Entry)
    requires |base| % 4096 == 0 && Possible(Init(base, seqid), steps) && r.Read?
    ensures var s := After(Init(base, seqid), steps);
      && Standing(s, r) == Arrivals(steps, |s.past.epochs|, r)
      && (!s.failed ==> s.voided == multiset{})
  {
    hide Possible;
    hide After;
    hide Standing;
    hide Arrivals;
    InvInit(base, seqid);
    hide Inv;
    var s0 := Init(base, seqid);
    NothingStands(s0, r);
    StandingAlong(s0, steps, |After(s0, steps).past.epochs|, r);
  }

  /** Every read of a finished period was answered, in full, exactly as often as it
      arrived in that period, and the answers are on record. */
  lemma FinishedReadsAreAnswered(base: seq<byte>, seqid: nat, steps: seq<Step>, n: nat, r: Entry)
    requires |base| % 4096 == 0 && Possible(Init(base, seqid), steps) && r.Read?
    requires n < |After(Init(base, seqid), steps).past.epochs|
    ensures Count(AnswersIn(After(Init(base, seqid), steps), n), AnsweringTo(r)) == Arrivals(steps, n, r)
  {
    hide Possible;
    hide After;
    hide Standing;
    hide Arrivals;
    InvInit(base, seqid);
    hide Inv;
    var s0 := Init(base, seqid);
    NothingStands(s0, r);
    StandingAlong(s0, steps, n, r);
  }

  // -------------------------------------------------- once a failure is noticed

  /** The COW thread goes on, but captures and answers nothing. */
  ghost predicate Frozen(s: State, z: State) { z.failed && z.noticed && z.store == s.store && z.answers == s.answers }

  lemma FrozenStep(s: State, step: Step)
    requires s.failed && s.noticed && Enabled(s, step)
    ensures Frozen(s, Apply(s, step))
  {
    hide Enabled;
    hide Apply;
    if AboutReferences(step) { ReferencesFrame(s, step); }
    else if AboutQueue(step) { FrozenByQueue(s, step); }
    else { FrozenByRest(s, step); }
  }

  lemma FrozenByQueue(s: State, step: Step)
    requires s.failed && s.noticed && Enabled(s, step) && AboutQueue(step)
    ensures Frozen(s, Apply(s, step))
  {
    hide Dequeue;
    hide Capture;
  }

  lemma FrozenByRest(s: State, step: Step)
    requires s.failed && s.noticed && Enabled(s, step) && !AboutReferences(step) && !AboutQueue(step)
    ensures Frozen(s, Apply(s, step))
  {
  }

  /** Once the COW thread has noticed a failure, no continuation captures another
      block or answers another read. */
  lemma {:induction false} FrozenForGood(s: State, steps: seq<Step>)
    requires s.failed && s.noticed && Possible(s, steps)
    ensures Frozen(s, After(s, steps))
    decreases |steps|
  {
    hide Enabled;
    hide Apply;
    if steps != [] {
      FrozenStep(s, steps[0]);
      FrozenForGood(Apply(s, steps[0]), steps[1..]);
    }
  }
}
