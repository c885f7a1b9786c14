/** When originals are released, and what the request counters tell. */
module Accounting {
  import opened Blocks
  import opened BioQueues
  import opened Tracing
  import opened Protocol
  import opened Invariants
  import opened ShapeProof
  import opened TrackingProof
  import opened Runs

  /** When a step releases an original, it had been traced and never released
      before, none of its clones is left, it joins the queue of originals as it
      came in, and unless the device has failed all its blocks are captured or
      waiting to be captured. */
  lemma ReleaseOrdering(s: State, step: Step, w: Write)
    requires Inv(s) && Enabled(s, step) && Released(Apply(s, step)) == Released(s) + [w]
    ensures w.id in s.tps && s.tps[w.id].w == w == s.traced[w.id] && w !in Released(s) && w.id !in Apply(s, step).tps
    ensures FlightsOf(Apply(s, step).flights, w.id) == {}
    ensures Apply(s, step).origs == s.origs + [w]
    ensures Apply(s, step).failed || forall b :: w.First() <= b < w.End() ==> Held(GuardOf(Apply(s, step)), b)
  {
    InvKept(s, step);
    InvParts(s);
    var s' := Apply(s, step);
    InvParts(s');
    hide Inv;
    hide Shape;
    hide Tracked;
    ReleasedByPut(s, step, w);
    NoFlightsLeft(s', w.id);
    ReleasedIsHeld(s, step, w);
  }

  lemma NoFlightsLeft(s: State, t: nat)
    requires Refs(s) && t !in s.tps
    ensures FlightsOf(s.flights, t) == {}
  {
  }

  /** Only dropping a last reference releases anything. */
  lemma ReleasedByPut(s: State, step: Step, w: Write)
    requires Refs(s) && Ledger(s) && Enabled(s, step) && Released(Apply(s, step)) == Released(s) + [w]
    ensures AboutReferences(step) && w.id == BeforePut(s, step).1
    ensures w.id in s.tps && s.tps[w.id].w == w == s.traced[w.id] && w !in Released(s) && w.id !in Apply(s, step).tps
    ensures Apply(s, step).origs == s.origs + [w]
  {
    hide Refs;
    hide Carried;
    hide Distinct;
    assert |Released(Apply(s, step))| == |Released(s)| + 1;
    if AboutReferences(step) { ReleasedByLast(s, step, w); } else { ReleasesNothing(s, step); }
    hide Apply;
    hide Enabled;
  }

  lemma ReleasedByLast(s: State, step: Step, w: Write)
    requires Enabled(s, step) && AboutReferences(step) && Released(Apply(s, step)) == Released(s) + [w]
    ensures var t := BeforePut(s, step).1;
      t in s.tps && s.tps[t].w == w && Apply(s, step).tps.Keys == s.tps.Keys - {t} && Apply(s, step).origs == s.origs + [w]
  {
    var (p, t) := BeforePut(s, step);
    PutReleases(p, t);
    hide Put;
    assert (Released(s) + [p.tps[t].w])[|Released(s)|] == p.tps[t].w;
    assert (Released(s) + [w])[|Released(s)|] == w;
  }

  lemma PutReleases(s: State, t: nat)
    requires t in s.tps && s.tps[t].refs > 0
    ensures s.tps[t].refs == 1 ==> Put(s, t).tps.Keys == s.tps.Keys - {t} && Put(s, t).origs == s.origs + [s.tps[t].w]
    ensures s.tps[t].refs == 1 ==> Released(Put(s, t)) == Released(s) + [s.tps[t].w]
    ensures s.tps[t].refs > 1 ==> Released(Put(s, t)) == Released(s)
  {
  }

  lemma ReleasesNothing(s: State, step: Step)
    requires Enabled(s, step) && !AboutReferences(step)
    ensures |Released(Apply(s, step))| <= |Released(s)|
  {
    hide BlocksOfSets;
    hide Dequeue;
    hide Capture;
    hide Fetched;
    hide NeedsCow;
  }

  lemma ReleasedIsHeld(s: State, step: Step, w: Write)
    requires Shape(s) && Refs(s) && (s.failed || Tracked(s)) && Enabled(s, step) && AboutReferences(step) && w.id == BeforePut(s, step).1
    requires w.id in s.tps && s.tps[w.id].w == w && w.id !in Apply(s, step).tps
    ensures Apply(s, step).failed || forall b :: w.First() <= b < w.End() ==> Held(GuardOf(Apply(s, step)), b)
  {
    hide Shape;
    hide Refs;
    hide Tracked;
    hide Held;
    hide GuardOf;
    if s.failed { FailedStays(s, step); }
    else if !step.CloneError? { ReleasedHeld(s, step); }
  }

  lemma ReleasedHeld(s: State, step: Step)
    requires Shape(s) && Refs(s) && Tracked(s) && Enabled(s, step) && (step.TraceFinish? || step.DropClone?)
    requires BeforePut(s, step).1 !in Apply(s, step).tps
    ensures var (p, t) := BeforePut(s, step);
      t in s.tps && forall b :: s.tps[t].w.First() <= b < s.tps[t].w.End() ==> Held(GuardOf(Apply(s, step)), b)
  {
    GuardOfReferences(s, step);
    TrackedBeforePut(s, step);
    var (p, t) := BeforePut(s, step);
    assert Apply(s, step) == Put(p, t);
    hide Apply;
    hide Enabled;
    hide Shape;
    hide Refs;
    hide GuardOf;
    NothingOwed(p, t);
    hide FlightsOf;
    hide Tracked;
    LastReference(GuardOf(s), p.tps, p.flights, t);
  }

  lemma NothingOwed(p: State, t: nat)
    requires Tracked(p) && t in p.tps && TpFits(p.tps[t], t, |p.base|)
    requires p.tps[t].refs == Owed(p.tps, p.flights, t) + 1 && t !in Put(p, t).tps
    ensures Owed(p.tps, p.flights, t) == 0
    ensures TpCovered(GuardOf(p), p.flights, p.tps[t], t) && p.tps[t].next == p.tps[t].w.End()
  {
  }

  // ------------------------------------------------------ traced exactly once

  /** A write that needs its old contents kept is given a record. */
  ghost predicate Traces(step: Step, w: Write) {
    step.TraceStart? && step.w == w && NeedsCow(step.segs, step.kind, step.cowOnDevice)
  }

  /** No other step gives a write a record. */
  lemma TracedStep(s: State, step: Step)
    requires Enabled(s, step)
    ensures Apply(s, step).traced ==
      if step.TraceStart? && NeedsCow(step.segs, step.kind, step.cowOnDevice) then s.traced[step.w.id := step.w] else s.traced
  {
    hide Enabled;
    hide Apply;
    if AboutReferences(step) { ReferencesFrame(s, step); }
    else if AboutQueue(step) { QueueFrame(s, step); }
    else { TracedByRest(s, step); }
  }

  lemma TracedByRest(s: State, step: Step)
    requires Enabled(s, step) && !AboutReferences(step) && !AboutQueue(step)
    ensures Apply(s, step).traced ==
      if step.TraceStart? && NeedsCow(step.segs, step.kind, step.cowOnDevice) then s.traced[step.w.id := step.w] else s.traced
  {
    hide BlocksOfSets;
  }

  lemma KnownIsNotFresh(s: State, step: Step, t: nat)
    requires Ledger(s) && Enabled(s, step) && t in s.traced && step.TraceStart?
    ensures step.w.id != t
  {
  }

  lemma {:induction false} TracedStays(s: State, steps: seq<Step>, t: nat)
    requires Inv(s) && Possible(s, steps) && t in s.traced
    ensures t in After(s, steps).traced && After(s, steps).traced[t] == s.traced[t]
    decreases |steps|
  {
    hide Inv;
    hide Apply;
    hide Enabled;
    hide NeedsCow;
    if steps != [] {
      TracedStep(s, steps[0]);
      InvParts(s);
      if steps[0].TraceStart? { KnownIsNotFresh(s, steps[0], t); }
      InvKept(s, steps[0]);
      TracedStays(Apply(s, steps[0]), steps[1..], t);
    }
  }

  lemma {:induction false} TracedByStep(s: State, steps: seq<Step>, j: nat, w: Write)
    requires Inv(s) && Possible(s, steps) && j < |steps| && Traces(steps[j], w)
    ensures w.id in After(s, steps).traced && After(s, steps).traced[w.id] == w
    decreases |steps|
  {
    hide Inv;
    hide Apply;
    hide Enabled;
    hide NeedsCow;
    var s1 := Apply(s, steps[0]);
    InvKept(s, steps[0]);
    TracedStep(s, steps[0]);
    if j == 0 {
      TracedStays(s1, steps[1..], w.id);
    } else {
      TracedByStep(s1, steps[1..], j - 1, w);
    }
  }

  lemma {:induction false} Once(ws: seq<Write>, w: Write)
    requires Distinct(ws)
    ensures multiset(ws)[w] == if w in ws then 1 else 0
  {
    if ws != [] {
      var n := |ws| - 1;
      assert ws == ws[..n] + [ws[n]];
      Once(ws[..n], w);
    }
  }

  /** How often a write stands in the queue of originals, is at the device, or was completed. */
  ghost function Places(s: State, w: Write): nat {
    multiset(s.origs)[w] + (if w in s.writing then 1 else 0) + (if w in s.finished then 1 else 0)
  }

  lemma OncePlaced(s: State, w: Write)
    requires Ledger(s) && w.id in s.traced && s.traced[w.id] == w
    ensures multiset(Released(s))[w] == Places(s, w) == if w.id in s.tps then 0 else 1
  {
    Once(Released(s), w);
    assert multiset(Released(s)) == multiset(s.sent) + multiset(s.origs);
    assert forall i :: 0 <= i < |s.sent| ==> Released(s)[i] == s.sent[i];
    Once(s.sent, w);
  }

  /** In every run, a write that was traced either still has its record, unchanged,
      and has not been released, or it has none and was put on the queue of
      originals exactly once, with the data it came in with; and then it is in
      exactly one place: on that queue, at the device, or completed. */
  lemma TracedWritesAreReleasedOnce(base: seq<byte>, seqid: nat, steps: seq<Step>, j: nat, w: Write)
    requires |base| % 4096 == 0 && Possible(Init(base, seqid), steps) && j < |steps| && Traces(steps[j], w)
    ensures var s := After(Init(base, seqid), steps);
      && (w.id in s.tps ==> s.tps[w.id].w == w)
      && multiset(Released(s))[w] == Places(s, w) == if w.id in s.tps then 0 else 1
  {
    hide Possible;
    hide After;
    hide Traces;
    hide Places;
    InvInit(base, seqid);
    TracedByStep(Init(base, seqid), steps, j, w);
    ReachableInv(base, seqid, steps);
    hide Shape;
    hide Refs;
    hide Counts;
    hide History;
    hide Tracked;
    OncePlaced(After(Init(base, seqid), steps), w);
  }

  /** Once no clone is in flight and no write is still being cut into clones,
      every traced write has been released. */
  lemma NothingIsHeldBack(base: seq<byte>, seqid: nat, steps: seq<Step>, j: nat, w: Write)
    requires |base| % 4096 == 0 && Possible(Init(base, seqid), steps) && j < |steps| && Traces(steps[j], w)
    requires var s := After(Init(base, seqid), steps); s.flights == map[] && forall t :: t in s.tps ==> !s.tps[t].tracing
    ensures multiset(Released(After(Init(base, seqid), steps)))[w] == 1
  {
    hide Possible;
    hide After;
    hide Traces;
    hide Places;
    TracedWritesAreReleasedOnce(base, seqid, steps, j, w);
    ReachableInv(base, seqid, steps);
    hide Shape;
    hide Ledger;
    hide Counts;
    hide History;
    hide Tracked;
    var s := After(Init(base, seqid), steps);
    assert FlightsOf(s.flights, w.id) == {};
  }

  /** And the other way round: only traced writes are ever released. */
  lemma OnlyTracedAreReleased(base: seq<byte>, seqid: nat, steps: seq<Step>, w: Write)
    requires |base| % 4096 == 0 && Possible(Init(base, seqid), steps) && w in Released(After(Init(base, seqid), steps))
    ensures exists j :: 0 <= j < |steps| && Traces(steps[j], w)
  {
    InvInit(base, seqid);
    ReachableInv(base, seqid, steps);
    hide Shape;
    hide Refs;
    hide Counts;
    hide History;
    hide Tracked;
    hide Traces;
    var j := TracedBecause(Init(base, seqid), steps, w);
  }

  lemma {:induction false} TracedBecause(s: State, steps: seq<Step>, w: Write) returns (j: nat)
    requires Possible(s, steps) && w.id !in s.traced && w.id in After(s, steps).traced && After(s, steps).traced[w.id] == w
    requires Inv(s)
    ensures j < |steps| && Traces(steps[j], w)
    decreases |steps|
  {
    hide Inv;
    hide Enabled;
    hide NeedsCow;
    var s1 := Apply(s, steps[0]);
    hide Apply;
    InvKept(s, steps[0]);
    TracedStep(s, steps[0]);
    if w.id in s1.traced {
      TracedStays(s1, steps[1..], w.id);
      j := 0;
    } else {
      j := TracedBecause(s1, steps[1..], w);
      j := j + 1;
    }
  }

  // ----------------------------------------------------------- every write

  /** Any write that arrives, to be traced, recorded, or just passed on. */
  ghost predicate Arrives(step: Step, w: Write) {
    (step.TraceStart? || step.TraceIncrement? || step.Passthrough?) && step.w == w
  }

  /** In how many places write `w` is: held in a record, queued, at the device, completed. */
  ghost function Whereabouts(s: State, w: Write): nat {
    (if w.id in s.tps && s.tps[w.id].w == w then 1 else 0) + Places(s, w)
  }

  /** A write that was passed on without a record. */
  ghost predicate Afloat(s: State, w: Write) { w.id !in s.traced && (w in s.writing || w in s.finished) }

  lemma AfloatStep(s: State, step: Step, w: Write)
    requires Ledger(s) && Enabled(s, step) && Afloat(s, w)
    ensures Afloat(Apply(s, step), w)
  {
    hide Enabled;
    hide Apply;
    hide Entered;
    TracedStep(s, step);
    if AboutReferences(step) { ReferencesFrame(s, step); }
    else if AboutQueue(step) { QueueFrame(s, step); }
    else { AfloatElsewhere(s, step, w); }
  }

  lemma AfloatElsewhere(s: State, step: Step, w: Write)
    requires Enabled(s, step) && !AboutReferences(step) && !AboutQueue(step) && (w in s.writing || w in s.finished)
    ensures w in Apply(s, step).writing || w in Apply(s, step).finished
    ensures step.TraceStart? ==> step.w.id !in s.ids
  {
    hide BlocksOfSets;
  }

  lemma {:induction false} AfloatAlways(s: State, steps: seq<Step>, w: Write)
    requires Inv(s) && Possible(s, steps) && Afloat(s, w)
    ensures Afloat(After(s, steps), w)
    decreases |steps|
  {
    hide Inv;
    hide Apply;
    hide Enabled;
    hide Afloat;
    if steps != [] {
      InvParts(s);
      hide Ledger;
      AfloatStep(s, steps[0], w);
      InvKept(s, steps[0]);
      AfloatAlways(Apply(s, steps[0]), steps[1..], w);
    }
  }

  lemma PassedOn(s: State, step: Step, w: Write)
    requires Ledger(s) && Enabled(s, step) && Arrives(step, w) && !Traces(step, w)
    ensures Afloat(Apply(s, step), w)
  {
    assert w.id !in s.traced;
    hide Ledger;
    hide Carries;
    hide Unrecorded;
  }

  lemma {:induction false} PassedOnStays(s: State, steps: seq<Step>, j: nat, w: Write)
    requires Inv(s) && Possible(s, steps) && j < |steps| && Arrives(steps[j], w) && !Traces(steps[j], w)
    ensures Afloat(After(s, steps), w)
    decreases |steps|
  {
    hide Inv;
    hide Apply;
    hide Enabled;
    hide Afloat;
    hide Arrives;
    hide Traces;
    InvParts(s);
    hide Ledger;
    InvKept(s, steps[0]);
    if j == 0 {
      PassedOn(s, steps[0], w);
      AfloatAlways(Apply(s, steps[0]), steps[1..], w);
    } else {
      PassedOnStays(Apply(s, steps[0]), steps[1..], j - 1, w);
    }
  }

  lemma AfloatOnce(s: State, w: Write)
    requires Ledger(s) && Afloat(s, w)
    ensures Whereabouts(s, w) == 1
  {
    assert forall o :: o in s.origs ==> o in Released(s);
  }

  /** In every run, a write that has arrived, traced or not, is in exactly one place:
      none is lost, and none is carried out twice. */
  lemma WritesAreConserved(base: seq<byte>, seqid: nat, steps: seq<Step>, j: nat, w: Write)
    requires |base| % 4096 == 0 && Possible(Init(base, seqid), steps) && j < |steps| && Arrives(steps[j], w)
    ensures Whereabouts(After(Init(base, seqid), steps), w) == 1
  {
    hide Possible;
    hide After;
    hide Arrives;
    hide Traces;
    hide Places;
    InvInit(base, seqid);
    if Traces(steps[j], w) {
      TracedWritesAreReleasedOnce(base, seqid, steps, j, w);
    } else {
      PassedOnStays(Init(base, seqid), steps, j, w);
      ReachableInv(base, seqid, steps);
      InvParts(After(Init(base, seqid), steps));
      hide Inv;
      hide Ledger;
      hide Afloat;
      AfloatOnce(After(Init(base, seqid), steps), w);
    }
  }

  // ----------------------------------------------------------------- the clones

  /** Every clone submitted is being read, queued, in hand, processed or lost to
      a read error; so equal counters mean that none is outstanding. */
  lemma CloneConservation(base: seq<byte>, seqid: nat, steps: seq<Step>)
    requires |base| % 4096 == 0 && Possible(Init(base, seqid), steps)
    ensures var s := After(Init(base, seqid), steps);
      && s.counts.submitted == |Unqueued(s.flights)| + Count(s.queue, IsClone)
           + (if s.hand.Storing? then 1 else 0) + s.counts.processed + s.counts.lost
      && (s.counts.submitted == s.counts.processed ==>
            s.counts.lost == 0 && !s.hand.Storing?
            && (forall c :: c in s.flights ==> s.flights[c].queued) && forall e :: e in s.queue ==> e.Read?)
  {
    ReachableInv(base, seqid, steps);
    var s := After(Init(base, seqid), steps);
    hide Shape;
    hide Refs;
    hide History;
    hide Tracked;
    if s.counts.submitted == s.counts.processed {
      assert Unqueued(s.flights) == {};
      forall c | c in s.flights ensures s.flights[c].queued { assert c !in Unqueued(s.flights); }
      NoClones(s.queue);
    }
  }

  lemma {:induction false} NoClones(q: seq<Entry>)
    requires Count(q, IsClone) == 0
    ensures forall e :: e in q ==> e.Read?
  {
    if q != [] {
      NoClones(q[..|q| - 1]);
      assert q == q[..|q| - 1] + [q[|q| - 1]];
    }
  }

  /** The COW thread may stop when nothing is queued and as many clones were
      received as submitted: that is so exactly if no clone is being read and
      none was ever lost.  After one read error the thread can never stop. */
  lemma ThreadMayStop(base: seq<byte>, seqid: nat, steps: seq<Step>)
    requires |base| % 4096 == 0 && Possible(Init(base, seqid), steps)
    ensures var s := After(Init(base, seqid), steps);
      s.counts.submitted == s.counts.received <==> s.counts.lost == 0 && forall c :: c in s.flights ==> s.flights[c].queued
  {
    ReachableInv(base, seqid, steps);
    var s := After(Init(base, seqid), steps);
    hide Shape;
    hide Refs;
    hide History;
    hide Tracked;
    assert (forall c :: c in s.flights ==> s.flights[c].queued) ==> Unqueued(s.flights) == {};
    if Unqueued(s.flights) == {} {
      forall c | c in s.flights ensures s.flights[c].queued { assert c !in Unqueued(s.flights); }
    }
  }

  lemma {:induction false} LostForever(s: State, steps: seq<Step>)
    requires Inv(s) && s.failed && s.counts.lost > 0 && Possible(s, steps)
    ensures After(s, steps).counts.submitted != After(s, steps).counts.received
    decreases |steps|
  {
    hide Inv;
    hide Apply;
    hide Enabled;
    if steps == [] {
      InvParts(s);
    } else {
      InvKept(s, steps[0]);
      FailedStays(s, steps[0]);
      LostForever(Apply(s, steps[0]), steps[1..]);
    }
  }

  lemma ErrorLoses(s: State, c: nat)
    requires Enabled(s, CloneError(c))
    ensures Apply(s, CloneError(c)).failed && Apply(s, CloneError(c)).counts.lost > 0
  {
  }

  /** Once reading for a clone fails, no continuation ever lets the COW thread
      stop: the counters never agree again. */
  lemma StuckAfterReadError(s: State, c: nat, steps: seq<Step>)
    requires Inv(s) && Enabled(s, CloneError(c)) && Possible(Apply(s, CloneError(c)), steps)
    ensures var z := After(Apply(s, CloneError(c)), steps); z.counts.submitted != z.counts.received
  {
    ErrorLoses(s, c);
    InvKept(s, CloneError(c));
    hide Inv;
    hide Enabled;
    hide Apply;
    LostForever(Apply(s, CloneError(c)), steps);
  }
}
