/** Every step keeps the device unchanged where nothing is captured or marked yet. */
module TrackingProof {
  import opened Blocks
  import opened BioQueues
  import opened Tracing
  import opened Promises
  import opened Protocol
  import opened Invariants
  import opened ShapeProof

  /** Nothing that was held is dropped, and nothing that was safe to change becomes unsafe. */
  ghost predicate Extends(g: Guard, g': Guard) {
    g'.snap == g.snap && forall b :: (Held(g, b) ==> Held(g', b)) && (Safe(g, b) ==> Safe(g', b))
  }

  lemma {:induction false} BlocksOfSetsAppend(a: seq<SectorSet>, b: seq<SectorSet>)
    ensures BlocksOfSets(a + b) == BlocksOfSets(a) + BlocksOfSets(b)
  {
    if b == [] {
      assert a + b == a;
    } else {
      assert (a + b)[..|a + b| - 1] == a + b[..|b| - 1];
      BlocksOfSetsAppend(a, b[..|b| - 1]);
    }
  }

  lemma BlocksOfSetsHead(sets: seq<SectorSet>)
    requires sets != []
    ensures BlocksOfSets(sets) == BlocksOf(sets[0].sect, sets[0].len) + BlocksOfSets(sets[1..])
  {
    assert sets == [sets[0]] + sets[1..];
    BlocksOfSetsAppend([sets[0]], sets[1..]);
    assert [sets[0]][..0] == [];
  }

  /** Storing the clone in hand changes no block's promise. */
  lemma PromiseStored(g: Guard, e: Entry, queue: seq<Entry>, b: nat)
    requires e.Clone? && g.pending == [e] + queue
    ensures Promise(g.(store := Capture(g.store, e.start, e.pages), pending := queue), b) == Promise(g, b)
  {
  }

  ghost predicate GuardSteps(step: Step) {
    step.TraceStart? || step.QueueClone? || step.ArriveRead? || step.TakeNext? || step.StoreDone? || step.TraceIncrement? || step.MarkSet?
  }

  lemma QueueExtends(s: State, step: Step)
    requires Shape(s) && Enabled(s, step) && !s.failed && (step.QueueClone? || step.ArriveRead?)
    ensures Extends(GuardOf(s), GuardOf(Apply(s, step)))
  {
    hide Capture;
    var p, e := Pending(s.hand, s.queue), if step.QueueClone? then EntryOf(step.c, s.flights[step.c]) else step.r;
    assert Pending(s.hand, s.queue + [e]) == p + [e];
    forall b: nat { WaitingAppend(p, [e], b); }
  }

  /** What waits before and after the head is taken into an idle hand. */
  lemma TakenPending(s: State, step: Step)
    requires Enabled(s, step) && step.TakeNext?
    ensures GuardOf(s).pending == s.queue != []
    ensures var (e, rest) := Dequeue(s.queue);
      GuardOf(Apply(s, step)) == GuardOf(s).(pending := if e.Clone? then [e] + rest else rest)
  {
    hide Dequeue;
    hide BlocksOfSets;
  }

  lemma TakeKeepsHeld(g: Guard, b: nat)
    requires g.pending != [] && Held(g, b)
    ensures var (e, rest) := Dequeue(g.pending); Held(g.(pending := if e.Clone? then [e] + rest else rest), b)
  {
    hide Dequeue;
    hide Waiting;
    if Waiting(g.pending, b).Some? { DequeueKeepsSome(g.pending, b); }
  }

  lemma TakeExtends(s: State, step: Step)
    requires Enabled(s, step) && step.TakeNext?
    ensures Extends(GuardOf(s), GuardOf(Apply(s, step)))
  {
    TakenPending(s, step);
    hide Apply;
    hide Enabled;
    hide GuardOf;
    hide Promise;
    hide Dequeue;
    forall b: nat | Held(GuardOf(s), b) { TakeKeepsHeld(GuardOf(s), b); }
  }

  lemma StoreExtends(s: State, step: Step)
    requires Shape(s) && Enabled(s, step) && !s.failed && step.StoreDone?
    ensures forall b: nat :: Promise(GuardOf(Apply(s, step)), b) == Promise(GuardOf(s), b)
    ensures Extends(GuardOf(s), GuardOf(Apply(s, step)))
  {
    assert [] + s.queue == s.queue;
    forall b: nat { PromiseStored(GuardOf(s), s.hand.e, s.queue, b); }
  }

  lemma MarkExtends(s: State, step: Step)
    requires Shape(s) && Enabled(s, step) && !s.failed && (step.MarkSet? || step.TraceIncrement? || step.TraceStart?)
    ensures Extends(GuardOf(s), GuardOf(Apply(s, step)))
  {
    if step.MarkSet? { BlocksOfSetsHead(s.sets); }
    if step.TraceIncrement? { BlocksOfSetsAppend(s.sets, step.sets); }
  }

  lemma GuardOfPut(s: State, t: nat)
    requires t in s.tps && s.tps[t].refs > 0
    ensures GuardOf(Put(s, t)) == GuardOf(s)
  {
    hide Pending;
    hide BlocksOfSets;
  }

  lemma GuardOfReferences(s: State, step: Step)
    requires Enabled(s, step) && AboutReferences(step)
    ensures GuardOf(Apply(s, step)) == GuardOf(s)
  {
    var (p, t) := BeforePut(s, step);
    GuardOfPut(p, t);
    hide Put;
    hide Pending;
    hide BlocksOfSets;
  }

  lemma GuardOfFlights(s: State, step: Step)
    requires Enabled(s, step) && (step.TraceClone? || step.FetchClone?)
    ensures GuardOf(Apply(s, step)) == GuardOf(s)
  {
    hide Pending;
    hide BlocksOfSets;
  }

  lemma GuardOfRest(s: State, step: Step)
    requires Shape(s) && Enabled(s, step) && !s.failed && !GuardSteps(step) && !step.ToSnapshot? && !Apply(s, step).failed
    requires !AboutReferences(step) && !step.TraceClone? && !step.FetchClone?
    ensures GuardOf(Apply(s, step)) == GuardOf(s)
  {
  }

  lemma GuardKept(s: State, step: Step)
    requires Shape(s) && Enabled(s, step) && !s.failed && !GuardSteps(step) && !step.ToSnapshot? && !Apply(s, step).failed
    ensures GuardOf(Apply(s, step)) == GuardOf(s)
  {
    hide Enabled;
    hide Apply;
    hide Shape;
    hide GuardOf;
    if AboutReferences(step) { GuardOfReferences(s, step); }
    else if step.TraceClone? || step.FetchClone? { GuardOfFlights(s, step); }
    else { GuardOfRest(s, step); }
  }

  lemma GuardExtends(s: State, step: Step)
    requires Shape(s) && Enabled(s, step) && !s.failed && !step.ToSnapshot? && !Apply(s, step).failed
    ensures Extends(GuardOf(s), GuardOf(Apply(s, step)))
  {
    hide Shape;
    hide Enabled;
    hide Apply;
    hide GuardOf;
    if step.QueueClone? || step.ArriveRead? { QueueExtends(s, step); }
    else if step.TakeNext? { TakeExtends(s, step); }
    else if step.StoreDone? { StoreExtends(s, step); }
    else if step.MarkSet? || step.TraceIncrement? || step.TraceStart? { MarkExtends(s, step); }
    else { GuardKept(s, step); }
  }

  // ------------------------------------------------------- what extension keeps

  lemma InvParts(s: State)
    requires Inv(s)
    ensures Shape(s) && Refs(s) && Ledger(s) && Counts(s) && History(s) && (s.failed || Tracked(s))
  {
  }

  lemma TrackedUnder(s: State, g: Guard)
    requires Tracked(s) && Extends(GuardOf(s), g)
    ensures Intact(g, s.base)
    ensures forall t :: t in s.tps ==> TpCovered(g, s.flights, s.tps[t], t)
    ensures forall w :: w in s.origs ==> Covered(g, w)
    ensures forall w :: w in s.writing ==> Covered(g, w)
  {
  }

  /** With its last reference gone, all blocks of a traced write are held. */
  lemma LastReference(g: Guard, tps: map<nat, Tp>, flights: map<nat, Flight>, t: nat)
    requires t in tps && Owed(tps, flights, t) == 0
    requires TpCovered(g, flights, tps[t], t) && tps[t].next == tps[t].w.End()
    ensures forall b :: tps[t].w.First() <= b < tps[t].w.End() ==> Held(g, b)
    ensures Covered(g, tps[t].w)
  {
    assert FlightsOf(flights, t) == {};
    forall b | tps[t].w.First() <= b < tps[t].w.End() ensures Held(g, b) {
      assert forall c :: c in flights ==> c !in FlightsOf(flights, t);
    }
  }

  /** Blocks covered in flight stay so, unless they have come to be held. */
  ghost predicate CarriesOver(g: Guard, flights: map<nat, Flight>, flights': map<nat, Flight>) {
    forall t: nat, b: nat :: InFlight(flights, t, b) ==> InFlight(flights', t, b) || Held(g, b)
  }

  ghost predicate AllInFlight(flights: map<nat, Flight>, f: Flight) {
    forall b: nat :: f.start <= b < f.start + f.count ==> InFlight(flights, f.tp, b)
  }

  lemma FlightReplaced(g: Guard, flights: map<nat, Flight>, c: nat, f: Flight)
    requires c in flights ==> f.tp == flights[c].tp && f.start == flights[c].start && f.count == flights[c].count
    requires f.queued ==> forall b :: f.start <= b < f.start + f.count ==> Held(g, b)
    ensures CarriesOver(g, flights, flights[c := f])
    ensures !f.queued ==> AllInFlight(flights[c := f], f)
  {
    hide Held;
    var flights' := flights[c := f];
    forall t: nat, b: nat | InFlight(flights, t, b) ensures InFlight(flights', t, b) || Held(g, b) {
      var d :| d in flights && flights[d].tp == t && !flights[d].queued && flights[d].start <= b < flights[d].start + flights[d].count;
      assert d in flights' && (d != c ==> flights'[d] == flights[d]);
    }
    forall b: nat | !f.queued && f.start <= b < f.start + f.count ensures InFlight(flights', f.tp, b) {
      assert c in flights' && flights'[c] == f;
    }
  }

  lemma FlightDropped(g: Guard, flights: map<nat, Flight>, c: nat)
    requires c in flights && flights[c].queued
    ensures CarriesOver(g, flights, flights - {c})
  {
    hide Held;
    forall t: nat, b: nat | InFlight(flights, t, b) ensures InFlight(flights - {c}, t, b) {
      var d :| d in flights && flights[d].tp == t && !flights[d].queued && flights[d].start <= b < flights[d].start + flights[d].count;
      assert d in flights - {c};
    }
  }

  lemma TpsCarriedOver(g: Guard, tps: map<nat, Tp>, flights: map<nat, Flight>, flights': map<nat, Flight>)
    requires CarriesOver(g, flights, flights')
    requires forall t :: t in tps ==> TpCovered(g, flights, tps[t], t)
    ensures forall t :: t in tps ==> TpCovered(g, flights', tps[t], t)
  {
  }

  lemma CoveredBy(g: Guard, w: Write)
    requires w.Fits(|g.snap|) && BlocksOf(w.sect, w.Len()) <= g.marks + g.bypassed
    ensures Covered(g, w)
  {
    forall b | w.First() <= b < w.End() ensures Safe(g, b) { assert b in BlocksOf(w.sect, w.Len()); }
  }

  // ----------------------------------------------------------------- the steps

  ghost predicate Plain(step: Step) {
    !step.TraceStart? && !step.TraceClone? && !step.FetchClone? && !step.QueueClone?
    && !step.TraceFinish? && !step.DropClone? && !step.DeviceWrite? && !step.TraceIncrement? && !step.ToSnapshot?
  }

  lemma TrackedElsewhere(s: State, step: Step)
    requires Shape(s) && Tracked(s) && Enabled(s, step) && !s.failed && !Apply(s, step).failed && Plain(step)
    ensures Tracked(Apply(s, step))
  {
    GuardExtends(s, step);
    hide Shape;
    hide GuardOf;
    hide Intact;
    hide TpCovered;
    hide Covered;
    TrackedUnder(s, GuardOf(Apply(s, step)));
  }

  lemma TrackedStart(s: State, step: Step)
    requires Shape(s) && Tracked(s) && Enabled(s, step) && !s.failed && step.TraceStart?
    ensures Tracked(Apply(s, step))
  {
    GuardExtends(s, step);
    var s' := Apply(s, step);
    var g := GuardOf(s');
    if step.w in s'.writing - s.writing { CoveredBy(g, step.w); }
    hide Shape;
    hide GuardOf;
    hide Intact;
    hide Covered;
    hide Safe;
    hide Held;
    hide InFlight;
    TrackedUnder(s, g);
  }

  /** Every block that an incremental write touches is marked, or nothing in it had to be recorded. */
  lemma IncrementCovers(s: State, step: Step)
    requires Enabled(s, step) && step.TraceIncrement?
    ensures var g := GuardOf(Apply(s, step)); BlocksOf(step.w.sect, step.w.Len()) <= g.marks + g.bypassed
  {
    var g := GuardOf(Apply(s, step));
    BlocksOfSetsAppend(s.sets, step.sets);
    hide MustRecord;
    hide SectorsOf;
    hide BlocksOfSets;
    hide Separated;
    forall b | b in BlocksOf(step.w.sect, step.w.Len()) ensures b in g.marks || b in g.bypassed {
      MarkedExactly(step.sets, b);
    }
  }

  lemma TrackedIncrement(s: State, step: Step)
    requires Shape(s) && Tracked(s) && Enabled(s, step) && !s.failed && step.TraceIncrement?
    ensures Tracked(Apply(s, step))
  {
    GuardExtends(s, step);
    var g := GuardOf(Apply(s, step));
    IncrementCovers(s, step);
    CoveredBy(g, step.w);
    hide Shape;
    hide GuardOf;
    hide Intact;
    hide Covered;
    hide TpCovered;
    TrackedUnder(s, g);
  }

  lemma TrackedClone(s: State, step: Step)
    requires Shape(s) && Tracked(s) && Enabled(s, step) && !s.failed && (step.TraceClone? || step.FetchClone?)
    ensures Tracked(Apply(s, step))
  {
    GuardExtends(s, step);
    hide Shape;
    hide GuardOf;
    hide Intact;
    hide Covered;
    hide Safe;
    hide Held;
    hide InFlight;
    var s' := Apply(s, step);
    var g := GuardOf(s');
    TrackedUnder(s, g);
    FlightReplaced(g, s.flights, step.c, s'.flights[step.c]);
    TpsCarriedOver(g, s.tps, s.flights, s'.flights);
  }

  lemma TrackedQueue(s: State, step: Step)
    requires Shape(s) && Tracked(s) && Enabled(s, step) && !s.failed && step.QueueClone?
    ensures Tracked(Apply(s, step))
  {
    GuardExtends(s, step);
    var s' := Apply(s, step);
    var g, f := GuardOf(s'), s.flights[step.c];
    forall b: nat | f.start <= b < f.start + f.count ensures Held(g, b) { QueuedIsHeld(s, step, b); }
    hide Shape;
    hide GuardOf;
    hide Intact;
    hide Covered;
    hide Safe;
    hide Held;
    hide InFlight;
    hide TpCovered;
    TrackedUnder(s, g);
    FlightReplaced(g, s.flights, step.c, s'.flights[step.c]);
    TpsCarriedOver(g, s.tps, s.flights, s'.flights);
  }

  lemma QueuedIsHeld(s: State, step: Step, b: nat)
    requires Enabled(s, step) && step.QueueClone? && s.flights[step.c].start <= b < s.flights[step.c].start + s.flights[step.c].count
    ensures Held(GuardOf(Apply(s, step)), b)
  {
    var e := EntryOf(step.c, s.flights[step.c]);
    assert Pending(s.hand, s.queue + [e]) == Pending(s.hand, s.queue) + [e];
    WaitingAppend(Pending(s.hand, s.queue), [e], b);
    assert e.Covers(b);
  }

  /** After the reference of `t` is dropped, its write is covered if released. */
  lemma TrackedPut(p: State, t: nat)
    requires Tracked(p) && t in p.tps && p.tps[t].refs == Owed(p.tps, p.flights, t) + 1
    requires TpFits(p.tps[t], t, |p.base|)
    ensures Tracked(Put(p, t))
  {
    var s', g := Put(p, t), GuardOf(p);
    assert GuardOf(s') == g;
    if p.tps[t].refs == 1 { LastReference(g, p.tps, p.flights, t); }
    hide GuardOf;
    hide Intact;
    hide Covered;
  }

  /** Just before a reference is dropped its holder is no longer counted, and all is still tracked. */
  lemma TrackedBeforePut(s: State, step: Step)
    requires Shape(s) && Refs(s) && Tracked(s) && Enabled(s, step) && (step.TraceFinish? || step.DropClone?)
    ensures var (p, t) := BeforePut(s, step);
      && GuardOf(p) == GuardOf(s) && Tracked(p) && t in p.tps && TpFits(p.tps[t], t, |p.base|)
      && p.tps[t].refs == Owed(p.tps, p.flights, t) + 1
  {
    var (p, t) := BeforePut(s, step);
    var g := GuardOf(s);
    assert GuardOf(p) == g;
    if step.DropClone? {
      FlightDropped(g, s.flights, step.c);
      FlightsWithout(s.flights, step.c, t);
      TpsCarriedOver(g, s.tps, s.flights, p.flights);
    }
    hide GuardOf;
    hide Intact;
    hide Covered;
    hide Safe;
    hide Held;
    hide InFlight;
    hide FlightsOf;
    assert Tracked(p);
  }

  lemma TrackedPutSteps(s: State, step: Step)
    requires Shape(s) && Refs(s) && Tracked(s) && Enabled(s, step) && (step.TraceFinish? || step.DropClone?)
    ensures Tracked(Apply(s, step))
  {
    var (p, t) := BeforePut(s, step);
    TrackedBeforePut(s, step);
    hide Tracked;
    hide Shape;
    hide Refs;
    hide GuardOf;
    TrackedPut(p, t);
  }

  lemma TrackedWrite(s: State, step: Step)
    requires Shape(s) && Tracked(s) && Enabled(s, step) && !s.failed && step.DeviceWrite?
    ensures Tracked(Apply(s, step))
  {
  }

  lemma TrackedNewSnapshot(s: State, step: Step)
    requires Shape(s) && Enabled(s, step) && step.ToSnapshot?
    ensures Tracked(Apply(s, step))
  {
  }

  /** The fail code is never cleared, and a lost clone is never found again. */
  lemma FailedStays(s: State, step: Step)
    requires Enabled(s, step) && s.failed
    ensures Apply(s, step).failed && Apply(s, step).counts.lost >= s.counts.lost
  {
    hide Enabled;
    hide Apply;
    if AboutReferences(step) { ReferencesFrame(s, step); }
    else if AboutQueue(step) { QueueFrame(s, step); }
    else { FailedElsewhere(s, step); }
  }

  lemma FailedElsewhere(s: State, step: Step)
    requires Enabled(s, step) && s.failed && !AboutReferences(step) && !AboutQueue(step)
    ensures Apply(s, step).failed && Apply(s, step).counts.lost >= s.counts.lost
  {
    hide BlocksOfSets;
  }

  lemma TrackedKept(s: State, step: Step)
    requires Inv(s) && Enabled(s, step)
    ensures Apply(s, step).failed || Tracked(Apply(s, step))
  {
    hide Apply;
    hide Enabled;
    hide Inv;
    hide Tracked;
    hide Shape;
    hide Refs;
    InvParts(s);
    if s.failed { FailedStays(s, step); }
    else if Apply(s, step).failed { }
    else if step.TraceStart? { TrackedStart(s, step); }
    else if step.TraceIncrement? { TrackedIncrement(s, step); }
    else if step.TraceClone? || step.FetchClone? { TrackedClone(s, step); }
    else if step.QueueClone? { TrackedQueue(s, step); }
    else if step.TraceFinish? || step.DropClone? { TrackedPutSteps(s, step); }
    else if step.DeviceWrite? { TrackedWrite(s, step); }
    else if step.ToSnapshot? { TrackedNewSnapshot(s, step); }
    else { TrackedElsewhere(s, step); }
  }
}
