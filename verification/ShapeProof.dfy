/** Every step keeps requests well formed, references counted and requests accounted for. */
module ShapeProof {
  import opened Blocks
  import opened BioQueues
  import opened Tracing
  import opened Protocol
  import opened Invariants

  lemma DequeueElements(q: seq<Entry>)
    requires q != []
    ensures Dequeue(q).0 in q
    ensures forall e :: e in Dequeue(q).1 ==> e in q
  {
  }

  /** Shape of a state that differs only in records, flights and released requests. */
  lemma ShapeOfPut(s: State, t: nat)
    requires Shape(s) && t in s.tps && s.tps[t].refs > 0
    ensures Shape(Put(s, t))
  {
    hide EntriesFit;
    hide HandFits;
    hide FlightsFit;
    hide StoreFits;
    hide WritesFit;
    assert TpFits(s.tps[t], t, |s.base|);
  }

  ghost predicate AboutRequests(step: Step) { step.TraceStart? || step.TraceClone? || step.FetchClone? }

  ghost predicate AboutReferences(step: Step) { step.TraceFinish? || step.DropClone? || step.CloneError? }

  ghost predicate AboutQueue(step: Step) {
    step.QueueClone? || step.TakeNext? || step.StoreDone? || step.StoreError?
    || step.ArriveRead? || step.FetchRead? || step.ReadDone? || step.ReadError?
  }

  ghost predicate AboutHand(step: Step) { step.StoreDone? || step.StoreError? || step.FetchRead? || step.ReadDone? || step.ReadError? }

  /** The state in which a step drops its reference, and which one it is. */
  ghost function BeforePut(s: State, step: Step): (State, nat)
    requires Enabled(s, step) && AboutReferences(step)
  {
    match step
    case TraceFinish(t) => (s.(tps := s.tps[t := s.tps[t].(tracing := false)]), t)
    case DropClone(c) => (s.(flights := s.flights - {c}), s.flights[c].tp)
    case CloneError(c) => (s.(flights := s.flights - {c}, failed := true, counts := s.counts.(lost := s.counts.lost + 1)), s.flights[c].tp)
  }

  // What groups of steps leave alone.

  lemma PutFrame(s: State, t: nat)
    requires t in s.tps && s.tps[t].refs > 0
    ensures var z := Put(s, t); z == s.(tps := z.tps, origs := z.origs)
  {
  }

  lemma ReferencesFrame(s: State, step: Step)
    requires Enabled(s, step) && AboutReferences(step)
    ensures var z := Apply(s, step); z == s.(tps := z.tps, flights := z.flights, origs := z.origs, failed := z.failed, counts := z.counts)
    ensures (s.failed ==> Apply(s, step).failed) && Apply(s, step).counts.lost >= s.counts.lost
  {
    var (p, t) := BeforePut(s, step);
    PutFrame(p, t);
    hide Put;
  }

  lemma QueueFrame(s: State, step: Step)
    requires Enabled(s, step) && AboutQueue(step)
    ensures var z := Apply(s, step);
      z == s.(flights := z.flights, queue := z.queue, hand := z.hand, store := z.store, failed := z.failed, noticed := z.noticed,
              counts := z.counts, answers := z.answers, voided := z.voided)
    ensures (s.failed ==> Apply(s, step).failed) && Apply(s, step).counts.lost == s.counts.lost
  {
    hide Apply;
    hide Enabled;
    if AboutHand(step) { HandFrame(s, step); } else { ListFrame(s, step); }
  }

  lemma HandFrame(s: State, step: Step)
    requires Enabled(s, step) && AboutHand(step)
    ensures var z := Apply(s, step);
      z == s.(hand := z.hand, store := z.store, failed := z.failed, counts := z.counts, answers := z.answers, voided := z.voided)
    ensures (s.failed ==> Apply(s, step).failed) && Apply(s, step).counts.lost == s.counts.lost
  {
    hide Capture;
    hide AnswerNow;
  }

  lemma ListFrame(s: State, step: Step)
    requires Enabled(s, step) && AboutQueue(step) && !AboutHand(step)
    ensures var z := Apply(s, step);
      z == s.(flights := z.flights, queue := z.queue, hand := z.hand, noticed := z.noticed, counts := z.counts)
    ensures Apply(s, step).counts.lost == s.counts.lost
  {
    hide Dequeue;
    hide EntryOf;
  }

  lemma ShapeOfStart(s: State, step: Step)
    requires Shape(s) && Enabled(s, step) && step.TraceStart?
    ensures Shape(Apply(s, step))
  {
    hide EntriesFit;
    hide HandFits;
    hide StoreFits;
    hide OrigsFit;
    hide FlightsFit;
    hide NeedsCow;
    hide Carries;
  }

  lemma ShapeOfClone(s: State, step: Step)
    requires Shape(s) && Enabled(s, step) && step.TraceClone?
    ensures Shape(Apply(s, step))
  {
    hide EntriesFit;
    hide HandFits;
    hide StoreFits;
    hide OrigsFit;
    hide WritesFit;
    assert TpFits(s.tps[step.t], step.t, |s.base|);
  }

  lemma ShapeOfFetch(s: State, step: Step)
    requires Shape(s) && Enabled(s, step) && step.FetchClone?
    ensures Shape(Apply(s, step))
  {
  }

  lemma ShapeOfReferences(s: State, step: Step)
    requires Shape(s) && Enabled(s, step) && AboutReferences(step)
    ensures Shape(Apply(s, step))
  {
    hide BlocksOfSets;
    var (p, t) := BeforePut(s, step);
    ShapeOfPut(p, t);
  }

  lemma ShapeOfQueue(s: State, step: Step)
    requires Shape(s) && Enabled(s, step) && AboutQueue(step) && !AboutHand(step)
    ensures Shape(Apply(s, step))
  {
    hide Dequeue;
    hide TpsFit;
    hide OrigsFit;
    hide WritesFit;
    hide StoreFits;
    if step.TakeNext? { DequeueElements(s.queue); }
  }

  lemma ShapeOfHand(s: State, step: Step)
    requires Shape(s) && Enabled(s, step) && AboutHand(step)
    ensures Shape(Apply(s, step))
  {
    hide EntriesFit;
    hide TpsFit;
    hide FlightsFit;
    hide OrigsFit;
    hide WritesFit;
  }

  lemma ShapeOfRest(s: State, step: Step)
    requires Shape(s) && Refs(s) && Enabled(s, step) && !AboutQueue(step) && !AboutRequests(step) && !AboutReferences(step)
    ensures Shape(Apply(s, step))
  {
  }

  lemma ShapeKept(s: State, step: Step)
    requires Shape(s) && Refs(s) && Enabled(s, step)
    ensures Shape(Apply(s, step))
  {
    hide Apply;
    hide Enabled;
    hide Shape;
    if AboutHand(step) { ShapeOfHand(s, step); }
    else if AboutQueue(step) { ShapeOfQueue(s, step); }
    else if step.FetchClone? { ShapeOfFetch(s, step); }
    else if step.TraceStart? { ShapeOfStart(s, step); }
    else if step.TraceClone? { ShapeOfClone(s, step); }
    else if AboutReferences(step) { ShapeOfReferences(s, step); }
    else { ShapeOfRest(s, step); }
  }

  // ---------------------------------------------------------- reference counts

  /** Dropping a reference that is still counted in excess makes counts exact again. */
  lemma PutKeepsRefs(s: State, t: nat)
    requires t in s.tps && s.tps[t].refs == Owed(s.tps, s.flights, t) + 1
    requires forall u :: u in s.tps && u != t ==> s.tps[u].refs == Owed(s.tps, s.flights, u) && s.tps[u].refs > 0
    requires FlightsOwned(s.tps, s.flights)
    ensures Refs(Put(s, t))
  {
    if s.tps[t].refs == 1 {
      assert FlightsOf(s.flights, t) == {};
      forall c | c in s.flights ensures s.flights[c].tp != t { assert c !in FlightsOf(s.flights, t); }
    }
  }

  lemma FlightsWithout(flights: map<nat, Flight>, c: nat, u: nat)
    requires c in flights
    ensures FlightsOf(flights - {c}, u) == FlightsOf(flights, u) - {c}
    ensures |FlightsOf(flights, u)| == |FlightsOf(flights - {c}, u)| + if flights[c].tp == u then 1 else 0
  {
  }

  lemma FlightsChanged(flights: map<nat, Flight>, c: nat, f: Flight, u: nat)
    ensures c in flights && flights[c].tp == f.tp ==> FlightsOf(flights[c := f], u) == FlightsOf(flights, u)
    ensures c !in flights ==> |FlightsOf(flights[c := f], u)| == |FlightsOf(flights, u)| + if f.tp == u then 1 else 0
  {
    if c !in flights {
      if f.tp == u { assert FlightsOf(flights[c := f], u) == FlightsOf(flights, u) + {c}; }
      else { assert FlightsOf(flights[c := f], u) == FlightsOf(flights, u); }
    }
  }

  lemma RefsOfReferences(s: State, step: Step)
    requires Refs(s) && Enabled(s, step) && AboutReferences(step)
    ensures Refs(Apply(s, step))
  {
    hide FlightsOf;
    var (p, t) := BeforePut(s, step);
    if !step.TraceFinish? {
      forall u { FlightsWithout(s.flights, step.c, u); }
    }
    PutKeepsRefs(p, t);
  }

  lemma RefsOfStart(s: State, step: Step)
    requires Refs(s) && Ledger(s) && Enabled(s, step) && step.TraceStart?
    ensures Refs(Apply(s, step))
  {
    NotTracedYet(s, step);
    hide Ledger;
    hide NeedsCow;
    hide Carries;
    assert FlightsOf(s.flights, step.w.id) == {};
  }

  lemma NotTracedYet(s: State, step: Step)
    requires Ledger(s) && Enabled(s, step) && step.TraceStart?
    ensures step.w.id !in s.tps
  {
  }

  lemma RefsOfClone(s: State, step: Step)
    requires Refs(s) && Enabled(s, step) && step.TraceClone?
    ensures Refs(Apply(s, step))
  {
    hide FlightsOf;
    var f := Flight(step.t, s.tps[step.t].next, step.n, map[], false);
    forall u { FlightsChanged(s.flights, step.c, f, u); }
  }

  lemma RefsOfProgress(s: State, step: Step)
    requires Refs(s) && Enabled(s, step) && (step.FetchClone? || step.QueueClone?)
    ensures Refs(Apply(s, step))
  {
    forall u { FlightsChanged(s.flights, step.c, Apply(s, step).flights[step.c], u); }
  }

  lemma RefsOfRest(s: State, step: Step)
    requires Refs(s) && Enabled(s, step) && !AboutRequests(step) && !AboutReferences(step) && !step.QueueClone?
    ensures Refs(Apply(s, step))
  {
  }

  lemma RefsKept(s: State, step: Step)
    requires Refs(s) && Ledger(s) && Enabled(s, step)
    ensures Refs(Apply(s, step))
  {
    hide Apply;
    hide Enabled;
    hide Refs;
    hide Ledger;
    if AboutReferences(step) { RefsOfReferences(s, step); }
    else if step.TraceStart? { RefsOfStart(s, step); }
    else if step.TraceClone? { RefsOfClone(s, step); }
    else if step.FetchClone? || step.QueueClone? { RefsOfProgress(s, step); }
    else { RefsOfRest(s, step); }
  }

  // -------------------------------------------------- where traced writes are

  lemma EnteredStart(tps: map<nat, Tp>, traced: map<nat, Write>, released: seq<Write>, ids: set<nat>, tp: Tp)
    requires Entered(tps, traced, released, ids) && tp.w.id !in ids
    ensures Entered(tps[tp.w.id := tp], traced[tp.w.id := tp.w], released, ids + {tp.w.id})
  {
  }

  lemma EnteredMore(tps: map<nat, Tp>, traced: map<nat, Write>, released: seq<Write>, ids: set<nat>, id: nat)
    requires Entered(tps, traced, released, ids)
    ensures Entered(tps, traced, released, ids + {id})
  {
  }

  lemma EnteredChanged(tps: map<nat, Tp>, traced: map<nat, Write>, released: seq<Write>, ids: set<nat>, t: nat, tp: Tp)
    requires Entered(tps, traced, released, ids) && t in tps && tp.w == tps[t].w
    ensures Entered(tps[t := tp], traced, released, ids)
  {
  }

  /** Dropping the last reference moves a write from its record to the released ones. */
  lemma EnteredPut(tps: map<nat, Tp>, traced: map<nat, Write>, released: seq<Write>, ids: set<nat>, t: nat)
    requires Entered(tps, traced, released, ids) && t in tps
    ensures Entered(tps - {t}, traced, released + [tps[t].w], ids)
  {
    assert forall w :: w in released + [tps[t].w] <==> w in released || w == tps[t].w;
  }

  lemma CarriedStart(sent: seq<Write>, writing: set<Write>, finished: set<Write>, traced: map<nat, Write>, ids: set<nat>, w: Write)
    requires Carried(sent, writing, finished, traced, ids) && w.id !in ids
    ensures Carried(sent, writing, finished, traced[w.id := w], ids + {w.id})
  {
  }

  /** A write that is not traced goes to the device at once. */
  lemma CarriedMore(sent: seq<Write>, writing: set<Write>, finished: set<Write>, traced: map<nat, Write>, ids: set<nat>, w: Write)
    requires Carried(sent, writing, finished, traced, ids) && w.id !in ids && w.id !in traced
    ensures Carried(sent, writing + {w}, finished, traced, ids + {w.id})
  {
  }

  lemma LedgerOfPut(s: State, t: nat)
    requires Ledger(s) && t in s.tps && s.tps[t].refs > 0
    ensures Ledger(Put(s, t))
  {
    hide Entered;
    hide Carried;
    if s.tps[t].refs == 1 {
      EnteredPut(s.tps, s.traced, Released(s), s.ids, t);
      assert Released(Put(s, t)) == Released(s) + [s.tps[t].w];
    } else {
      EnteredChanged(s.tps, s.traced, Released(s), s.ids, t, s.tps[t].(refs := s.tps[t].refs - 1));
    }
  }

  lemma LedgerOfReferences(s: State, step: Step)
    requires Ledger(s) && Enabled(s, step) && AboutReferences(step)
    ensures Ledger(Apply(s, step))
  {
    var (p, t) := BeforePut(s, step);
    assert Released(p) == Released(s);
    LedgerOfPut(p, t);
  }

  lemma LedgerOfStart(s: State, step: Step)
    requires Ledger(s) && Enabled(s, step) && (step.TraceStart? || step.TraceIncrement? || step.Passthrough?)
    ensures Ledger(Apply(s, step))
  {
    var w := step.w;
    assert w.id !in s.traced;
    EnteredStart(s.tps, s.traced, Released(s), s.ids, Tp(w, 1, true, w.First()));
    EnteredMore(s.tps, s.traced, Released(s), s.ids, w.id);
    CarriedStart(s.sent, s.writing, s.finished, s.traced, s.ids, w);
    CarriedMore(s.sent, s.writing, s.finished, s.traced, s.ids, w);
    hide Entered;
    hide Carried;
    hide NeedsCow;
    hide Carries;
    hide SectorsOf;
    hide MustRecord;
    hide Separated;
    hide Unrecorded;
  }

  lemma LedgerOfClone(s: State, step: Step)
    requires Ledger(s) && Enabled(s, step) && step.TraceClone?
    ensures Ledger(Apply(s, step))
  {
    hide Entered;
    hide Carried;
    EnteredChanged(s.tps, s.traced, Released(s), s.ids, step.t, Apply(s, step).tps[step.t]);
  }

  /** Submitting the first queued original changes nothing about which were released. */
  lemma LedgerOfSubmit(s: State, step: Step)
    requires Ledger(s) && Enabled(s, step) && step.SubmitOrig?
    ensures Ledger(Apply(s, step))
  {
    var s', w := Apply(s, step), s.origs[0];
    assert Released(s') == Released(s);
    assert Released(s)[|s.sent|] == w;
    forall i | 0 <= i < |s.sent| ensures s.sent[i] != w { assert Released(s)[i] == s.sent[i]; }
    assert w in Released(s);
  }

  lemma LedgerOfRest(s: State, step: Step)
    requires Ledger(s) && Enabled(s, step) && !AboutReferences(step) && !step.TraceClone? && !step.SubmitOrig?
    requires !step.TraceStart? && !step.TraceIncrement? && !step.Passthrough?
    ensures Ledger(Apply(s, step))
  {
    assert Released(Apply(s, step)) == Released(s);
  }

  lemma LedgerKept(s: State, step: Step)
    requires Ledger(s) && Enabled(s, step)
    ensures Ledger(Apply(s, step))
  {
    hide Apply;
    hide Enabled;
    hide Ledger;
    if AboutReferences(step) { LedgerOfReferences(s, step); }
    else if step.TraceStart? || step.TraceIncrement? || step.Passthrough? { LedgerOfStart(s, step); }
    else if step.TraceClone? { LedgerOfClone(s, step); }
    else if step.SubmitOrig? { LedgerOfSubmit(s, step); }
    else { LedgerOfRest(s, step); }
  }

  // ---------------------------------------------------------------- accounting

  lemma {:induction false} CountTail(q: seq<Entry>)
    requires q != []
    ensures Count(q, IsClone) == Count(q[1..], IsClone) + if q[0].Clone? then 1 else 0
  {
    if |q| > 1 {
      assert q[1..][..|q| - 2] == q[..|q| - 1][1..];
      CountTail(q[..|q| - 1]);
    }
  }

  lemma CountDequeued(q: seq<Entry>)
    requires q != []
    ensures Count(q, IsClone) == Count(Dequeue(q).1, IsClone) + if Dequeue(q).0.Clone? then 1 else 0
  {
    CountTail(q);
    if Pulled(q).Some? { CountUpdate(q[1..], Pulled(q).value, q[0], IsClone); }
  }

  lemma UnqueuedWithout(flights: map<nat, Flight>, c: nat)
    requires c in flights
    ensures |Unqueued(flights)| == |Unqueued(flights - {c})| + if flights[c].queued then 0 else 1
  {
    var rest := Unqueued(flights - {c});
    assert Unqueued(flights) == if flights[c].queued then rest else rest + {c};
  }

  lemma UnqueuedWith(flights: map<nat, Flight>, c: nat, f: Flight)
    ensures |Unqueued(flights[c := f])| == |Unqueued(flights - {c})| + if f.queued then 0 else 1
  {
    UnqueuedWithout(flights[c := f], c);
    assert flights[c := f] - {c} == flights - {c};
  }

  lemma CountsOfPut(s: State, step: Step)
    requires Counts(s) && Enabled(s, step) && AboutReferences(step)
    ensures Counts(Apply(s, step))
  {
    hide Count;
    hide Unqueued;
    if !step.TraceFinish? { UnqueuedWithout(s.flights, step.c); }
    var (p, t) := BeforePut(s, step);
    assert Counts(p);
    hide Enabled;
    PutCounts(p, t);
  }

  lemma PutCounts(s: State, t: nat)
    requires Counts(s) && t in s.tps && s.tps[t].refs > 0
    ensures Counts(Put(s, t))
  {
  }

  lemma CountsOfFlights(s: State, step: Step)
    requires Counts(s) && Enabled(s, step) && (step.TraceClone? || step.FetchClone? || step.QueueClone?)
    ensures Counts(Apply(s, step))
  {
    var c := step.c;
    if c in s.flights { UnqueuedWithout(s.flights, c); } else { assert s.flights - {c} == s.flights; }
    UnqueuedWith(s.flights, c, Apply(s, step).flights[c]);
    if step.QueueClone? { assert (s.queue + [EntryOf(c, s.flights[c])])[..|s.queue|] == s.queue; }
  }

  lemma CountsOfQueue(s: State, step: Step)
    requires Counts(s) && Enabled(s, step) && (step.TakeNext? || step.ArriveRead?)
    ensures Counts(Apply(s, step))
  {
    hide Dequeue;
    hide Unqueued;
    hide Count;
    if step.TakeNext? { CountDequeued(s.queue); } else { CountRead(s.queue, step.r); }
  }

  lemma CountRead(q: seq<Entry>, r: Entry)
    requires r.Read?
    ensures Count(q + [r], IsClone) == Count(q, IsClone)
  {
  }

  lemma CountsOfHand(s: State, step: Step)
    requires Counts(s) && Enabled(s, step) && AboutQueue(step) && !step.TakeNext? && !step.ArriveRead? && !step.QueueClone?
    ensures Counts(Apply(s, step))
  {
  }

  lemma CountsOfNewSnapshot(s: State, step: Step)
    requires Enabled(s, step) && step.ToSnapshot?
    ensures Counts(Apply(s, step))
  {
    hide BlocksOfSets;
  }

  lemma CountsLeft(s: State, step: Step)
    requires Enabled(s, step) && !AboutQueue(step) && !AboutReferences(step)
    requires !step.TraceClone? && !step.FetchClone? && !step.ToSnapshot?
    ensures var z := Apply(s, step); z.counts == s.counts && z.flights == s.flights && z.queue == s.queue && z.hand == s.hand
  {
    hide BlocksOfSets;
  }

  lemma CountsOfRest(s: State, step: Step)
    requires Counts(s) && Enabled(s, step) && !AboutQueue(step)
    requires !AboutReferences(step) && !step.TraceClone? && !step.FetchClone?
    ensures Counts(Apply(s, step))
  {
    hide Apply;
    hide Enabled;
    if step.ToSnapshot? { CountsOfNewSnapshot(s, step); } else { CountsLeft(s, step); }
    hide Count;
    hide Unqueued;
  }

  lemma CountsKept(s: State, step: Step)
    requires Counts(s) && Enabled(s, step)
    ensures Counts(Apply(s, step))
  {
    hide Apply;
    hide Enabled;
    hide Counts;
    if AboutReferences(step) { CountsOfPut(s, step); }
    else if step.TraceClone? || step.FetchClone? || step.QueueClone? { CountsOfFlights(s, step); }
    else if step.TakeNext? || step.ArriveRead? { CountsOfQueue(s, step); }
    else if AboutQueue(step) { CountsOfHand(s, step); }
    else { CountsOfRest(s, step); }
  }
}
