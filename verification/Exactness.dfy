/**
 Exactly when the two orderings are needed: the queue keeps snapshot contents
 whatever its clones hold if and only if no clone overtakes another one for a
 block still to be captured, a write leaves pending reads right whatever it
 writes if and only if it stays clear of the bytes they still need, and a read
 that arrives late is right whatever has been written if and only if it is in time.
 */
module Exactness {
  import opened Blocks
  import opened BioQueues
  import opened Tracing
  import opened Promises
  import opened Protocol
  import opened Invariants
  import opened TrackingProof
  import opened Isolation

  // ---------------------------------------------------------------- the race

  /** Do bytes `lo` to `hi` include one that a pending read must still take from the device? */
  ghost predicate Disturbs(s: State, lo: nat, hi: nat) {
    exists k: nat :: lo <= k < hi && Needed(s, k) && k / 4096 !in s.bypassed
  }

  /** With these contents of the device, pending reads will still be answered right. */
  ghost predicate ReadsRight(s: State, base: seq<byte>) {
    ReadOk(s.hand, s.store, s.bypassed, base, s.snap) && (s.mode == Incremental ==> QueueOk(s.(base := base)))
  }

  /** One byte that differs from `x`. */
  function Other(x: byte): (y: byte) ensures y != x { if x == 0 then 1 else 0 }

  lemma WriteExactlyHarmless(s: State, lo: nat, hi: nat)
    requires Shape(s) && ReadsRight(s, s.base) && lo <= hi <= |s.base|
    ensures (forall data: seq<byte> :: |data| == hi - lo ==> ReadsRight(s, Splice(s.base, lo, data))) <==> !Disturbs(s, lo, hi)
  {
    if Disturbs(s, lo, hi) {
      var k: nat :| lo <= k < hi && Needed(s, k) && k / 4096 !in s.bypassed;
      var data := seq(hi - lo, i => Other(s.snap[k]));
      assert Splice(s.base, lo, data)[k] != s.snap[k];
      ChangeSpoils(s, Splice(s.base, lo, data), k);
    } else {
      forall data: seq<byte> | |data| == hi - lo ensures ReadsRight(s, Splice(s.base, lo, data)) {
        ReadUndisturbed(s, Splice(s.base, lo, data));
        QueueUndisturbed(s, lo, data);
      }
    }
  }

  lemma ChangeSpoils(s: State, base: seq<byte>, k: nat)
    requires Shape(s) && |base| == |s.snap| && k < |base| && Needed(s, k) && k / 4096 !in s.bypassed && base[k] != s.snap[k]
    ensures !ReadsRight(s, base)
  {
    if !StillToFetch(s, k) { assert AwaitedIn(s.(base := base), k); }
  }

  lemma QueueUndisturbed(s: State, lo: nat, data: seq<byte>)
    requires |s.base| == |s.snap| && lo + |data| <= |s.base| && !Disturbs(s, lo, lo + |data|) && (s.mode == Incremental ==> QueueOk(s))
    ensures s.mode == Incremental ==> QueueOk(s.(base := Splice(s.base, lo, data)))
  {
    hide Waiting;
    var s' := s.(base := Splice(s.base, lo, data));
    assert forall k :: AwaitedIn(s', k) <==> AwaitedIn(s, k);
  }

  // -------------------------------------------------------------- late reads

  /** Contents of the device that are possible as far as tracking and the queued
      reads are concerned. */
  ghost predicate Plausible(s: State, base: seq<byte>) {
    Intact(GuardOf(s), base) && QueueOk(s.(base := base))
  }

  /** A read that arrives after the change to incremental mode finds snapshot
      contents in all plausible contents of the device, if and only if it is in time. */
  lemma ArrivalExactlyInTime(s: State, r: Entry)
    requires Shape(s) && s.mode == Incremental && Plausible(s, s.base) && Enabled(s, ArriveRead(r))
    ensures (forall base: seq<byte> :: Plausible(s, base) ==> QueueOk(s.(base := base, queue := s.queue + [r]))) <==> InTime(s, r)
  {
    hide Waiting;
    hide Intact;
    if InTime(s, r) {
      forall base: seq<byte> | Plausible(s, base) ensures QueueOk(s.(base := base, queue := s.queue + [r])) {
        LateReadFinds(s, base, r);
      }
    } else {
      var k: nat :| InRead(r, k) && !Held(GuardOf(s), k / 4096) && k / 4096 in GuardOf(s).marks
                    && k / 4096 !in s.bypassed && !AwaitedIn(s, k);
      LateReadMisses(s, r, k);
    }
  }

  lemma LateReadFinds(s: State, base: seq<byte>, r: Entry)
    requires Plausible(s, base) && r.Read? && InTime(s, r)
    ensures QueueOk(s.(base := base, queue := s.queue + [r]))
  {
    var s' := s.(base := base, queue := s.queue + [r]);
    var p := Pending(s.hand, s.queue);
    assert Pending(s'.hand, s'.queue) == p + [r];
    forall k: nat | AwaitedIn(s', k) && k < |base| == |s.snap| && k / 4096 !in s.bypassed ensures base[k] == s.snap[k] {
      WaitingAppend(p, [r], k / 4096);
      if AwaitedIn(s, k) { assert AwaitedIn(s.(base := base), k); }
      else { assert InRead(r, k) && !Safe(GuardOf(s), k / 4096); }
    }
  }

  lemma LateReadMisses(s: State, r: Entry, k: nat)
    requires Plausible(s, s.base) && |s.base| == |s.snap| && r.Read? && 512 * (r.sect + r.len) <= |s.base| && InRead(r, k)
    requires !Held(GuardOf(s), k / 4096) && k / 4096 in GuardOf(s).marks && k / 4096 !in s.bypassed && !AwaitedIn(s, k)
    ensures exists base: seq<byte> :: Plausible(s, base) && !QueueOk(s.(base := base, queue := s.queue + [r]))
  {
    var base := s.base[k := Other(s.snap[k])];
    var s' := s.(base := base, queue := s.queue + [r]);
    var p := Pending(s.hand, s.queue);
    assert Pending(s'.hand, s'.queue) == p + [r];
    WaitingAppend(p, [r], k / 4096);
    assert [r][1..] == [];
    assert AwaitedIn(s', k);
    hide Waiting;
    forall j: nat | AwaitedIn(s.(base := base), j) ensures AwaitedIn(s, j) { }
    assert Safe(GuardOf(s), k / 4096);
    assert Plausible(s, base);
  }

  // ----------------------------------------------------------- overtaking

  /** The same requests in the same order; only the clones' contents may differ. */
  ghost predicate SameRequests(q: seq<Entry>, q': seq<Entry>) {
    && |q| == |q'|
    && forall i :: 0 <= i < |q| ==>
         if q[i].Read? then q'[i] == q[i] else q'[i].Clone? && q'[i].start == q[i].start && |q'[i].pages| == |q[i].pages|
  }

  ghost predicate SameBut(s: State, s': State) { s' == s.(queue := s'.queue) && SameRequests(s.queue, s'.queue) }

  lemma SameOvertaking(q: seq<Entry>, q': seq<Entry>, b: nat)
    requires SameRequests(q, q')
    ensures Overtakes(q, b) <==> Overtakes(q', b)
  {
  }

  /** Change one page of a queued clone. */
  ghost function Repaged(q: seq<Entry>, j: nat, off: nat, x: Block): (r: seq<Entry>)
    requires j < |q| && q[j].Clone? && off < |q[j].pages|
    ensures SameRequests(q, r)
  {
    q[j := q[j].(pages := q[j].pages[off := x])]
  }

  /** A page that is not first for its block is not what the block waits for. */
  lemma {:induction false} WaitingRepaged(q: seq<Entry>, j: nat, off: nat, x: Block, b: nat)
    requires j < |q| && q[j].Clone? && off < |q[j].pages|
    requires b == q[j].start + off ==> exists i :: 0 <= i < j && q[i].Covers(b)
    ensures Waiting(Repaged(q, j, off, x), b) == Waiting(q, b)
  {
    var r := Repaged(q, j, off, x);
    if j == 0 {
      assert r[1..] == q[1..];
    } else if !q[0].Covers(b) {
      assert r[1..] == Repaged(q[1..], j - 1, off, x);
      assert q[1..][j - 1] == q[j];
      if b == q[j].start + off {
        var i :| 0 <= i < j && q[i].Covers(b);
        assert q[1..][i - 1] == q[i];
      }
      WaitingRepaged(q[1..], j - 1, off, x, b);
    }
  }

  lemma RepagedPromise(s: State, j: nat, off: nat, x: Block, b: nat)
    requires s.hand.Idle? && j < |s.queue| && s.queue[j].Clone? && off < |s.queue[j].pages|
    requires exists i :: 0 <= i < j && s.queue[i].Covers(s.queue[j].start + off)
    ensures Promise(GuardOf(s.(queue := Repaged(s.queue, j, off, x))), b) == Promise(GuardOf(s), b)
  {
    hide Waiting;
    hide Repaged;
    hide BlocksOfSets;
    var q' := Repaged(s.queue, j, off, x);
    WaitingRepaged(s.queue, j, off, x, b);
    assert GuardOf(s).pending == s.queue;
    assert GuardOf(s.(queue := q')).pending == q';
  }

  lemma SameQueueOk(s: State, q': seq<Entry>)
    requires QueueOk(s) && s.hand.Idle? && SameRequests(s.queue, q')
    requires forall b: nat :: Promise(GuardOf(s.(queue := q')), b) == Promise(GuardOf(s), b)
    ensures QueueOk(s.(queue := q'))
  {
    var s' := s.(queue := q');
    forall k: nat | AwaitedIn(s', k) ensures AwaitedIn(s, k) {
      var r :| r in q' && InRead(r, k);
      assert r in s.queue;
      assert Promise(GuardOf(s'), k / 4096) == Promise(GuardOf(s), k / 4096);
    }
  }

  /** States whose promises agree are equally valid. */
  lemma SamePromises(s: State, q': seq<Entry>)
    requires Tracked(s) && Isolated(s) && s.hand.Idle? && SameRequests(s.queue, q')
    requires forall b: nat :: Promise(GuardOf(s.(queue := q')), b) == Promise(GuardOf(s), b)
    ensures Tracked(s.(queue := q')) && Isolated(s.(queue := q'))
  {
    var s' := s.(queue := q');
    assert Extends(GuardOf(s), GuardOf(s'));
    if s.mode == Incremental { SameQueueOk(s, q'); }
    hide QueueOk;
    hide Promise;
    hide Held;
    hide Safe;
    TrackedRepaged(s, q');
    RightUnder(GuardOf(s), GuardOf(s'));
    AgreeUnder(GuardOf(s), GuardOf(s'), s.flights);
    hide Right;
    hide Agrees;
    hide GuardOf;
  }

  /** The state with one overtaking clone's page changed is as valid as before. */
  lemma RepagedValid(s: State, j: nat, off: nat, x: Block)
    requires Inv(s) && Isolated(s) && !s.failed && s.hand.Idle?
    requires j < |s.queue| && s.queue[j].Clone? && off < |s.queue[j].pages|
    requires exists i :: 0 <= i < j && s.queue[i].Covers(s.queue[j].start + off)
    ensures var s' := s.(queue := Repaged(s.queue, j, off, x)); Inv(s') && Isolated(s')
  {
    InvParts(s);
    RepagedShape(s, j, off, x);
    hide Inv;
    hide Isolated;
    hide Tracked;
    hide Shape;
    hide Counts;
    hide Promise;
    forall b: nat { RepagedPromise(s, j, off, x, b); }
    SamePromises(s, Repaged(s.queue, j, off, x));
    InvOfParts(s.(queue := Repaged(s.queue, j, off, x)));
  }

  lemma InvOfParts(s: State)
    requires Shape(s) && Refs(s) && Ledger(s) && Counts(s) && History(s) && Tracked(s)
    ensures Inv(s)
  {
  }

  lemma RepagedShape(s: State, j: nat, off: nat, x: Block)
    requires Shape(s) && Counts(s) && j < |s.queue| && s.queue[j].Clone? && off < |s.queue[j].pages|
    ensures var s' := s.(queue := Repaged(s.queue, j, off, x)); Shape(s') && Counts(s')
  {
    var e := s.queue[j].(pages := s.queue[j].pages[off := x]);
    CountUpdate(s.queue, j, e, IsClone);
    assert s.queue[j] in s.queue;
    hide Count;
    hide Unqueued;
  }

  lemma TrackedRepaged(s: State, q': seq<Entry>)
    requires Tracked(s) && Extends(GuardOf(s), GuardOf(s.(queue := q')))
    ensures Tracked(s.(queue := q'))
  {
  }

  /** Where the overtaking clone stands and which of its pages is for block `b`. */
  lemma OvertakerAt(s: State, b: nat) returns (j: nat, off: nat)
    requires Shape(s) && Overtakes(s.queue, b)
    ensures j < |s.queue| && s.queue[j].Clone? && off < |s.queue[j].pages| && s.queue[j].start + off == b
    ensures exists i :: 0 <= i < j && s.queue[i].Covers(b)
    ensures j == Pulled(s.queue).value + 1 && 4096 * b + 4096 <= |s.snap|
  {
    j := Pulled(s.queue).value + 1;
    var e := s.queue[j];
    assert s.queue[1..][j - 1] == e;
    off := b - e.start;
    var i :| 0 <= i < j - 1 && s.queue[1..][i].Covers(b);
    assert s.queue[i + 1].Covers(b);
    assert EntryFits(e, |s.base|) by { assert e in s.queue; }
  }

  /** A dequeue that overtakes a clone for an uncaptured block goes wrong for
      some contents of the very same requests. */
  lemma OvertakingGoesWrong(s: State, b: nat) returns (s': State)
    requires Inv(s) && Isolated(s) && !s.failed && Enabled(s, TakeNext(false))
    requires Overtakes(s.queue, b) && b !in s.store && b !in s.bypassed
    ensures SameBut(s, s') && Inv(s') && Isolated(s') && Enabled(s', TakeNext(false))
    ensures !Right(GuardOf(Apply(s', TakeNext(false))))
  {
    hide Inv;
    hide Isolated;
    hide Shape;
    hide Tracked;
    hide Overtakes;
    hide Waiting;
    hide Pulled;
    InvParts(s);
    var j, off := OvertakerAt(s, b);
    var x: Block := seq(4096, k => Other(s.snap[4096 * b]));
    var q' := Repaged(s.queue, j, off, x);
    s' := s.(queue := q');
    RepagedValid(s, j, off, x);
    SameOvertaking(s.queue, q', b);
    SamePulled(s.queue, q');
    TakenFirst(s', b);
    hide Apply;
    hide Enabled;
    hide GuardOf;
    hide Promise;
    assert q'[1..][j - 1] == q'[j];
    assert x[0] != BlockOf(s.snap, b)[0];
  }

  /** The overtaking clone's page becomes what its block is promised. */
  lemma TakenFirst(s: State, b: nat)
    requires Enabled(s, TakeNext(false)) && Overtakes(s.queue, b) && b !in s.store
    ensures var e := s.queue[1..][Pulled(s.queue).value];
      e.Covers(b) && Promise(GuardOf(Apply(s, TakeNext(false))), b) == Some(e.pages[b - e.start])
    ensures GuardOf(Apply(s, TakeNext(false))).snap == s.snap && GuardOf(Apply(s, TakeNext(false))).bypassed == s.bypassed
  {
  }

  lemma SamePulled(q: seq<Entry>, q': seq<Entry>)
    requires SameRequests(q, q') && q != []
    ensures Pulled(q) == Pulled(q')
  {
  }

  /** The next dequeue keeps every promise right, whatever the queued clones
      hold, if and only if it overtakes no clone for a block that is still to
      be captured and has been traced. */
  lemma DequeueExactlySafe(s: State)
    requires Inv(s) && Isolated(s) && !s.failed && Enabled(s, TakeNext(false))
    ensures (forall s': State :: SameBut(s, s') && Inv(s') && Isolated(s') ==>
               Enabled(s', TakeNext(false)) && Right(GuardOf(Apply(s', TakeNext(false)))))
      <==> forall b: nat :: Overtakes(s.queue, b) ==> b in s.store || b in s.bypassed
  {
    hide Overtakes;
    hide Inv;
    hide Isolated;
    hide Right;
    hide Apply;
    hide GuardOf;
    if b: nat :| Overtakes(s.queue, b) && b !in s.store && b !in s.bypassed {
      var s' := OvertakingGoesWrong(s, b);
    } else {
      forall s': State | SameBut(s, s') && Inv(s') && Isolated(s')
        ensures Enabled(s', TakeNext(false)) && Right(GuardOf(Apply(s', TakeNext(false))))
      {
        forall b: nat { SameOvertaking(s.queue, s'.queue, b); }
        TakeStaysRight(s');
      }
    }
  }

  lemma TakeStaysRight(s: State)
    requires Inv(s) && Isolated(s) && !s.failed && s.hand.Idle? && s.queue != []
    requires forall b: nat :: Overtakes(s.queue, b) ==> b in s.store || b in s.bypassed
    ensures Enabled(s, TakeNext(false)) && Right(GuardOf(Apply(s, TakeNext(false))))
  {
    InvParts(s);
    hide Inv;
    hide Overtakes;
    IsolatedTake(s, TakeNext(false));
  }
}
