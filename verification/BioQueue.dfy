/**
 The queue of the COW thread.  Write entries are completed read clones that
 carry the old contents of the blocks they cover; read entries are requests on
 the snapshot device.
 */
module BioQueues {
  import opened Blocks

  datatype Entry =
    | Read(id: nat, sect: nat, len: nat)
    | Clone(id: nat, start: nat, pages: seq<Block>)
  {
    function Sector(): nat { if Read? then sect else 8 * start }
    function Sectors(): nat { if Read? then len else 8 * |pages| }
    function End(): nat { Sector() + Sectors() }

    predicate Includes(s: nat) { Sector() <= s < End() }

    /** The clone holds (old) contents for block `b`. */
    predicate Covers(b: nat) { Clone? && start <= b < start + |pages| }

    /** The request involves block `b`. */
    predicate Touches(b: nat) { Sector() < 8 * b + 8 && 8 * b < End() }
  }

  predicate Overlap(a: Entry, b: Entry) {
    Max(a.Sector(), b.Sector()) <= Min(a.End(), b.End())
  }

  /** Exactly what the overlap test says of nonempty requests: they share a
      sector, or one ends where the other begins. */
  lemma OverlapMeaning(a: Entry, b: Entry)
    requires a.Sectors() > 0 && b.Sectors() > 0
    ensures Overlap(a, b) <==>
      || a.End() == b.Sector() || b.End() == a.Sector()
      || exists s: nat :: a.Includes(s) && b.Includes(s)
  {
    var m := Max(a.Sector(), b.Sector());
    assert m < a.End() && m < b.End() ==> a.Includes(m) && b.Includes(m);
  }

  /** Index in `q`, from `i` on, of the first clone that overlaps `r`, or `|q|`. */
  function FirstOverlap(r: Entry, q: seq<Entry>, i: nat): (j: nat)
    requires i <= |q|
    ensures i <= j <= |q|
    ensures j < |q| ==> q[j].Clone? && Overlap(r, q[j])
    ensures forall k :: i <= k < j ==> !(q[k].Clone? && Overlap(r, q[k]))
    decreases |q| - i
  {
    if i == |q| || (q[i].Clone? && Overlap(r, q[i])) then i else FirstOverlap(r, q, i + 1)
  }

  /** Position in `q[1..]` that a dequeue takes instead of the head, if any. */
  function Pulled(q: seq<Entry>): (r: Option<nat>)
    requires q != []
    ensures r.Some? ==> r.value < |q| - 1 && q[0].Read? && q[1 + r.value].Clone?
  {
    if q[0].Clone? then None
    else
      var j := FirstOverlap(q[0], q[1..], 0);
      if j < |q| - 1 then Some(j) else None
  }

  /** Take the head; but in place of a read take the first clone that overlaps
      it, and let the read wait in that clone's slot. */
  function Dequeue(q: seq<Entry>): (r: (Entry, seq<Entry>))
    requires q != []
    ensures |r.1| == |q| - 1
  {
    match Pulled(q)
    case None => (q[0], q[1..])
    case Some(j) => (q[1..][j], q[1..][j := q[0]])
  }

  lemma SwapConserves<T>(s: seq<T>, j: nat, x: T)
    requires j < |s|
    ensures multiset{x} + multiset(s) == multiset{s[j]} + multiset(s[j := x])
  {
  }

  lemma DequeueConserves(q: seq<Entry>)
    requires q != []
    ensures multiset(q) == multiset{Dequeue(q).0} + multiset(Dequeue(q).1)
  {
    assert q == [q[0]] + q[1..];
    if Pulled(q).Some? { SwapConserves(q[1..], Pulled(q).value, q[0]); }
  }

  /** A read leaves the queue only when no clone overlapping it is left, and a
      clone that overtakes others does so for the sake of the waiting read. */
  lemma DequeueDelaysReads(q: seq<Entry>)
    requires q != []
    ensures var (e, rest) := Dequeue(q);
      && (e.Read? ==> e == q[0] && forall k :: 0 <= k < |rest| && rest[k].Clone? ==> !Overlap(e, rest[k]))
      && (e != q[0] ==> q[0].Read? && e.Clone? && Overlap(q[0], e) && q[0] in rest)
  {
    if Pulled(q).Some? { assert Dequeue(q).1[Pulled(q).value] == q[0]; }
  }

  /** Entry `j` is the first clone in the queue that overlaps the read at its head. */
  ghost predicate FirstInTheWay(q: seq<Entry>, j: nat) {
    && 1 <= j < |q| && q[0].Read? && q[j].Clone? && Overlap(q[0], q[j])
    && forall i :: 1 <= i < j && q[i].Clone? ==> !Overlap(q[0], q[i])
  }

  /** The whole effect of a dequeue: such a clone leaves and the read takes its
      place among entries that stay as they are; without one the head leaves. */
  lemma DequeueExactly(q: seq<Entry>)
    requires q != []
    ensures forall j: nat :: FirstInTheWay(q, j) ==> Dequeue(q) == (q[j], q[1..j] + [q[0]] + q[j + 1..])
    ensures (forall j: nat :: !FirstInTheWay(q, j)) ==> Dequeue(q) == (q[0], q[1..])
  {
    forall j: nat | FirstInTheWay(q, j) ensures Dequeue(q) == (q[j], q[1..j] + [q[0]] + q[j + 1..]) {
      var i := FirstOverlap(q[0], q[1..], 0);
      assert q[1..][j - 1] == q[j];
      assert i <= j - 1 && q[1..][i] == q[i + 1];
      assert q[1..][j - 1 := q[0]] == q[1..j] + [q[0]] + q[j + 1..];
    }
    if Pulled(q).Some? {
      var j := Pulled(q).value + 1;
      assert forall i :: 1 <= i < |q| ==> q[i] == q[1..][i - 1];
      assert FirstInTheWay(q, j);
    }
  }

  class Bio {
    const entry: Entry
    var next: Bio?
    constructor (entry: Entry) ensures this.entry == entry && next == null { this.entry := entry; next := null; }
  }

  ghost function EntriesOf(nodes: seq<Bio>): (r: seq<Entry>)
    ensures |r| == |nodes|
    ensures forall i :: 0 <= i < |r| ==> r[i] == nodes[i].entry
  {
    seq(|nodes|, i requires 0 <= i < |nodes| => nodes[i].entry)
  }

  lemma PopConserves(nodes: seq<Bio>)
    requires nodes != []
    ensures EntriesOf(nodes)[1..] == EntriesOf(nodes[1..])
    ensures multiset(nodes) == multiset{nodes[0]} + multiset(nodes[1..])
  {
    assert nodes == [nodes[0]] + nodes[1..];
  }

  lemma ExchangeConserves(nodes: seq<Bio>, j: nat, bio: Bio)
    requires j < |nodes|
    ensures EntriesOf(nodes[j := bio]) == EntriesOf(nodes)[j := bio.entry]
    ensures multiset{bio} + multiset(nodes) == multiset{nodes[j]} + multiset(nodes[j := bio])
  {
  }

  /** Singly linked list with head and tail, as the queue keeps it. */
  class BioList {
    var head: Bio?
    var tail: Bio?
    ghost var nodes: seq<Bio>

    ghost predicate Valid()
      reads this, nodes
    {
      && (nodes == [] ==> head == null && tail == null)
      && (nodes != [] ==> head == nodes[0] && tail == nodes[|nodes| - 1] && tail.next == null)
      && (forall i :: 0 <= i < |nodes| - 1 ==> nodes[i].next == nodes[i + 1])
      && (forall i, j :: 0 <= i < j < |nodes| ==> nodes[i] != nodes[j])
    }

    ghost function Entries(): (r: seq<Entry>)
      reads this
    {
      EntriesOf(nodes)
    }

    constructor ()
      ensures Valid() && nodes == []
    {
      head, tail, nodes := null, null, [];
    }

    method Add(bio: Bio)
      requires Valid() && bio !in nodes
      modifies this, nodes, bio
      ensures Valid() && nodes == old(nodes) + [bio]
      ensures Entries() == old(Entries()) + [bio.entry]
    {
      bio.next := null;
      if tail != null { tail.next := bio; } else { head := bio; }
      tail := bio;
      nodes := nodes + [bio];
    }

    method Pop() returns (bio: Bio)
      requires Valid() && nodes != []
      modifies this, nodes
      ensures Valid() && bio == old(nodes)[0] && nodes == old(nodes)[1..] && bio.next == null
      ensures Entries() == old(Entries())[1..]
    {
      bio := head;
      head := head.next;
      if head == null { tail := null; }
      bio.next := null;
      nodes := nodes[1..];
    }

    /** Splice `bio` into the place of `tmp`, whose predecessor is `prev`. */
    method Replace(prev: Bio?, tmp: Bio, bio: Bio, ghost j: nat)
      requires Valid() && j < |nodes| && nodes[j] == tmp && bio !in nodes
      requires prev == if j == 0 then null else nodes[j - 1]
      modifies this, nodes, bio
      ensures Valid() && nodes == old(nodes)[j := bio] && tmp.next == null
    {
      if prev != null { prev.next := bio; } else { head := bio; }
      if tail == tmp { tail := bio; }
      bio.next := tmp.next;
      tmp.next := null;
      nodes := nodes[j := bio];
    }

    /** Walk the list for the first clone that overlaps read `r`. */
    method FindOverlap(r: Entry) returns (prev: Bio?, tmp: Bio?, ghost j: nat)
      requires Valid()
      ensures j == FirstOverlap(r, Entries(), 0)
      ensures tmp == if j == |nodes| then null else nodes[j]
      ensures prev == if j == 0 then null else nodes[j - 1]
    {
      prev, tmp, j := null, head, 0;
      while tmp != null
        invariant j <= |nodes|
        invariant tmp == if j == |nodes| then null else nodes[j]
        invariant prev == if j == 0 then null else nodes[j - 1]
        invariant forall k :: 0 <= k < j ==> !(Entries()[k].Clone? && Overlap(r, Entries()[k]))
        decreases |nodes| - j
      {
        if tmp.entry.Clone? && Overlap(r, tmp.entry) { return; }
        prev, tmp, j := tmp, tmp.next, j + 1;
      }
    }

    /** If some queued clone overlaps read `bio`, exchange the two. */
    method Exchange(bio: Bio) returns (out: Bio)
      requires Valid() && bio !in nodes && bio.next == null
      modifies this, nodes, bio
      ensures Valid() && out.next == null
      ensures var j := FirstOverlap(bio.entry, old(Entries()), 0);
        if j == |old(nodes)| then out == bio && nodes == old(nodes)
        else out == old(nodes)[j] && nodes == old(nodes)[j := bio]
    {
      var prev, tmp, j := FindOverlap(bio.entry);
      out := bio;
      if tmp != null {
        Replace(prev, tmp, bio, j);
        out := tmp;
      }
    }

    method DequeueDelayRead() returns (bio: Bio)
      requires Valid() && nodes != []
      modifies this, nodes
      ensures Valid() && bio.next == null
      ensures bio.entry == Dequeue(old(Entries())).0
      ensures Entries() == Dequeue(old(Entries())).1
      ensures multiset(old(nodes)) == multiset{bio} + multiset(nodes)
    {
      hide FirstOverlap;
      hide Overlap;
      hide EntriesOf;
      bio := Pop();
      ghost var rest := nodes;
      PopConserves(old(nodes));
      if bio.entry.Read? {
        ghost var r := bio;
        bio := Exchange(bio);
        if bio != r { ExchangeConserves(rest, FirstOverlap(r.entry, EntriesOf(rest), 0), r); }
      }
    }
  }
}
