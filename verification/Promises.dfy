/**
 What the queue of the COW thread promises about each block, and how promises
 survive the queue's operations.
 */
module Promises {
  import opened Blocks
  import opened BioQueues

  /** The page that the first waiting clone covering `b` holds for it. */
  ghost function Waiting(p: seq<Entry>, b: nat): Option<Block> {
    if p == [] then None
    else if p[0].Covers(b) then Some(p[0].pages[b - p[0].start])
    else Waiting(p[1..], b)
  }

  lemma {:induction false} WaitingAppend(p: seq<Entry>, q: seq<Entry>, b: nat)
    ensures Waiting(p + q, b) == if Waiting(p, b).Some? then Waiting(p, b) else Waiting(q, b)
  {
    if p == [] {
      assert p + q == q;
    } else {
      assert (p + q)[1..] == p[1..] + q;
      WaitingAppend(p[1..], q, b);
    }
  }

  lemma {:induction false} WaitingIff(p: seq<Entry>, b: nat)
    ensures Waiting(p, b).Some? <==> exists i :: 0 <= i < |p| && p[i].Covers(b)
  {
    if p != [] {
      WaitingIff(p[1..], b);
      assert forall i :: 0 < i < |p| ==> p[i] == p[1..][i - 1];
      if i :| 0 <= i < |p| && p[i].Covers(b) { if i > 0 { assert p[1..][i - 1].Covers(b); } }
    }
  }

  /** Replacing a waiting clone by a read matters only to blocks it came first for. */
  lemma {:induction false} WaitingReplaced(p: seq<Entry>, j: nat, r: Entry, b: nat)
    requires j < |p| && r.Read?
    ensures p[j].Covers(b) && (forall i :: 0 <= i < j ==> !p[i].Covers(b)) ==> Waiting(p, b) == Some(p[j].pages[b - p[j].start])
    ensures !p[j].Covers(b) ==> Waiting(p[j := r], b) == Waiting(p, b)
  {
    if j > 0 {
      assert p[j := r][1..] == p[1..][j - 1 := r];
      assert forall i :: 0 < i < |p| ==> p[i] == p[1..][i - 1];
      WaitingReplaced(p[1..], j - 1, r, b);
    } else {
      assert p[0 := r][1..] == p[1..];
    }
  }

  /** A dequeue takes a clone past an earlier one that has block `b`, too. */
  ghost predicate Overtakes(q: seq<Entry>, b: nat) {
    q != [] && Pulled(q).Some? && q[1..][Pulled(q).value].Covers(b)
    && exists i :: 0 <= i < Pulled(q).value && q[1..][i].Covers(b)
  }

  /** Unless the dequeued clone overtakes another one for `b`, what is waiting
      for `b` stays the same when the head moves to the COW thread's hand. */
  lemma DequeueKeepsWaiting(q: seq<Entry>, b: nat)
    requires q != [] && !Overtakes(q, b)
    ensures var (e, rest) := Dequeue(q);
      Waiting(if e.Clone? then [e] + rest else rest, b) == Waiting(q, b)
  {
    var (e, rest) := Dequeue(q);
    if e.Clone? { assert ([e] + rest)[1..] == rest; }
    if Pulled(q).Some? { WaitingReplaced(q[1..], Pulled(q).value, q[0], b); }
  }

  /** Overtaking or not, a block keeps having a clone waiting for it. */
  lemma DequeueKeepsSome(q: seq<Entry>, b: nat)
    requires q != [] && Waiting(q, b).Some?
    ensures var (e, rest) := Dequeue(q); Waiting(if e.Clone? then [e] + rest else rest, b).Some?
  {
    if Overtakes(q, b) { OvertakingPicksTheLater(q, b); } else { DequeueKeepsWaiting(q, b); }
  }

  /** And conversely: once a clone with other contents for `b` is overtaken,
      the wrong page comes first. */
  lemma OvertakingPicksTheLater(q: seq<Entry>, b: nat)
    requires Overtakes(q, b)
    ensures var (e, rest) := Dequeue(q);
      e.Covers(b) && Waiting([e] + rest, b) == Some(e.pages[b - e.start])
  {
  }

  /** One-block clones never overtake each other. */
  lemma OneBlockNeverOvertakes(q: seq<Entry>, b: nat)
    requires forall i :: 0 <= i < |q| && q[i].Clone? ==> |q[i].pages| == 1
    ensures !Overtakes(q, b)
  {
  }

  /** A read that leaves the queue finds no clone waiting for a block it touches. */
  lemma ReadFindsNothingWaiting(q: seq<Entry>, b: nat)
    requires q != [] && Dequeue(q).0.Read? && Dequeue(q).0.Touches(b)
    ensures Waiting(Dequeue(q).1, b) == None
  {
    var (e, rest) := Dequeue(q);
    DequeueDelaysReads(q);
    WaitingIff(rest, b);
    assert forall i :: 0 <= i < |rest| && rest[i].Covers(b) ==> Overlap(e, rest[i]);
  }
}
