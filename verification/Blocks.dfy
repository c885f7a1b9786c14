/**
 Units, contents and the reference meanings that the rest of the project is
 measured against: what a captured block store holds, what a read of the
 snapshot returns, and what an incremental merge produces.  Everything is
 addressed in bytes from the start of the traced device.
 */
module Blocks {

  const SECTOR_SIZE := 512
  const SECTORS_PER_BLOCK := 8
  const BLOCK_SIZE := 4096

  newtype byte = x: int | 0 <= x < 256

  /** One COW block (and one page: the model fixes both at 4096 bytes). */
  type Block = b: seq<byte> | |b| == 4096 witness seq(4096, _ => 0)

  /** Blocks captured before being overwritten, by block number. */
  type Store = map<nat, Block>

  datatype Option<+T> = None | Some(value: T)

  function Max(a: nat, b: nat): nat { if a > b then a else b }
  function Min(a: nat, b: nat): nat { if a < b then a else b }

  function BlockOf(dev: seq<byte>, b: nat): (r: Block)
    requires 4096 * b + 4096 <= |dev|
  {
    dev[4096 * b .. 4096 * b + 4096]
  }

  /** The numbers `start`, ..., `start + n - 1`. */
  function Span(start: nat, n: nat): (r: set<nat>)
    ensures forall b :: b in r <==> start <= b < start + n
    decreases n
  {
    if n == 0 then {} else Span(start, n - 1) + {start + n - 1}
  }

  /** The blocks that a run of sectors touches (rounded outward, also if empty). */
  function BlocksOf(sect: nat, len: nat): (r: set<nat>)
    ensures forall b :: b in r <==> sect < 8 * b + 8 && 8 * b < sect + len
  {
    set b | 0 <= b < sect + len && sect < 8 * b + 8 && 8 * b < sect + len
  }

  /** Keep what block `b` had when it was first offered. */
  function CaptureOne(store: Store, b: nat, page: Block): Store {
    if b in store then store else store[b := page]
  }

  /** First-capture store: pages are offered to blocks `start`, `start + 1`, ...;
      a block that is already captured keeps what it has. */
  function Capture(store: Store, start: nat, pages: seq<Block>): (r: Store)
    ensures r.Keys == store.Keys + Span(start, |pages|)
    ensures forall b :: b in store ==> r[b] == store[b]
    ensures forall b :: start <= b < start + |pages| && b !in store ==> r[b] == pages[b - start]
  {
    (map b | b in Span(start, |pages|) :: pages[b - start]) + store
  }

  /** Byte `k` of the snapshot: the captured copy if its block was captured,
      the live device otherwise. */
  function SnapshotByte(base: seq<byte>, store: Store, k: nat): (r: byte)
    requires k < |base|
  {
    if k / 4096 in store then store[k / 4096][k % 4096] else base[k]
  }

  /** The simple read: every byte looked up on its own. */
  function ReadThrough(base: seq<byte>, store: Store, sect: nat, len: nat): (r: seq<byte>)
    requires 512 * (sect + len) <= |base|
    ensures |r| == 512 * len
    ensures forall i :: 0 <= i < |r| ==> r[i] == SnapshotByte(base, store, 512 * sect + i)
  {
    seq(512 * len, i requires 0 <= i < 512 * len => SnapshotByte(base, store, 512 * sect + i))
  }

  /** Replace the marked blocks of an image by those of a snapshot. */
  function Merge(img: seq<byte>, snap: seq<byte>, marks: set<nat>): (r: seq<byte>)
    requires |img| == |snap|
    ensures |r| == |img|
    ensures forall k :: 0 <= k < |r| ==> r[k] == if k / 4096 in marks then snap[k] else img[k]
  {
    seq(|img|, k requires 0 <= k < |img| => if k / 4096 in marks then snap[k] else img[k])
  }

  /** Overwrite `src[at..]` by `part`. */
  function Splice<T>(src: seq<T>, at: nat, part: seq<T>): (r: seq<T>)
    requires at + |part| <= |src|
    ensures |r| == |src|
    ensures forall k :: 0 <= k < |r| ==> r[k] == if at <= k < at + |part| then part[k - at] else src[k]
  {
    src[..at] + part + src[at + |part|..]
  }

  function Zeros(n: nat): (r: seq<nat>)
    ensures |r| == n && forall i :: 0 <= i < n ==> r[i] == 0
  {
    seq(n, _ => 0)
  }

  /** How many elements satisfy `p`. */
  function Count<T>(s: seq<T>, p: T -> bool): (n: nat)
    ensures n <= |s|
  {
    if s == [] then 0 else Count(s[..|s| - 1], p) + if p(s[|s| - 1]) then 1 else 0
  }

  lemma {:induction false} CountUpdate<T>(s: seq<T>, i: nat, v: T, p: T -> bool)
    requires i < |s|
    ensures Count(s[i := v], p) == Count(s, p) - (if p(s[i]) then 1 else 0) + (if p(v) then 1 else 0)
  {
    var n := |s| - 1;
    if i == n {
      assert s[i := v][..n] == s[..n];
    } else {
      assert s[i := v][..n] == s[..n][i := v];
      CountUpdate(s[..n], i, v, p);
    }
  }

  lemma {:induction false} CountNone<T>(s: seq<T>, p: T -> bool)
    requires forall i :: 0 <= i < |s| ==> !p(s[i])
    ensures Count(s, p) == 0
  {
    if s != [] { CountNone(s[..|s| - 1], p); }
  }

  lemma {:induction false} CountAtMostOne<T>(s: seq<T>, p: T -> bool, j: nat)
    requires forall i :: 0 <= i < |s| && i != j ==> !p(s[i])
    ensures Count(s, p) <= 1
  {
    if s != [] {
      if j == |s| - 1 { CountNone(s[..|s| - 1], p); } else { CountAtMostOne(s[..|s| - 1], p, j); }
    }
  }

  /** A positive count has a witness. */
  lemma {:induction false} CountWitness<T>(s: seq<T>, p: T -> bool) returns (i: nat)
    requires Count(s, p) > 0
    ensures i < |s| && p(s[i])
  {
    if p(s[|s| - 1]) { i := |s| - 1; } else { i := CountWitness(s[..|s| - 1], p); }
  }
}
