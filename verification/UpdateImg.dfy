/**
 The image updater: walk the index of a COW file in chunks and copy every
 marked block from the next snapshot into the image.
 */
module UpdateImg {
  import opened Blocks
  import opened CowFiles
  import opened CowManagers

  const INDEX_BUFFER_SIZE := 8192

  /** `seqid - 1` in 64-bit arithmetic. */
  function Previous(seqid: nat): nat { if seqid == 0 then 0xFFFF_FFFF_FFFF_FFFF else seqid - 1 }

  /** Is this the COW file of the snapshot just before the one reported by the driver? */
  function VerifyFiles(h: Header, seqid: nat, uuid: seq<byte>): (ret: int)
  {
    if h.magic != COW_MAGIC then EINVAL
    else if h.uuid != uuid then EINVAL
    else if h.seqid != Previous(seqid) then EINVAL
    else 0
  }

  /** Marked blocks among the first `total`. */
  function MarkedBelow(index: seq<nat>, total: nat): set<nat>
    requires total <= |index|
  {
    set b | 0 <= b < total && index[b] != 0
  }

  /** The marked blocks that lie completely inside a device of `size` bytes. */
  function FullMarked(index: seq<nat>, total: nat, size: nat): set<nat>
    requires total <= |index|
  {
    set b | 0 <= b < total && index[b] != 0 && 4096 * b + 4096 <= size
  }

  /** Copy one block.  A read cut short by the end of the device is not an error
      by its return value, but nothing is copied. */
  method CopyBlock(snap: seq<byte>, img: array<byte>, block: nat) returns (ret: int)
    requires img.Length == |snap|
    modifies img
    ensures forall k :: 0 <= k < img.Length && k / 4096 != block ==> img[k] == old(img[k])
    ensures 4096 * block + 4096 > |snap| ==> forall k :: 0 <= k < img.Length ==> img[k] == old(img[k])
    ensures ret == 0 && 4096 * block + 4096 <= |snap| ==>
      forall k :: 0 <= k < img.Length && k / 4096 == block ==> img[k] == snap[k]
  {
    if * { return EIO; }   // reading from the snapshot failed
    if 4096 * block + 4096 > |snap| { return 0; }
    var n: nat := 4096;
    ret := 0;
    if * { n :| n <= 4096; ret := EIO; }
    forall k | 4096 * block <= k < 4096 * block + n { img[k] := snap[k]; }
  }

  /** The image after all marked blocks before `upTo` have been dealt with. */
  ghost predicate Merged(img: seq<byte>, was: seq<byte>, snap: seq<byte>, index: seq<nat>, upTo: nat)
    requires upTo <= |index| && |img| == |was| == |snap|
  {
    img == Merge(was, snap, FullMarked(index, upTo, |snap|))
  }

  /** Bytes of blocks that are not marked are never touched. */
  ghost predicate Untouched(img: seq<byte>, was: seq<byte>, index: seq<nat>)
    requires |img| == |was|
  {
    forall k :: 0 <= k < |img| && (k / 4096 >= |index| || index[k / 4096] == 0) ==> img[k] == was[k]
  }

  /** The part of the device after its last whole block is empty, unmarked or unchanged. */
  ghost predicate TailIsDone(was: seq<byte>, snap: seq<byte>, index: seq<nat>)
    requires |was| == |snap| && (|snap| + 4095) / 4096 <= |index|
  {
    |snap| % 4096 == 0 || index[|snap| / 4096] == 0 || forall k :: |snap| / 4096 * 4096 <= k < |snap| ==> was[k] == snap[k]
  }

  /** The file is of the expected kind, of this series, and of the period just
      before snapshot `seqid`, which is counted in 64 bits. */
  ghost predicate Belongs(h: Header, seqid: nat, uuid: seq<byte>) {
    && h.magic == 4776
    && h.uuid == uuid
    && h.seqid == (if seqid == 0 then 0xFFFF_FFFF_FFFF_FFFF else seqid - 1)
  }

  /** `done` tells whether the walk reached the end; a short read of the index
      ends it with whatever `errno` happens to be. */
  method UpdateImage(cow: CowFile, snap: seq<byte>, img: array<byte>, seqid: nat, uuid: seq<byte>)
    returns (ret: int, done: bool, count: nat, errCount: nat)
    requires img.Length == |snap|
    modifies img
    // a file that does not belong is refused, and one that belongs is not
    ensures !Belongs(cow.header, seqid, uuid) ==> ret != 0 && !done && img[..] == old(img[..])
    ensures Belongs(cow.header, seqid, uuid) ==> ret != EINVAL
    ensures Untouched(img[..], old(img[..]), cow.index)
    ensures errCount <= count
    ensures done ==> ret == 0 && (|snap| + 4095) / 4096 <= |cow.index|
    ensures done ==> count == Count(cow.index[..(|snap| + 4095) / 4096], NonZero)
    ensures done && errCount == 0 ==> Merged(img[..], old(img[..]), snap, cow.index, (|snap| + 4095) / 4096)
    // byte by byte: marked whole blocks come from the snapshot, everything else stays
    ensures done && errCount == 0 ==> forall k :: 0 <= k < img.Length ==>
      img[k] == if cow.index[k / 4096] != 0 && 4096 * (k / 4096) + 4096 <= |snap| then snap[k] else old(img[k])
    // so that without any error the image is as it should be exactly if no marked tail is left out
    ensures done && errCount == 0 ==>
      (img[..] == Merge(old(img[..]), snap, MarkedBelow(cow.index, (|snap| + 4095) / 4096))
       <==> TailIsDone(old(img[..]), snap, cow.index))
  {
    done, count, errCount := false, 0, 0;
    var h;
    ret, h := cow.ReadHeader();
    if ret != 0 { return; }
    ret := VerifyFiles(h, seqid, uuid);
    if ret != 0 { return; }

    var total := (|snap| + 4095) / 4096;
    var chunks := (total + INDEX_BUFFER_SIZE - 1) / INDEX_BUFFER_SIZE;
    var i, blocksDone := 0, 0;
    while i < chunks
      invariant 0 <= i <= chunks
      invariant blocksDone == (if i < chunks then INDEX_BUFFER_SIZE * i else total) <= |cow.index|
      invariant Untouched(img[..], old(img[..]), cow.index)
      invariant errCount <= count == Count(cow.index[..blocksDone], NonZero)
      invariant errCount == 0 ==> Merged(img[..], old(img[..]), snap, cow.index, blocksDone)
    {
      var n := if INDEX_BUFFER_SIZE < total - blocksDone then INDEX_BUFFER_SIZE else total - blocksDone;
      if INDEX_BUFFER_SIZE * i + n > |cow.index| { return; }
      var mappings;
      ret, mappings := cow.ReadIndex(INDEX_BUFFER_SIZE * i, n);
      if ret != 0 { return; }
      var c, e := CopyChunk(snap, img, cow.index, old(img[..]), mappings, blocksDone);
      count, errCount := count + c, errCount + e;
      blocksDone := blocksDone + n;
      i := i + 1;
    }
    PartialTail(old(img[..]), snap, cow.index);
    done := true;
  }

  lemma CountNext(index: seq<nat>, i: nat)
    requires i < |index|
    ensures Count(index[..i + 1], NonZero) == Count(index[..i], NonZero) + if index[i] != 0 then 1 else 0
  {
    assert index[..i + 1][..i] == index[..i];
  }

  /** Deal with the marked blocks of one chunk of the index. */
  method CopyChunk(snap: seq<byte>, img: array<byte>, ghost index: seq<nat>, ghost was: seq<byte>, mappings: seq<nat>, first: nat)
    returns (count: nat, errCount: nat)
    requires img.Length == |snap| == |was| && first + |mappings| <= |index| && mappings == index[first..first + |mappings|]
    requires Untouched(img[..], was, index)
    modifies img
    ensures Untouched(img[..], was, index)
    ensures errCount <= count
    ensures Count(index[..first], NonZero) + count == Count(index[..first + |mappings|], NonZero)
    ensures errCount == 0 && Merged(old(img[..]), was, snap, index, first) ==> Merged(img[..], was, snap, index, first + |mappings|)
  {
    hide Count;
    count, errCount := 0, 0;
    ghost var ok := Merged(img[..], was, snap, index, first);
    var j := 0;
    while j < |mappings|
      invariant j <= |mappings|
      invariant Untouched(img[..], was, index)
      invariant errCount <= count
      invariant Count(index[..first], NonZero) + count == Count(index[..first + j], NonZero)
      invariant errCount == 0 && ok ==> Merged(img[..], was, snap, index, first + j)
    {
      CountNext(index, first + j);
      if mappings[j] != 0 {
        var ret := CopyBlock(snap, img, first + j);
        if ret != 0 { errCount := errCount + 1; }
        count := count + 1;
      }
      j := j + 1;
    }
  }

  /** On a device of whole blocks the updated image is the merge of all marked blocks. */
  lemma WholeBlocks(was: seq<byte>, snap: seq<byte>, index: seq<nat>)
    requires |was| == |snap| && |snap| % 4096 == 0 && |snap| / 4096 <= |index|
    ensures FullMarked(index, |snap| / 4096, |snap|) == MarkedBelow(index, |snap| / 4096)
  {
  }

  /** In general it is that merge exactly if the tail is done. */
  lemma PartialTail(was: seq<byte>, snap: seq<byte>, index: seq<nat>)
    requires |was| == |snap| && (|snap| + 4095) / 4096 <= |index|
    ensures var total := (|snap| + 4095) / 4096;
      Merge(was, snap, FullMarked(index, total, |snap|)) == Merge(was, snap, MarkedBelow(index, total)) <==> TailIsDone(was, snap, index)
  {
  }

  /** A device of one sector whose only, marked block has changed: an error-free
      walk leaves the image as it was. */
  lemma MarkedTailStaysStale() returns (was: seq<byte>, snap: seq<byte>, index: seq<nat>)
    ensures |was| == |snap| == 512 && index == [1] && was != snap && !TailIsDone(was, snap, index)
    ensures forall img: seq<byte> :: |img| == 512 && Merged(img, was, snap, index, 1) ==> img == was
  {
    was, snap, index := seq(512, _ => 0), seq(512, _ => 1), [1];
    assert was[0] != snap[0];
    assert FullMarked(index, 1, 512) == {};
    assert Merge(was, snap, {}) == was;
  }
}
