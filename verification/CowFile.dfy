/**
 The COW file as the manager sees it: a header, the block index and the data
 area.  Every access may fail; a failed write leaves any prefix of what it was
 given on the medium.  The header lives in one sector, so a failed header
 write leaves either the old or the new one.
 */
module CowFiles {
  import opened Blocks

  const COW_MAGIC := 4776
  const COW_VERSION_CHANGED_BLOCKS := 1

  const EIO := 5
  const ENOMEM := 12
  const EINVAL := 22
  const EFBIG := 27

  datatype Flags = Flags(clean: bool, indexOnly: bool, vmallocUpper: bool)

  datatype Header = Header(
    magic: nat, flags: Flags, fpos: nat, fsize: nat, seqid: nat,
    uuid: seq<byte>, version: nat, nrChanged: nat)

  class CowFile {
    var header: Header
    var index: seq<nat>          // one entry per block of the device
    var data: map<nat, Block>    // data area, by position in 4096-byte units

    /** A freshly created and allocated file reads as zeros. */
    constructor (entries: nat)
      ensures index == Zeros(entries)
      ensures data == map[]
      ensures !header.flags.clean
    {
      header := Header(0, Flags(false, false, false), 0, 0, 0, [], 0, 0);
      index := Zeros(entries);
      data := map[];
    }

    method WriteIndex(at: nat, chunk: seq<nat>) returns (ret: int)
      requires at + |chunk| <= |index|
      modifies this`index
      ensures |index| == old(|index|)
      ensures forall k :: 0 <= k < |index| && !(at <= k < at + |chunk|) ==> index[k] == old(index)[k]
      ensures ret == 0 ==> forall k :: 0 <= k < |chunk| ==> index[at + k] == chunk[k]
    {
      if * {
        index := Splice(index, at, chunk);
        ret := 0;
      } else {
        var n: nat :| n <= |chunk|;
        index := Splice(index, at, chunk[..n]);
        ret := -EIO;
      }
    }

    method ReadIndex(at: nat, count: nat) returns (ret: int, chunk: seq<nat>)
      requires at + count <= |index|
      ensures ret == 0 ==> chunk == index[at..at + count]
      ensures ret == 0 || ret == -EIO
    {
      if * {
        ret, chunk := 0, index[at..at + count];
      } else {
        ret, chunk := -EIO, [];
      }
    }

    method WriteHeader(h: Header) returns (ret: int)
      modifies this`header
      ensures header == h || header == old(header)
      ensures ret == 0 ==> header == h
    {
      if * {
        header := h;
        ret := 0;
      } else {
        if * { header := h; }
        ret := -EIO;
      }
    }

    method ReadHeader() returns (ret: int, h: Header)
      ensures ret == 0 ==> h == header
      ensures ret == 0 || ret == -EIO
    {
      h := header;
      if * { ret := 0; } else { ret := -EIO; }
    }

    method WriteData(pos: nat, block: Block) returns (ret: int)
      modifies this`data
      ensures forall k :: k in old(data) && k != pos ==> k in data && data[k] == old(data)[k]
      ensures forall k :: k in data && k != pos ==> k in old(data)
      ensures ret == 0 ==> pos in data && data[pos] == block
      ensures ret == 0 || ret == -EIO
    {
      if * {
        data := data[pos := block];
        ret := 0;
      } else {
        if * {
          var n: nat :| n <= 4096;
          var rest: Block :| true;
          data := data[pos := Splice(rest, 0, block[..n])];
        }
        ret := -EIO;
      }
    }

    method ReadData(pos: nat) returns (ret: int, block: Block)
      ensures ret == 0 && pos in data ==> block == data[pos]
    {
      block := if pos in data then data[pos] else seq(4096, _ => 0);
      if * { ret := 0; } else { ret := -EIO; }
    }

    /** Touch up to 1024 blocks from `pos` on so that their extents exist. */
    method FillAhead(pos: nat) returns (ret: int)
      modifies this`data
      ensures forall k :: k in old(data) && k < pos ==> k in data && data[k] == old(data)[k]
      ensures forall k :: k in data && k < pos ==> k in old(data)
    {
      var n := 0;
      ret := 0;
      while n < 1024 && ret == 0
        invariant forall k :: k in old(data) && k < pos ==> k in data && data[k] == old(data)[k]
        invariant forall k :: k in data && k < pos ==> k in old(data)
      {
        var junk: Block :| true;
        ret := WriteData(pos + n, junk);
        n := n + 1;
      }
    }

    /** Drop the data area. */
    method Truncate() returns (ret: int)
      modifies this`data
      ensures ret == 0 ==> data == map[]
      ensures ret != 0 ==> data == old(data)
    {
      if * { data := map[]; ret := 0; } else { ret := -EIO; }
    }
  }
}
