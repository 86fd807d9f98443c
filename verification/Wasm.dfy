/**
 Data passing between the host and a wasm guest (serverless/guest/memory.go, cli/serverless/wasm/wazero.go,
 cli/serverless/wasm/wazero/memory.go) over the guest's linear memory.
 */
module Wasm {
  import opened Common
  import opened Bytes

  const READ_BUF_SIZE := 2048

  datatype Region = Region(ptr: nat, len: nat)

  predicate Disjoint(a: Region, b: Region) {
    a.ptr + a.len <= b.ptr || b.ptr + b.len <= a.ptr || a.len == 0 || b.len == 0
  }

  predicate Covers(r: Region, p: nat) {
    r.ptr <= p < r.ptr + r.len
  }

  /** Regions are disjoint exactly if no address belongs to both. */
  lemma DisjointMeans(a: Region, b: Region)
    ensures Disjoint(a, b) <==> forall p :: Covers(a, p) ==> !Covers(b, p)
  {
    if !Disjoint(a, b) {
      var p := if a.ptr <= b.ptr then b.ptr else a.ptr;
      assert Covers(a, p) && Covers(b, p);
    }
  }

  predicate Within(mem: seq<byte>, r: Region) {
    r.ptr + r.len <= |mem|
  }

  function Contents(mem: seq<byte>, r: Region): (b: seq<byte>)
    requires Within(mem, r)
  {
    mem[r.ptr..r.ptr + r.len]
  }

  /** The region shows the same bytes in both memories. */
  predicate SameBytes(m: seq<byte>, m': seq<byte>, r: Region) {
    Within(m, r) && Within(m', r) && Contents(m', r) == Contents(m, r)
  }

  /** Memory with `data` written at `ptr`. */
  function Patched(mem: seq<byte>, ptr: nat, data: seq<byte>): (m: seq<byte>)
    requires ptr + |data| <= |mem|
    ensures |m| == |mem|
  {
    mem[..ptr] + data + mem[ptr + |data|..]
  }

  /** Byte by byte. */
  lemma PatchedAt(mem: seq<byte>, ptr: nat, data: seq<byte>, p: nat)
    requires ptr + |data| <= |mem| && p < |mem|
    ensures Patched(mem, ptr, data)[p] == if ptr <= p < ptr + |data| then data[p - ptr] else mem[p]
  {
  }

  lemma PatchShows(mem: seq<byte>, ptr: nat, data: seq<byte>)
    requires ptr + |data| <= |mem|
    ensures Contents(Patched(mem, ptr, data), Region(ptr, |data|)) == data
  {
  }

  lemma PatchSpares(mem: seq<byte>, ptr: nat, data: seq<byte>, r: Region)
    requires ptr + |data| <= |mem| && Within(mem, r) && Disjoint(r, Region(ptr, |data|))
    ensures Contents(Patched(mem, ptr, data), r) == Contents(mem, r)
  {
    assert forall i :: 0 <= i < |mem| && !(ptr <= i < ptr + |data|) ==> Patched(mem, ptr, data)[i] == mem[i];
  }

  /** A guest instance: its memory, the read buffer it reuses, and the slices its code still holds. */
  class Instance {
    var mem: seq<byte>
    const readBuf: nat
    var slices: seq<Region>

    ghost predicate Valid()
      reads this
    {
      && |mem| <= U32_LIMIT
      && Within(mem, Region(readBuf, READ_BUF_SIZE))
      && (forall i :: 0 <= i < |slices| ==>
        Within(mem, slices[i]) && Disjoint(slices[i], Region(readBuf, READ_BUF_SIZE)))
    }

    /** A region the allocator may hand out: it overlaps nothing in use. */
    predicate IsFree(r: Region)
      reads this
    {
      && r.ptr + r.len <= U32_LIMIT
      && Disjoint(r, Region(readBuf, READ_BUF_SIZE))
      && forall i :: 0 <= i < |slices| ==> Disjoint(slices[i], r)
    }

    /** Every slice held before is still held, where it was and with the bytes it had. */
    twostate predicate SlicesKept()
      reads this
    {
      && |old(mem)| <= |mem| && |old(slices)| <= |slices|
      && forall i :: 0 <= i < |old(slices)| ==> slices[i] == old(slices[i]) && SameBytes(old(mem), mem, slices[i])
    }

    /** The memory at birth holds the read buffer somewhere. */
    constructor (initial: seq<byte>, buffer: nat)
      requires |initial| <= U32_LIMIT && buffer + READ_BUF_SIZE <= |initial|
      ensures Valid() && slices == [] && mem == initial && readBuf == buffer
    {
      mem, readBuf, slices := initial, buffer, [];
    }

    /**
     make([]byte, size): zeroed bytes at any free place the allocator likes (`wish`), growing memory if need be; None
     when memory is exhausted, which ends the guest.
     */
    method Make(size: nat, wish: nat) returns (r: Option<Region>)
      requires Valid()
      modifies this
      ensures Valid() && SlicesKept()
      ensures r.None? ==> slices == old(slices) && |mem| == |old(mem)| && |mem| + size > U32_LIMIT
      ensures r.Some? ==> r.value.len == size && old(IsFree(r.value)) && Within(mem, r.value)
      ensures r.Some? ==> slices == old(slices) + [r.value]
      ensures Contents(mem, Region(readBuf, READ_BUF_SIZE)) == old(Contents(mem, Region(readBuf, READ_BUF_SIZE)))
    {
      var at := Region(wish, size);
      if !IsFree(at) {
        at := Region(|mem|, size);
        if |mem| + size > U32_LIMIT {
          return None;
        }
      }
      var grown := if at.ptr + size <= |mem| then mem else mem + seq(at.ptr + size - |mem|, _ => 0);
      var zeros := seq(size, _ => 0);
      GrowSpares(mem, grown);
      forall x | Within(mem, x) && Disjoint(x, Region(at.ptr, size))
        ensures Contents(Patched(grown, at.ptr, zeros), x) == Contents(mem, x) {
        PatchSpares(grown, at.ptr, zeros, x);
      }
      mem := Patched(grown, at.ptr, zeros);
      slices := slices + [at];
      r := Some(at);
    }

    /** The host's Memory.Write: all or nothing. */
    method Write(ptr: nat, data: seq<byte>) returns (ok: bool)
      modifies this`mem
      ensures ok <==> ptr + |data| <= |old(mem)|
      ensures mem == if ok then Patched(old(mem), ptr, data) else old(mem)
    {
      ok := ptr + |data| <= |mem|;
      if ok {
        mem := Patched(mem, ptr, data);
      }
    }

    /** The host's contextData: the size if it is over the limit, otherwise the data is written. */
    method ContextData(pointer: nat, limit: nat, data: seq<byte>) returns (n: nat)
      modifies this`mem
      ensures n == if |data| % U32_LIMIT > limit || (|data| % U32_LIMIT > 0 && pointer + |data| <= |old(mem)|)
        then |data| % U32_LIMIT else 0
      ensures mem == if 0 < |data| % U32_LIMIT <= limit && pointer + |data| <= |old(mem)|
        then Patched(old(mem), pointer, data) else old(mem)
    {
      var dataLen := |data| % U32_LIMIT;
      if dataLen > limit {
        return dataLen;
      } else if dataLen == 0 {
        return 0;
      }
      var ok := Write(pointer, data);
      n := if ok then dataLen else 0;
    }

    /** One call of contextData with a buffer that lies in memory: nothing outside the buffer changes. */
    method Fetch(pointer: nat, limit: nat, data: seq<byte>) returns (size: nat)
      requires |mem| <= U32_LIMIT && Within(mem, Region(pointer, limit))
      modifies this`mem
      ensures |mem| == |old(mem)|
      ensures forall x :: Within(mem, x) && Disjoint(x, Region(pointer, limit)) ==>
        Contents(mem, x) == old(Contents(mem, x))
      ensures |data| < U32_LIMIT ==> size == |data|
      ensures |data| <= limit && |data| < U32_LIMIT ==> Contents(mem, Region(pointer, |data|)) == data
      ensures size < U32_LIMIT
    {
      ghost var before := mem;
      size := ContextData(pointer, limit, data);
      if mem != before {
        forall x | Within(mem, x) && Disjoint(x, Region(pointer, limit))
          ensures Contents(mem, x) == Contents(before, x) {
          PatchSpares(before, pointer, data, x);
        }
        PatchShows(before, pointer, data);
      }
    }

    /**
     GetBytes over contextData: short data through the read buffer, copied out; longer data through a second call with
     a buffer of the size learnt from the first. None only when guest memory is exhausted. The bytes are the host's
     exactly when their number fits in 32 bits.
     */
    method GetBytes(data: seq<byte>, wish: nat) returns (r: Option<Region>, ghost calls: nat)
      requires Valid()
      modifies this
      ensures Valid() && SlicesKept()
      ensures r.Some? ==> Within(mem, r.value) && (Contents(mem, r.value) == data <==> |data| < U32_LIMIT)
      ensures r.Some? && r.value.len > 0 ==> slices == old(slices) + [r.value]
      ensures r.None? && |data| < U32_LIMIT ==> |mem| + |data| > U32_LIMIT
      ensures r.Some? && |data| < U32_LIMIT ==> calls == if |data| <= 2048 then 1 else 2
    {
      var size := Fetch(readBuf, READ_BUF_SIZE, data);
      calls := 1;
      if size == 0 {
        return Some(Region(0, 0)), calls;
      }
      FirstBytes(mem, readBuf, if size <= READ_BUF_SIZE then size else 0, READ_BUF_SIZE);
      r := Make(size, wish);
      if r.None? {
        return;
      }
      var at := r.value;
      assert slices[|slices| - 1] == at;
      if size <= READ_BUF_SIZE {
        FirstBytes(mem, readBuf, size, READ_BUF_SIZE);
        CopyTo(at, Contents(mem, Region(readBuf, size)));
      } else {
        var _ := Fetch(at.ptr, size, data);
        calls := 2;
      }
    }

    /**
     allocateBuffer, after the guest's allocator has answered with `allocPtr` (None if it failed, as it does for an
     empty buffer): pointer cell, size cell, data, in this order; what is written before a write fails stays.
     */
    method AllocateBuffer(allocPtr: Option<nat>, ptrCell: nat, sizeCell: nat, buf: seq<byte>) returns (r: HostResult)
      requires buf == [] ==> allocPtr.None?
      modifies this`mem
      ensures |mem| == |old(mem)|
      ensures r.AllocFailed? <==> allocPtr.None?
      ensures r.AllocFailed? ==> mem == old(mem)
      ensures r.Written? <==> allocPtr.Some? && Fits(|mem|, allocPtr.value, ptrCell, sizeCell, buf)
      ensures r.Written? ==> mem == Response(old(mem), allocPtr.value, ptrCell, sizeCell, buf)
      ensures r.WriteFailed? ==>
        mem ==
          if ptrCell + 4 > |mem| then old(mem)
          else if sizeCell + 4 > |mem| then Patched(old(mem), ptrCell, U32(allocPtr.value))
          else Patched(Patched(old(mem), ptrCell, U32(allocPtr.value)), sizeCell, U32(|buf|))
    {
      if allocPtr.None? {
        return AllocFailed;
      }
      var ok := Write(ptrCell, U32(allocPtr.value));
      if !ok {
        return WriteFailed;
      }
      ok := Write(sizeCell, U32(|buf|));
      if !ok {
        return WriteFailed;
      }
      ok := Write(allocPtr.value, buf);
      r := if ok then Written else WriteFailed;
    }

    /**
     readBufferFromMemory, of a buffer in use: a new buffer of its length, filled byte by byte, each the low eight bits
     of a 32-bit load; a load that leaves memory traps. Making the new buffer may grow memory.
     */
    method ReadBufferFromMemory(data: Region, wish: nat) returns (r: ReadResult)
      requires Valid() && Within(mem, data) && data in slices
      modifies this
      ensures Valid() && SlicesKept()
      ensures r.OutOfMemory? ==> |mem| + data.len > U32_LIMIT
      ensures r.Read? <==> !r.OutOfMemory? && (data.len == 0 || data.ptr + data.len + 3 <= |mem|)
      ensures r.Read? ==> Within(mem, r.at) && Contents(mem, r.at) == Contents(mem, data) == old(Contents(mem, data))
    {
      var made := Make(data.len, wish);
      if made.None? {
        return OutOfMemory;
      }
      var at := made.value;
      ghost var m := mem;
      var n := FillFrom(at, data);
      FilledSpares(m, at, data, n, old(slices));
      if n < data.len {
        return Trap;
      }
      AllFilled(m, at, data);
      r := Read(at);
    }

    /** The loop: `n` bytes are filled, all of them unless a load traps. */
    method FillFrom(at: Region, data: Region) returns (n: nat)
      requires data.len == at.len && Within(mem, data) && Within(mem, at) && Disjoint(data, at)
      modifies this`mem
      ensures n <= data.len && mem == Filled(old(mem), at, data, n)
      ensures n == data.len <==> data.len == 0 || data.ptr + data.len + 3 <= |mem|
    {
      n := 0;
      NothingFilled(mem, at, data);
      while n < data.len
        invariant n <= data.len && mem == Filled(old(mem), at, data, n)
        invariant n > 0 ==> data.ptr + n + 3 <= |mem|
      {
        var ok := FillByte(at, data, n, old(mem));
        if !ok {
          return;
        }
        n := n + 1;
      }
    }

    /** One round of the loop: a load and a store. */
    method FillByte(at: Region, data: Region, i: nat, ghost m: seq<byte>) returns (ok: bool)
      requires i < data.len == at.len && Within(m, data) && Within(m, at) && Disjoint(data, at)
      requires mem == Filled(m, at, data, i)
      modifies this`mem
      ensures ok <==> data.ptr + i + 4 <= |mem|
      ensures mem == Filled(m, at, data, if ok then i + 1 else i)
    {
      var word := LoadI32(mem, data.ptr + i);
      ok := word.Some?;
      if ok {
        LowByteLoaded(m, at, data, i);
        FilledGrows(m, at, data, i);
        mem := Patched(mem, at.ptr + i, [word.value % 256]);
      }
    }

    /** Go's copy into a slice of the same length. */
    method CopyTo(at: Region, bytes: seq<byte>)
      requires Within(mem, at) && |bytes| == at.len
      modifies this`mem
      ensures |mem| == |old(mem)| && Contents(mem, at) == bytes
      ensures forall x :: Within(mem, x) && Disjoint(x, at) ==> Contents(mem, x) == old(Contents(mem, x))
    {
      ghost var before := mem;
      mem := Patched(mem, at.ptr, bytes);
      PatchShows(before, at.ptr, bytes);
      forall x | Within(mem, x) && Disjoint(x, at) ensures Contents(mem, x) == Contents(before, x) {
        PatchSpares(before, at.ptr, bytes, x);
      }
    }
  }

  lemma FirstBytes(mem: seq<byte>, ptr: nat, n: nat, m: nat)
    requires n <= m && ptr + m <= |mem|
    ensures Contents(mem, Region(ptr, n)) == Contents(mem, Region(ptr, m))[..n]
  {
  }

  lemma GrowSpares(mem: seq<byte>, grown: seq<byte>)
    requires mem <= grown
    ensures forall r :: Within(mem, r) ==> Contents(grown, r) == Contents(mem, r)
  {
  }

  /** Whether the guest, holding `slices`, sees the data of a request in the slice `r` it got for it. */
  ghost predicate Sees(mem: seq<byte>, slices: seq<Region>, r: Region, data: seq<byte>) {
    Within(mem, r) && Contents(mem, r) == data && (r.len == 0 || r in slices)
  }

  /** Each of the requests read so far is still seen. */
  ghost predicate AllSeen(mem: seq<byte>, slices: seq<Region>, rs: seq<Region>, datas: seq<seq<byte>>) {
    |rs| <= |datas| && forall i :: 0 <= i < |rs| ==> Sees(mem, slices, rs[i], datas[i])
  }

  /**
   Any number of requests, all read through the same read buffer: at the end every slice still shows its own data. They
   are cut short only by a request whose data no longer fits in memory.
   */
  method ReadAll(inst: Instance, datas: seq<seq<byte>>, wish: nat -> nat) returns (rs: seq<Region>)
    requires inst.Valid()
    requires forall d :: d in datas ==> |d| < U32_LIMIT
    modifies inst
    ensures inst.Valid() && AllSeen(inst.mem, inst.slices, rs, datas)
    ensures |rs| < |datas| ==> |inst.mem| + |datas[|rs|]| > U32_LIMIT
  {
    rs := [];
    for i := 0 to |datas|
      invariant inst.Valid() && |rs| == i && AllSeen(inst.mem, inst.slices, rs, datas)
    {
      ghost var mem, slices := inst.mem, inst.slices;
      var r, _ := inst.GetBytes(datas[i], wish(i));
      StillSeen(mem, slices, inst.mem, inst.slices, rs, datas);
      if r.None? {
        return;
      }
      assert r.value.len > 0 ==> inst.slices[|slices|] == r.value;
      rs := rs + [r.value];
    }
  }

  /** Slices kept with their bytes keep showing their data. */
  lemma StillSeen(
    mem: seq<byte>, slices: seq<Region>, mem': seq<byte>, slices': seq<Region>, rs: seq<Region>, datas: seq<seq<byte>>)
    requires AllSeen(mem, slices, rs, datas) && |mem| <= |mem'| && slices <= slices'
    requires forall x :: x in slices && Within(mem, x) ==> Contents(mem', x) == Contents(mem, x)
    ensures AllSeen(mem', slices', rs, datas)
  {
  }

  // ---------------------------------------------------------------- a response from the host

  /** A little-endian 32-bit cell. */
  function Cell(mem: seq<byte>, ptr: nat): (n: nat)
    requires ptr + 4 <= |mem|
  {
    FromU32(mem[ptr..ptr + 4])
  }

  /** A signed 32-bit load; None is a trap. */
  function LoadI32(mem: seq<byte>, ptr: nat): (v: Option<int>) {
    if ptr + 4 > |mem| then None
    else
      var n := Cell(mem, ptr);
      Some(if n < 0x8000_0000 then n else n - U32_LIMIT)
  }

  predicate Fits(size: nat, allocPtr: nat, ptrCell: nat, sizeCell: nat, buf: seq<byte>) {
    ptrCell + 4 <= size && sizeCell + 4 <= size && allocPtr + |buf| <= size
  }

  /** Memory after the host's three writes, the later ones over the earlier ones. */
  function Response(mem: seq<byte>, allocPtr: nat, ptrCell: nat, sizeCell: nat, buf: seq<byte>): (m: seq<byte>)
    requires Fits(|mem|, allocPtr, ptrCell, sizeCell, buf)
    ensures |m| == |mem|
  {
    Patched(Patched(Patched(mem, ptrCell, U32(allocPtr)), sizeCell, U32(|buf|)), allocPtr, buf)
  }

  datatype HostResult = Written | AllocFailed | WriteFailed

  datatype ReadResult = Read(at: Region) | Trap | OutOfMemory

  /** The first `i` bytes of a new buffer have been filled from `data`. */
  ghost function Filled(m: seq<byte>, at: Region, data: Region, i: nat): (m': seq<byte>)
    requires i <= data.len == at.len && Within(m, data) && Within(m, at)
    ensures |m'| == |m|
  {
    Patched(m, at.ptr, m[data.ptr..data.ptr + i])
  }

  lemma NothingFilled(m: seq<byte>, at: Region, data: Region)
    requires data.len == at.len && Within(m, data) && Within(m, at)
    ensures Filled(m, at, data, 0) == m
  {
  }

  lemma AllFilled(m: seq<byte>, at: Region, data: Region)
    requires data.len == at.len && Within(m, data) && Within(m, at)
    ensures Contents(Filled(m, at, data, data.len), at) == Contents(m, data)
  {
    PatchShows(m, at.ptr, Contents(m, data));
  }

  lemma FilledGrows(m: seq<byte>, at: Region, data: Region, i: nat)
    requires i < data.len == at.len && Within(m, data) && Within(m, at)
    ensures Filled(m, at, data, i + 1) == Patched(Filled(m, at, data, i), at.ptr + i, [m[data.ptr + i]])
  {
    assert m[data.ptr..data.ptr + i + 1] == m[data.ptr..data.ptr + i] + [m[data.ptr + i]];
  }

  /** What was in use before the new buffer shows the bytes it had. */
  lemma FilledSpares(m: seq<byte>, at: Region, data: Region, i: nat, inUse: seq<Region>)
    requires i <= data.len == at.len && Within(m, data) && Within(m, at) && data in inUse
    requires forall k :: 0 <= k < |inUse| ==> Within(m, inUse[k]) && Disjoint(inUse[k], at)
    ensures forall k :: 0 <= k < |inUse| ==> SameBytes(m, Filled(m, at, data, i), inUse[k])
  {
    forall k | 0 <= k < |inUse| ensures SameBytes(m, Filled(m, at, data, i), inUse[k]) {
      PatchSpares(m, at.ptr, m[data.ptr..data.ptr + i], inUse[k]);
    }
  }

  /** The low byte of what a load gives is the byte of `data`, whatever part of the new buffer lies behind it. */
  lemma LowByteLoaded(m: seq<byte>, at: Region, data: Region, i: nat)
    requires i < data.len == at.len && Within(m, data) && Within(m, at) && Disjoint(data, at)
    requires data.ptr + i + 4 <= |m|
    ensures LoadI32(Filled(m, at, data, i), data.ptr + i).value % 256 == m[data.ptr + i]
  {
    var now := Filled(m, at, data, i);
    var p := data.ptr + i;
    assert now[p] == m[p];
    assert now[p..p + 4][0] == now[p];
    LowByte(now[p..p + 4]);
  }

  lemma LowByte(b: seq<byte>)
    requires |b| == 4
    ensures FromU32(b) % 256 == b[0] && (FromU32(b) - U32_LIMIT) % 256 == b[0]
  {
    assert FromU32(b) == 256 * (b[1] as int + 256 * (b[2] as int) + 65536 * (b[3] as int)) + b[0] as int;
  }

  lemma CellShows(mem: seq<byte>, ptr: nat, n: nat)
    requires ptr + 4 <= |mem|
    ensures Cell(Patched(mem, ptr, U32(n)), ptr) == n % U32_LIMIT
  {
    PatchShows(mem, ptr, U32(n));
    U32RoundTrip(n);
  }

  /** What allocateBuffer leaves in memory: each of its three writes survives the later ones. */
  lemma CellsSurvive(mem: seq<byte>, allocPtr: nat, ptrCell: nat, sizeCell: nat, buf: seq<byte>)
    requires |mem| <= U32_LIMIT && buf != []
    requires Within(mem, Region(ptrCell, 4)) && Within(mem, Region(sizeCell, 4)) && Within(mem, Region(allocPtr, |buf|))
    requires Disjoint(Region(ptrCell, 4), Region(sizeCell, 4))
    requires Disjoint(Region(ptrCell, 4), Region(allocPtr, |buf|))
    requires Disjoint(Region(sizeCell, 4), Region(allocPtr, |buf|))
    ensures
      var m := Response(mem, allocPtr, ptrCell, sizeCell, buf);
      Cell(m, ptrCell) == allocPtr && Cell(m, sizeCell) == |buf| && Contents(m, Region(allocPtr, |buf|)) == buf
  {
    var m1 := Patched(mem, ptrCell, U32(allocPtr));
    var m2 := Patched(m1, sizeCell, U32(|buf|));
    CellShows(mem, ptrCell, allocPtr);
    CellShows(m1, sizeCell, |buf|);
    PatchSpares(m1, sizeCell, U32(|buf|), Region(ptrCell, 4));
    PatchSpares(m2, allocPtr, buf, Region(ptrCell, 4));
    PatchSpares(m2, allocPtr, buf, Region(sizeCell, 4));
    PatchShows(m2, allocPtr, buf);
    SmallMod(allocPtr);
    SmallMod(|buf|);
  }

  lemma SmallMod(n: nat)
    requires n < U32_LIMIT
    ensures n % U32_LIMIT == n
  {
  }

  /** Everything in use before, but for the two cells, shows the bytes it had. */
  twostate predicate OthersKept(inst: Instance, ptrCell: Region, sizeCell: Region)
    reads inst
  {
    && |old(inst.slices)| <= |inst.slices|
    && forall k :: 0 <= k < |old(inst.slices)| ==>
         inst.slices[k] == old(inst.slices[k]) && SparedBy(old(inst.mem), inst.mem, ptrCell, sizeCell, inst.slices[k])
  }

  /** Unless it overlaps a cell, the region shows the same bytes. */
  predicate SparedBy(m: seq<byte>, m': seq<byte>, ptrCell: Region, sizeCell: Region, x: Region) {
    Disjoint(x, ptrCell) && Disjoint(x, sizeCell) ==> SameBytes(m, m', x)
  }

  /** The host's part: the guest allocates, the host writes pointer, size and data. None when memory is exhausted. */
  method SendResponse(inst: Instance, ptrCell: Region, sizeCell: Region, buf: seq<byte>, wish: nat)
      returns (data: Option<Region>)
    requires inst.Valid() && 0 < |buf| < U32_LIMIT
    requires ptrCell in inst.slices && ptrCell.len == 4 && sizeCell in inst.slices && sizeCell.len == 4
    requires Disjoint(ptrCell, sizeCell)
    modifies inst
    ensures inst.Valid() && OthersKept(inst, ptrCell, sizeCell)
    ensures data.None? ==> |inst.mem| + |buf| > U32_LIMIT
    ensures data.Some? ==> inst.slices == old(inst.slices) + [data.value]
    ensures data.Some? ==> Within(inst.mem, data.value) && Contents(inst.mem, data.value) == buf
    ensures data.Some? ==> Within(inst.mem, ptrCell) && Within(inst.mem, sizeCell)
    ensures data.Some? ==> data.value == Region(Cell(inst.mem, ptrCell.ptr), Cell(inst.mem, sizeCell.ptr))
  {
    data := inst.Make(|buf|, wish);
    if data.Some? {
      var at := data.value.ptr;
      ghost var m := inst.mem;
      var _ := inst.AllocateBuffer(Some(at), ptrCell.ptr, sizeCell.ptr, buf);
      CellsSurvive(m, at, ptrCell.ptr, sizeCell.ptr, buf);
      OthersSurvive(m, at, ptrCell.ptr, sizeCell.ptr, buf, old(inst.slices));
    }
  }

  /**
   A response from the host and its way into the guest. If memory suffices for both buffers, the guest ends up with the
   host's bytes exactly when three bytes of memory exist behind the data, and traps otherwise; whatever else was in use
   is untouched.
   */
  method ResponseRoundTrip(inst: Instance, ptrCell: Region, sizeCell: Region, buf: seq<byte>, wish: nat, wish': nat)
      returns (r: ReadResult, data: Region)
    requires inst.Valid() && 0 < |buf| < U32_LIMIT
    requires ptrCell in inst.slices && ptrCell.len == 4 && sizeCell in inst.slices && sizeCell.len == 4
    requires Disjoint(ptrCell, sizeCell)
    modifies inst
    ensures inst.Valid() && OthersKept(inst, ptrCell, sizeCell)
    ensures r.OutOfMemory? ==> |inst.mem| + |buf| > U32_LIMIT
    ensures !r.OutOfMemory? ==> data.len == |buf| && (r.Read? <==> data.ptr + |buf| + 3 <= |inst.mem|)
    ensures r.Read? ==> Within(inst.mem, r.at) && Contents(inst.mem, r.at) == buf
  {
    var sent := SendResponse(inst, ptrCell, sizeCell, buf, wish);
    if sent.None? {
      return OutOfMemory, ptrCell;
    }
    data := Region(Cell(inst.mem, ptrCell.ptr), Cell(inst.mem, sizeCell.ptr));
    assert data == inst.slices[|inst.slices| - 1];
    r := inst.ReadBufferFromMemory(data, wish');
  }

  /** The host's writes touch nothing but the two cells and the data. */
  lemma OthersSurvive(mem: seq<byte>, allocPtr: nat, ptrCell: nat, sizeCell: nat, buf: seq<byte>, inUse: seq<Region>)
    requires Fits(|mem|, allocPtr, ptrCell, sizeCell, buf)
    requires forall k :: 0 <= k < |inUse| ==> Within(mem, inUse[k]) && Disjoint(inUse[k], Region(allocPtr, |buf|))
    ensures var m := Response(mem, allocPtr, ptrCell, sizeCell, buf);
      forall k :: 0 <= k < |inUse| ==> SparedBy(mem, m, Region(ptrCell, 4), Region(sizeCell, 4), inUse[k])
  {
    var m1 := Patched(mem, ptrCell, U32(allocPtr));
    var m2 := Patched(m1, sizeCell, U32(|buf|));
    var m := Response(mem, allocPtr, ptrCell, sizeCell, buf);
    forall k | 0 <= k < |inUse| && Disjoint(inUse[k], Region(ptrCell, 4)) && Disjoint(inUse[k], Region(sizeCell, 4))
      ensures SameBytes(mem, m, inUse[k])
    {
      PatchSpares(mem, ptrCell, U32(allocPtr), inUse[k]);
      PatchSpares(m1, sizeCell, U32(|buf|), inUse[k]);
      PatchSpares(m2, allocPtr, buf, inUse[k]);
    }
  }
}
