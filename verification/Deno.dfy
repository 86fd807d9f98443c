/**
 The socket between the zipper's side of a Deno function, in Go (cli/serverless/deno/runtime.go), and the function's
 side, in TypeScript (cli/serverless/deno/mod/mod.ts). One request is handled at a time; a read of n bytes that are
 available gets them all.
 */
module Deno {
  import opened Common
  import opened Bytes

  /** A tag with data: a request, or one of the writes of its handler. */
  datatype Msg = Msg(tag: nat, data: seq<byte>)

  function Encode(m: Msg): (b: seq<byte>)
    ensures |b| == 8 + |m.data|
  {
    U32(m.tag) + U32(|m.data|) + m.data
  }

  function EncodeAll(ms: seq<Msg>): (b: seq<byte>) {
    if ms == [] then [] else Encode(ms[0]) + EncodeAll(ms[1..])
  }

  const TERMINATOR: seq<byte> := U32(0) + U32(0)

  /** What the Go loop makes of a stream: the writes, whether it met a terminator, and what is left. */
  datatype Parsed = Parsed(ended: bool, writes: seq<Msg>, rest: seq<byte>)

  function Parse(b: seq<byte>): (p: Parsed)
    decreases |b|
  {
    if |b| < 8 then Parsed(false, [], [])
    else
      var tag, length := FromU32(b), FromU32(b[4..]);
      if tag == 0 && length == 0 then Parsed(true, [], b[8..])
      else if |b| < 8 + length then Parsed(false, [], [])
      else
        var p := Parse(b[8 + length..]);
        p.(writes := [Msg(tag, b[8..8 + length])] + p.writes)
  }

  /** A write that survives the framing. */
  predicate Sendable(m: Msg) {
    m.tag < U32_LIMIT && |m.data| < U32_LIMIT && !(m.tag == 0 && m.data == [])
  }

  lemma HeaderReads(m: Msg, more: seq<byte>)
    ensures var b := Encode(m) + more;
      && |b| == 8 + |m.data| + |more|
      && FromU32(b) == m.tag % U32_LIMIT && FromU32(b[4..]) == |m.data| % U32_LIMIT
      && b[8..] == m.data + more
  {
    var b := Encode(m) + more;
    assert b == U32(m.tag) + (U32(|m.data|) + (m.data + more));
    U32Prefix(m.tag, U32(|m.data|) + (m.data + more));
    U32Prefix(|m.data|, m.data + more);
    assert b[8..] == b[4..][4..];
  }

  lemma BehindHeader(b: seq<byte>, data: seq<byte>, more: seq<byte>)
    requires |b| >= 8 && b[8..] == data + more
    ensures |b| >= 8 + |data| && b[8..8 + |data|] == data && b[8 + |data|..] == more
  {
    var n := |data|;
    assert b[8..8 + n] == b[8..][..n];
    assert b[8 + n..] == b[8..][n..];
  }

  lemma ParseMessage(b: seq<byte>, m: Msg, more: seq<byte>)
    requires |b| >= 8 + |m.data| && FromU32(b) == m.tag && FromU32(b[4..]) == |m.data|
    requires !(m.tag == 0 && m.data == []) && b[8..8 + |m.data|] == m.data && b[8 + |m.data|..] == more
    ensures Parse(b) == Parse(more).(writes := [m] + Parse(more).writes)
  {
  }

  /** One sendable write is read back, and the loop goes on behind it. */
  lemma SendableReads(m: Msg, more: seq<byte>)
    requires Sendable(m)
    ensures Parse(Encode(m) + more) == Parse(more).(writes := [m] + Parse(more).writes)
  {
    var b := Encode(m) + more;
    HeaderReads(m, more);
    BehindHeader(b, m.data, more);
    ParseMessage(b, m, more);
  }

  /** A write that is not sendable is never read back as what it was. */
  lemma UnsendableReads(m: Msg, more: seq<byte>)
    requires !Sendable(m)
    ensures var p := Parse(Encode(m) + more); p.writes == [] || p.writes[0] != m
  {
    HeaderReads(m, more);
  }

  lemma TerminatorReads(rest: seq<byte>)
    ensures Parse(TERMINATOR + rest) == Parsed(true, [], rest)
  {
    U32Prefix(0, U32(0) + rest);
    U32Prefix(0, rest);
    assert TERMINATOR + rest == U32(0) + (U32(0) + rest);
    assert (TERMINATOR + rest)[8..] == rest;
  }

  /**
   The Go loop recovers exactly the handler's writes and stops behind the terminator, if and only if no write is
   (tag 0, no data) and all tags and lengths fit in 32 bits.
   */
  lemma {:induction false} ResponseRoundTrip(ms: seq<Msg>, rest: seq<byte>)
    ensures Parse(EncodeAll(ms) + TERMINATOR + rest) == Parsed(true, ms, rest) <==> forall m :: m in ms ==> Sendable(m)
  {
    if ms == [] {
      assert EncodeAll(ms) + TERMINATOR + rest == TERMINATOR + rest;
      TerminatorReads(rest);
    } else {
      var more := EncodeAll(ms[1..]) + TERMINATOR + rest;
      assert EncodeAll(ms) + TERMINATOR + rest == Encode(ms[0]) + more;
      assert ms == [ms[0]] + ms[1..];
      ResponseRoundTrip(ms[1..], rest);
      if Sendable(ms[0]) {
        SendableReads(ms[0], more);
        assert ([ms[0]] + Parse(more).writes)[1..] == Parse(more).writes;
      } else {
        UnsendableReads(ms[0], more);
      }
    }
  }

  // ---------------------------------------------------------------- the two ends

  /** One direction of the socket: the bytes written and not yet read. */
  class Pipe {
    var bytes: seq<byte>

    constructor ()
      ensures bytes == []
    {
      bytes := [];
    }

    method Write(b: seq<byte>)
      modifies this
      ensures bytes == old(bytes) + b
    {
      bytes := bytes + b;
    }

    /** Reads exactly n bytes, or reports the end of the stream. */
    method ReadFull(n: nat) returns (b: Option<seq<byte>>)
      modifies this
      ensures if |old(bytes)| >= n then b == Some(old(bytes)[..n]) && bytes == old(bytes)[n..]
        else b == None && bytes == []
    {
      if |bytes| < n {
        bytes := [];
        return None;
      }
      b := Some(bytes[..n]);
      bytes := bytes[n..];
    }

    method ReadU32() returns (n: Option<nat>)
      modifies this
      ensures if |old(bytes)| >= 4 then n == Some(FromU32(old(bytes))) && bytes == old(bytes)[4..]
        else n == None && bytes == []
    {
      var b := ReadFull(4);
      n := if b.Some? then Some(FromU32(b.value)) else None;
    }
  }

  /** A message as either end writes it: tag, length, data. */
  method Send(pipe: Pipe, m: Msg)
    modifies pipe
    ensures pipe.bytes == old(pipe.bytes) + Encode(m)
  {
    pipe.Write(U32(m.tag));
    pipe.Write(U32(|m.data|));
    pipe.Write(m.data);
    assert pipe.bytes == old(pipe.bytes) + Encode(m);
  }

  /** TypeScript: the next request. */
  method ReceiveRequest(pipe: Pipe) returns (m: Option<Msg>)
    modifies pipe
    ensures var b := old(pipe.bytes);
      if |b| >= 8 && |b| >= 8 + FromU32(b[4..])
      then m == Some(Msg(FromU32(b), b[8..8 + FromU32(b[4..])])) && pipe.bytes == b[8 + FromU32(b[4..])..]
      else m == None
  {
    var tag := pipe.ReadU32();
    if tag.None? {
      return None;
    }
    var length := pipe.ReadU32();
    if length.None? {
      return None;
    }
    var data := pipe.ReadFull(length.value);
    if data.None? {
      return None;
    }
    ghost var b := old(pipe.bytes);
    assert b[4..][4..] == b[8..];
    assert b[8..][..length.value] == b[8..8 + length.value];
    assert b[8..][length.value..] == b[8 + length.value..];
    m := Some(Msg(tag.value, data.value));
  }

  /** TypeScript: the handler's writes, then the terminator. */
  method Respond(pipe: Pipe, ms: seq<Msg>)
    modifies pipe
    ensures pipe.bytes == old(pipe.bytes) + EncodeAll(ms) + TERMINATOR
  {
    assert old(pipe.bytes) + EncodeAll([]) == old(pipe.bytes);
    for i := 0 to |ms|
      invariant pipe.bytes == old(pipe.bytes) + EncodeAll(ms[..i])
    {
      EncodeAppends(ms[..i], ms[i]);
      assert ms[..i + 1] == ms[..i] + [ms[i]];
      Send(pipe, ms[i]);
      assert pipe.bytes == old(pipe.bytes) + (EncodeAll(ms[..i]) + Encode(ms[i]));
    }
    assert ms[..|ms|] == ms;
    pipe.Write(U32(0));
    pipe.Write(U32(0));
    assert pipe.bytes == old(pipe.bytes) + EncodeAll(ms) + TERMINATOR;
  }

  lemma {:induction false} EncodeAppends(ms: seq<Msg>, m: Msg)
    ensures EncodeAll(ms + [m]) == EncodeAll(ms) + Encode(m)
  {
    if ms == [] {
      assert EncodeAll([m]) == Encode(m) + EncodeAll([]);
    } else {
      EncodeAppends(ms[1..], m);
      assert (ms + [m])[1..] == ms[1..] + [m];
    }
  }

  /** Go: one message of the response loop. */
  method CollectOne(pipe: Pipe) returns (m: Option<Msg>)
    modifies pipe
    ensures var p := Parse(old(pipe.bytes));
      if m.None? then !p.ended && p.writes == []
      else if m.value.tag == 0 && m.value.data == [] then p == Parsed(true, [], pipe.bytes)
      else p == Parse(pipe.bytes).(writes := [m.value] + Parse(pipe.bytes).writes)
    ensures m.Some? ==> |pipe.bytes| < |old(pipe.bytes)|
  {
    ghost var b := pipe.bytes;
    var tag := pipe.ReadU32();
    if tag.None? {
      return None;
    }
    var length := pipe.ReadU32();
    if length.None? {
      return None;
    }
    assert b[4..][4..] == b[8..];
    if tag.value == 0 && length.value == 0 {
      return Some(Msg(0, []));
    }
    var data := pipe.ReadFull(length.value);
    if data.None? {
      return None;
    }
    assert b[8..][..length.value] == b[8..8 + length.value];
    assert b[8..][length.value..] == b[8 + length.value..];
    m := Some(Msg(tag.value, data.value));
  }

  /** Go: the response loop; each message before the terminator is written on. */
  method CollectResponse(pipe: Pipe) returns (ended: bool, writes: seq<Msg>)
    modifies pipe
    ensures var p := Parse(old(pipe.bytes)); ended == p.ended && writes == p.writes && (ended ==> pipe.bytes == p.rest)
  {
    writes := [];
    assert [] + Parse(pipe.bytes).writes == Parse(pipe.bytes).writes;
    while true
      invariant Parse(old(pipe.bytes)) == Parse(pipe.bytes).(writes := writes + Parse(pipe.bytes).writes)
      decreases |pipe.bytes|
    {
      assert writes + [] == writes;
      var m := CollectOne(pipe);
      if m.None? {
        return false, writes;
      }
      if m.value.tag == 0 && |m.value.data| == 0 {
        return true, writes;
      }
      assert writes + ([m.value] + Parse(pipe.bytes).writes) == writes + [m.value] + Parse(pipe.bytes).writes;
      writes := writes + [m.value];
    }
  }

  /**
   Any number of requests, one after the other over the same two pipes: the function gets each request as it was, the
   zipper gets each handler's writes as they were, and both pipes are left ready for the next. A handler may remember:
   what it writes depends on the number of the request, too.
   */
  method Session(requests: seq<Msg>, handler: (nat, Msg) -> seq<Msg>) returns (responses: seq<seq<Msg>>)
    requires forall r :: r in requests ==> r.tag < U32_LIMIT && |r.data| < U32_LIMIT
    requires forall i, m :: 0 <= i < |requests| && m in handler(i, requests[i]) ==> Sendable(m)
    ensures |responses| == |requests| && forall i :: 0 <= i < |requests| ==> responses[i] == handler(i, requests[i])
  {
    var toDeno := new Pipe();
    var toGo := new Pipe();
    responses := [];
    for i := 0 to |requests|
      invariant fresh(toDeno) && fresh(toGo) && toDeno != toGo
      invariant toDeno.bytes == [] && toGo.bytes == []
      invariant |responses| == i && forall k :: 0 <= k < i ==> responses[k] == handler(k, requests[k])
    {
      var writes := Exchange(toDeno, toGo, requests[i], i, handler);
      responses := responses + [writes];
    }
  }

  /** One request and its response, over empty pipes that are empty again afterwards. */
  method Exchange(toDeno: Pipe, toGo: Pipe, r: Msg, i: nat, handler: (nat, Msg) -> seq<Msg>) returns (writes: seq<Msg>)
    requires toDeno != toGo && toDeno.bytes == [] && toGo.bytes == []
    requires r.tag < U32_LIMIT && |r.data| < U32_LIMIT && forall m :: m in handler(i, r) ==> Sendable(m)
    modifies toDeno, toGo
    ensures writes == handler(i, r) && toDeno.bytes == [] && toGo.bytes == []
  {
    Send(toDeno, r);
    RequestRoundTrip(r, toDeno.bytes);
    var got := ReceiveRequest(toDeno);
    var ms := handler(i, got.value);
    Respond(toGo, ms);
    assert toGo.bytes == EncodeAll(ms) + TERMINATOR + [];
    ResponseRoundTrip(ms, []);
    var ended;
    ended, writes := CollectResponse(toGo);
  }

  lemma RequestRoundTrip(r: Msg, b: seq<byte>)
    requires r.tag < U32_LIMIT && |r.data| < U32_LIMIT && b == [] + Encode(r)
    ensures |b| == 8 + |r.data| && FromU32(b) == r.tag && FromU32(b[4..]) == |r.data| && b[8..] == r.data
    ensures b[8..8 + |r.data|] == r.data && b[8 + |r.data|..] == []
  {
    HeaderReads(r, []);
    assert b == Encode(r) + [];
    assert r.data + [] == r.data;
    assert b[8..8 + |r.data|] == b[8..];
  }

  // ---------------------------------------------------------------- the opening tag list

  function EncodeTags(tags: seq<nat>): (b: seq<byte>)
    ensures |b| == 4 * |tags|
  {
    if tags == [] then [] else U32(tags[0]) + EncodeTags(tags[1..])
  }

  datatype Accepted = Accepted(tags: seq<nat>) | EndOfStream | OutOfRange

  /** TypeScript: the count, then the tags. */
  method SendTags(pipe: Pipe, tags: seq<nat>)
    modifies pipe
    ensures pipe.bytes == old(pipe.bytes) + U32(|tags|) + EncodeTags(tags)
  {
    pipe.Write(U32(|tags|));
    ghost var start := pipe.bytes;
    assert start + EncodeTags([]) == start;
    for i := 0 to |tags|
      invariant pipe.bytes == start + EncodeTags(tags[..i])
    {
      TagsAppend(tags[..i], tags[i]);
      assert tags[..i + 1] == tags[..i] + [tags[i]];
      pipe.Write(U32(tags[i]));
      assert pipe.bytes == start + (EncodeTags(tags[..i]) + U32(tags[i]));
    }
    assert tags[..|tags|] == tags;
  }

  lemma {:induction false} TagsAppend(tags: seq<nat>, tag: nat)
    ensures EncodeTags(tags + [tag]) == EncodeTags(tags) + U32(tag)
  {
    if tags == [] {
      assert EncodeTags([tag]) == U32(tag) + EncodeTags([]);
    } else {
      TagsAppend(tags[1..], tag);
      assert (tags + [tag])[1..] == tags[1..] + [tag];
    }
  }

  /** The i-th 32-bit number of a buffer. */
  function NumberAt(b: seq<byte>, i: nat): (n: nat)
    requires 4 * i + 4 <= |b|
  {
    FromU32(b[4 * i..4 * i + 4])
  }

  lemma NumberInPrefix(b: seq<byte>, m: nat, i: nat)
    requires 4 * i + 4 <= m <= |b|
    ensures NumberAt(b[..m], i) == NumberAt(b, i)
  {
    assert b[..m][4 * i..4 * i + 4] == b[4 * i..4 * i + 4];
  }

  /**
   What Accept does with a count `n` and the bytes `body` behind it: the buffer's size is a 32-bit product, which may
   wrap.
   */
  ghost predicate AcceptedFrom(n: nat, body: seq<byte>, r: Accepted) {
    if |body| < n * 4 % U32_LIMIT then r == EndOfStream
    else if n * 4 >= U32_LIMIT then r == OutOfRange
    else r.Accepted? && |r.tags| == n && n * 4 <= |body| && forall i :: 0 <= i < n ==> r.tags[i] == NumberAt(body, i)
  }

  /** Go: reads the tag list; a wrapped size makes the loop run out of the buffer. */
  method Accept(pipe: Pipe) returns (r: Accepted)
    modifies pipe
    ensures var b := old(pipe.bytes);
      if |b| < 4 then r == EndOfStream
      else AcceptedFrom(FromU32(b), b[4..], r) && (r.Accepted? ==> pipe.bytes == b[4..][4 * FromU32(b)..])
  {
    var length := pipe.ReadU32();
    if length.None? {
      return EndOfStream;
    }
    var n := length.value;
    var size := n * 4 % U32_LIMIT;
    ghost var body := pipe.bytes;
    var observed := pipe.ReadFull(size);
    if observed.None? {
      return EndOfStream;
    }
    var buf := observed.value;
    var tags: seq<nat> := [];
    for i := 0 to n
      invariant pipe.bytes == body[size..]
      invariant |tags| == i && i * 4 <= |buf| && forall k :: 0 <= k < i ==> tags[k] == NumberAt(body, k)
    {
      if i * 4 + 4 > |buf| {
        return OutOfRange;
      }
      NumberInPrefix(body, size, i);
      tags := tags + [NumberAt(buf, i)];
    }
    assert size == n * 4;
    r := Accepted(tags);
  }

  lemma {:induction false} NumbersRead(ns: seq<nat>, i: nat)
    requires i < |ns|
    ensures NumberAt(EncodeTags(ns), i) == ns[i] % U32_LIMIT
  {
    var b, more := EncodeTags(ns), EncodeTags(ns[1..]);
    if i == 0 {
      U32RoundTrip(ns[0]);
      assert b[0..4] == U32(ns[0]);
    } else {
      NumbersRead(ns[1..], i - 1);
      assert b[4 * i..4 * i + 4] == more[4 * (i - 1)..4 * (i - 1) + 4];
    }
  }

  /** A list that is too long never comes out as it was. */
  lemma TooManyTags(n: nat, body: seq<byte>, r: Accepted)
    requires n >= 0x4000_0000 && AcceptedFrom(n % U32_LIMIT, body, r)
    ensures r.Accepted? ==> |r.tags| != n
  {
  }

  lemma FewTags(tags: seq<nat>, body: seq<byte>, r: Accepted)
    requires |tags| < 0x4000_0000 && |body| == 4 * |tags| && AcceptedFrom(|tags|, body, r)
    requires forall i :: 0 <= i < |tags| ==> NumberAt(body, i) == tags[i] % U32_LIMIT
    ensures r.Accepted? && |r.tags| == |tags| && forall i :: 0 <= i < |tags| ==> r.tags[i] == tags[i] % U32_LIMIT
  {
    assert |tags| * 4 % U32_LIMIT == |tags| * 4;
  }

  lemma OpeningVerdict(tags: seq<nat>, body: seq<byte>, r: Accepted)
    requires |body| == 4 * |tags| && AcceptedFrom(|tags| % U32_LIMIT, body, r)
    requires forall i :: 0 <= i < |tags| ==> NumberAt(body, i) == tags[i] % U32_LIMIT
    ensures r == Accepted(tags) <==> |tags| < 0x4000_0000 && forall i :: 0 <= i < |tags| ==> tags[i] < U32_LIMIT
  {
    if |tags| < 0x4000_0000 {
      FewTags(tags, body, r);
      SameTags(tags, r.tags);
    } else {
      TooManyTags(|tags|, body, r);
    }
  }

  lemma SameTags(tags: seq<nat>, got: seq<nat>)
    requires |got| == |tags| && forall i :: 0 <= i < |tags| ==> got[i] == tags[i] % U32_LIMIT
    ensures got == tags <==> forall i :: 0 <= i < |tags| ==> tags[i] < U32_LIMIT
  {
  }

  /** The tag list arrives as it was if and only if there are fewer than 2^30 tags and each fits in 32 bits. */
  method OpeningRoundTrip(tags: seq<nat>) returns (r: Accepted)
    ensures r == Accepted(tags) <==> |tags| < 0x4000_0000 && forall i :: 0 <= i < |tags| ==> tags[i] < U32_LIMIT
  {
    var pipe := new Pipe();
    SendTags(pipe, tags);
    assert pipe.bytes == U32(|tags|) + EncodeTags(tags);
    U32Prefix(|tags|, EncodeTags(tags));
    r := Accept(pipe);
    forall i | 0 <= i < |tags| ensures NumberAt(EncodeTags(tags), i) == tags[i] % U32_LIMIT {
      NumbersRead(tags, i);
    }
    OpeningVerdict(tags, EncodeTags(tags), r);
  }
}
