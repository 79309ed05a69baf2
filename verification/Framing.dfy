/** The packet stream from client to server: 16-byte headers and data, and how any
    run of received bytes divides into packets. */
module Framing {
  import opened Bytes

  const MAGIC: Word := 0xFA42AB
  const MAXSZ: nat := 33554432
  const HEADER: nat := 16

  datatype Packet = Packet(reply: Word, kind: seq<Byte>, data: seq<Byte>)

  // What the client puts on the wire.
  function Encode(p: Packet): seq<Byte>
    requires |p.data| < 0x1_0000_0000
  {
    BigEndian(MAGIC) + BigEndian(|p.data|) + BigEndian(p.reply) + p.kind + p.data
  }

  // Packets the server takes: four type bytes and at most 32MB of data.
  predicate Sendable(p: Packet) {
    |p.kind| == 4 && |p.data| <= MAXSZ
  }

  predicate AllSendable(ps: seq<Packet>) {
    forall k :: 0 <= k < |ps| ==> Sendable(ps[k])
  }

  function EncodeAll(ps: seq<Packet>): seq<Byte>
    requires AllSendable(ps)
  {
    if ps == [] then [] else Encode(ps[0]) + EncodeAll(ps[1..])
  }

  // A stream divided: the packets complete so far, the bytes after them, and
  // whether those begin with a header the server refuses.
  datatype Division = Division(packets: seq<Packet>, rest: seq<Byte>, refused: bool)

  predicate GoodHeader(s: seq<Byte>)
    requires HEADER <= |s|
  {
    WordAt(s, 0) == MAGIC && WordAt(s, 4) <= MAXSZ
  }

  function FirstPacket(s: seq<Byte>): Packet
    requires HEADER <= |s| && HEADER + WordAt(s, 4) <= |s|
  {
    Packet(WordAt(s, 8), s[12..16], s[HEADER..HEADER + WordAt(s, 4)])
  }

  predicate Partial(s: seq<Byte>) {
    |s| < HEADER || (GoodHeader(s) && |s| < HEADER + WordAt(s, 4))
  }

  function Divide(s: seq<Byte>): Division
    decreases |s|
  {
    if Partial(s) then Division([], s, false)
    else if !GoodHeader(s) then Division([], s, true)
    else
      var tail := Divide(s[HEADER + WordAt(s, 4)..]);
      Division([FirstPacket(s)] + tail.packets, tail.rest, tail.refused)
  }

  // The header as it goes over the wire.
  lemma WireFormat(p: Packet)
    requires |p.kind| == 4 && |p.data| < 0x1_0000_0000
    ensures var s := Encode(p);
            && |s| == 16 + |p.data| && s[0..4] == [0, 0xFA, 0x42, 0xAB]
            && s[4..8] == BigEndian(|p.data|) && s[8..12] == BigEndian(p.reply)
            && s[12..16] == p.kind && s[16..] == p.data
    ensures Sendable(p) <==> |p.data| <= 32 * 1024 * 1024
  {
    assert BigEndian(MAGIC) == [0, 0xFA, 0x42, 0xAB];
    hide BigEndian;
  }

  // ----- Dividing is the inverse of encoding -----

  lemma HeaderOf(p: Packet, tail: seq<Byte>)
    requires |p.kind| == 4 && |p.data| < 0x1_0000_0000
    ensures var s := Encode(p) + tail;
            && |s| == HEADER + |p.data| + |tail|
            && WordAt(s, 0) == MAGIC && WordAt(s, 4) == |p.data| && WordAt(s, 8) == p.reply
            && s[12..16] == p.kind && s[HEADER..HEADER + |p.data|] == p.data && s[HEADER + |p.data|..] == tail
  {
    var s := Encode(p) + tail;
    var m, l, r := BigEndian(MAGIC), BigEndian(|p.data|), BigEndian(p.reply);
    WordInside([], MAGIC, l + r + p.kind + p.data + tail);
    WordInside(m, |p.data|, r + p.kind + p.data + tail);
    WordInside(m + l, p.reply, p.kind + p.data + tail);
    assert s == [] + m + (l + r + p.kind + p.data + tail);
    assert s == m + l + (r + p.kind + p.data + tail);
    assert s == m + l + r + (p.kind + p.data + tail);
  }

  // A packet's bytes come off the stream as that packet, unless its data is too
  // long: then, and only then, the server refuses it.
  lemma DividePacket(p: Packet, tail: seq<Byte>)
    requires |p.kind| == 4 && |p.data| < 0x1_0000_0000
    ensures var d := Divide(Encode(p) + tail);
            if Sendable(p) then
              d == Division([p] + Divide(tail).packets, Divide(tail).rest, Divide(tail).refused)
            else d.packets == [] && d.refused
  {
    HeaderOf(p, tail);
  }

  lemma {:induction false} DivideEncoded(ps: seq<Packet>, tail: seq<Byte>)
    requires AllSendable(ps)
    ensures Divide(EncodeAll(ps) + tail)
         == Division(ps + Divide(tail).packets, Divide(tail).rest, Divide(tail).refused)
  {
    hide Divide, Encode;
    if ps == [] {
      assert EncodeAll(ps) + tail == tail;
      assert ps + Divide(tail).packets == Divide(tail).packets;
    } else {
      DivideEncoded(ps[1..], tail);
      DividePacket(ps[0], EncodeAll(ps[1..]) + tail);
      assert EncodeAll(ps) + tail == Encode(ps[0]) + (EncodeAll(ps[1..]) + tail);
      assert [ps[0]] + (ps[1..] + Divide(tail).packets) == ps + Divide(tail).packets;
    }
  }

  lemma FirstPacketBytes(s: seq<Byte>)
    requires !Partial(s) && GoodHeader(s)
    ensures Sendable(FirstPacket(s))
    ensures Encode(FirstPacket(s)) + s[HEADER + WordAt(s, 4)..] == s
  {
    var p := FirstPacket(s);
    BytesRoundTrip(s, 0);
    BytesRoundTrip(s, 4);
    BytesRoundTrip(s, 8);
    assert s == s[0..4] + s[4..8] + s[8..12] + s[12..16] + s[HEADER..HEADER + |p.data|] + s[HEADER + |p.data|..];
  }

  // Nothing is lost or invented: the packets' own bytes and the rest are the stream.
  lemma {:induction false} DivisionAccounts(s: seq<Byte>)
    ensures AllSendable(Divide(s).packets)
    ensures EncodeAll(Divide(s).packets) + Divide(s).rest == s
    ensures if Divide(s).refused then !Partial(Divide(s).rest) && !GoodHeader(Divide(s).rest)
            else Partial(Divide(s).rest)
    decreases |s|
  {
    if Partial(s) || !GoodHeader(s) {
      assert EncodeAll([]) + s == s;
    } else {
      var tail := s[HEADER + WordAt(s, 4)..];
      DivisionAccounts(tail);
      FirstPacketBytes(s);
      var ps := Divide(s).packets;
      assert ps[1..] == Divide(tail).packets;
      assert Encode(ps[0]) + EncodeAll(ps[1..]) + Divide(tail).rest
          == Encode(ps[0]) + (EncodeAll(ps[1..]) + Divide(tail).rest);
    }
  }

  // ----- Receiving more -----

  // Reading on from the partial packet gives what reading everything at once gives.
  lemma DivideMore(s: seq<Byte>, more: seq<Byte>)
    requires !Divide(s).refused
    ensures var d, e := Divide(s), Divide(Divide(s).rest + more);
            Divide(s + more) == Division(d.packets + e.packets, e.rest, e.refused)
  {
    hide Divide, EncodeAll;
    DivisionAccounts(s);
    var d := Divide(s);
    DivideEncoded(d.packets, d.rest + more);
    assert EncodeAll(d.packets) + (d.rest + more) == s + more;
  }

  lemma WordStays(s: seq<Byte>, more: seq<Byte>, at: nat)
    requires at + 4 <= |s|
    ensures WordAt(s + more, at) == WordAt(s, at)
  {
  }

  lemma RefusedHead(r: seq<Byte>, more: seq<Byte>)
    requires !Partial(r) && !GoodHeader(r)
    ensures Divide(r + more) == Division([], r + more, true)
  {
    hide WordAt;
    WordStays(r, more, 0);
    WordStays(r, more, 4);
  }

  // Once refused, always refused, with no further packets.
  lemma RefusedStays(s: seq<Byte>, more: seq<Byte>)
    requires Divide(s).refused
    ensures Divide(s + more).refused && Divide(s + more).packets == Divide(s).packets
  {
    hide Divide, EncodeAll, Partial, GoodHeader;
    DivisionAccounts(s);
    var d := Divide(s);
    RefusedHead(d.rest, more);
    DivideEncoded(d.packets, d.rest + more);
    assert EncodeAll(d.packets) + (d.rest + more) == s + more;
    assert d.packets + [] == d.packets;
  }

  lemma DivideNothing()
    ensures Divide([]) == Division([], [], false)
  {
  }

  lemma DivideWhole(ps: seq<Packet>)
    requires AllSendable(ps)
    ensures Divide(EncodeAll(ps)) == Division(ps, [], false)
  {
    hide Divide, EncodeAll;
    DivideEncoded(ps, []);
    DivideNothing();
    assert EncodeAll(ps) + [] == EncodeAll(ps) && ps + [] == ps;
  }

  // Every prefix of what a client sends is accepted and gives a prefix of its packets.
  lemma PrefixAccepted(ps: seq<Packet>, n: nat)
    requires AllSendable(ps) && n <= |EncodeAll(ps)|
    ensures var d := Divide(EncodeAll(ps)[..n]);
            !d.refused && d.packets <= ps
  {
    hide Divide, EncodeAll;
    var s, more := EncodeAll(ps)[..n], EncodeAll(ps)[n..];
    assert s + more == EncodeAll(ps);
    DivideWhole(ps);
    if Divide(s).refused {
      RefusedStays(s, more);
    } else {
      DivideMore(s, more);
    }
  }

  lemma {:induction false} EncodeConcat(a: seq<Packet>, b: seq<Packet>)
    requires AllSendable(a) && AllSendable(b)
    ensures AllSendable(a + b) && EncodeAll(a + b) == EncodeAll(a) + EncodeAll(b)
  {
    hide Encode;
    if a == [] {
      assert a + b == b;
    } else {
      EncodeConcat(a[1..], b);
      assert (a + b)[1..] == a[1..] + b;
    }
  }

  lemma EncodeOne(ps: seq<Packet>, p: Packet)
    requires AllSendable(ps) && Sendable(p)
    ensures AllSendable(ps + [p]) && EncodeAll(ps + [p]) == EncodeAll(ps) + Encode(p)
  {
    hide Encode;
    EncodeConcat(ps, [p]);
    assert EncodeAll([p]) == Encode(p) + EncodeAll([]) == Encode(p);
  }
}
