/** The receive half of the server's connection to one client: rebuilds packets
    from whatever pieces the socket hands over. */
module ClientCommunicator {
  import opened Bytes
  import opened Framing

  // The client's end of the wire. How much a read returns is not ours to know.
  class Socket {
    var inbound: seq<Byte>
    ghost var read: seq<Byte>

    constructor ()
      ensures inbound == [] && read == []
    {
      inbound, read := [], [];
    }

    // The client writes.
    method Arrive(bytes: seq<Byte>)
      modifies this
      ensures inbound == old(inbound) + bytes && read == old(read)
    {
      inbound := inbound + bytes;
    }

    // recv: some bytes, none because the read would block (-1 and blocked), a
    // failure (-1), or the end of the connection (0).
    method Recv(dst: array<Byte>, at: nat, n: nat) returns (count: int, blocked: bool)
      requires 0 < n && at + n <= dst.Length
      modifies this, dst
      ensures count <= n && count <= |old(inbound)|
      ensures count <= 0 ==> read == old(read) && inbound == old(inbound) && dst[..] == old(dst[..])
      ensures count > 0 ==> inbound == old(inbound)[count..] && read == old(read) + old(inbound)[..count]
      ensures count > 0 ==> dst[..at + count] == old(dst[..at]) + old(inbound)[..count]
    {
      count :| -1 <= count <= n && count <= |inbound|;
      blocked :| blocked || !blocked;
      if count > 0 {
        forall k | 0 <= k < count {
          dst[at + k] := inbound[k];
        }
        read := read + inbound[..count];
        inbound := inbound[count..];
      }
    }
  }

  class ClientCommunicator {
    const sock: Socket
    const header: array<Byte>
    var data: array?<Byte>
    var bytesIn: nat
    var magic: Word
    var len: Word
    var reply: Word
    var ready: seq<Packet>
    var open: bool
    ghost var delivered: seq<Packet>

    // The bytes of the packet being received.
    ghost function Pin(): seq<Byte>
      reads this, header, data
      requires header.Length == HEADER && (bytesIn > HEADER ==> data != null && bytesIn <= HEADER + data.Length)
    {
      if bytesIn <= HEADER then header[..bytesIn] else header[..] + data[..bytesIn - HEADER]
    }

    // Every byte read is in a packet handed out, in one waiting, or in `Pin`.
    ghost predicate Accounts()
      reads this, header, data, sock
    {
      && header.Length == HEADER && (data != null ==> data != header)
      && (bytesIn > HEADER ==> data != null && bytesIn <= HEADER + data.Length)
      && AllSendable(delivered + ready)
      && sock.read == EncodeAll(delivered + ready) + Pin()
    }

    // The header fields hold what the header bytes say, and the data buffer fits.
    ghost predicate HeaderKnown()
      reads this, header, data
    {
      && header.Length == HEADER && bytesIn >= HEADER
      && magic == WordAt(header[..], 0) == MAGIC && len == WordAt(header[..], 4) <= MAXSZ
      && reply == WordAt(header[..], 8)
      && (len > 0 ==> data != null && data.Length == len)
    }

    // A packet begun and not yet complete, its header acceptable as far as it is known.
    ghost predicate Waiting()
      reads this, header, data
    {
      bytesIn < HEADER || (HeaderKnown() && bytesIn < HEADER + len)
    }

    // Open or closed, a packet is being waited for, unless a refused header closed the connection.
    ghost predicate Valid()
      reads this, header, data, sock
    {
      Accounts() && (Waiting() || (!open && bytesIn == HEADER && !GoodHeader(Pin())))
    }

    constructor (sock: Socket)
      requires sock.read == []
      ensures Valid() && open && this.sock == sock && fresh(header) && data == null
      ensures delivered == ready == [] && bytesIn == 0
    {
      this.sock := sock;
      header := new Byte[HEADER];
      data, bytesIn, magic, len, reply := null, 0, 0, 0, 0;
      ready, delivered, open := [], [], true;
    }

    method Close()
      modifies this`open
      ensures !open
    {
      open := false;
    }

    method ReadHeader() returns (ok: bool)
      requires Valid() && open && bytesIn < HEADER
      modifies this, header, sock
      ensures Accounts() && ok == open && delivered == old(delivered) && ready == old(ready)
      ensures old(sock.read) <= sock.read && (data == old(data) || fresh(data))
      ensures ok ==> bytesIn < HEADER || (bytesIn == HEADER && HeaderKnown())
      ensures !ok ==> bytesIn < HEADER || (bytesIn == HEADER && !GoodHeader(Pin()))
    {
      hide EncodeAll, WordAt, AllSendable, Encode;
      var count, blocked := sock.Recv(header, bytesIn, HEADER - bytesIn);
      if count == 0 || (count < 0 && !blocked) {
        Close();
        return false;
      }
      if count > 0 {
        bytesIn := bytesIn + count;
        assert Pin() == old(Pin()) + old(sock.inbound)[..count];
      }
      assert Accounts();
      if bytesIn == HEADER {
        assert Pin() == header[..];
        magic, len, reply := WordAt(header[..], 0), WordAt(header[..], 4), WordAt(header[..], 8);
        if magic != MAGIC || len > MAXSZ {
          Close();
          return false;
        }
        if len > 0 {
          data := new Byte[len];
        }
      }
      return true;
    }

    // A complete packet moves to the waiting ones.
    method Finish()
      requires Accounts() && HeaderKnown() && bytesIn == HEADER + len
      modifies this
      ensures Accounts() && bytesIn == 0 && open == old(open) && delivered == old(delivered) && data == null
      ensures old(ready) <= ready
    {
      hide EncodeAll, Encode, WordAt;
      var bytes: seq<Byte> := if len > 0 then data[..] else [];
      var p := Packet(reply, header[12..16], bytes);
      assert header[..][12..16] == header[12..16] && header[..HEADER] == header[..];
      assert Pin() == header[..] + bytes;
      PinIsPacket(header[..], bytes);
      EncodeOne(delivered + ready, p);
      ready := ready + [p];
      assert delivered + ready == old(delivered + ready) + [p];
      data, bytesIn := null, 0;
    }

    // As many of the missing data bytes as the socket has.
    method TakeData() returns (count: int, blocked: bool)
      requires Valid() && open && bytesIn >= HEADER && data != null
      modifies this`bytesIn, data, sock
      ensures Accounts() && HeaderKnown() && bytesIn <= HEADER + len && old(sock.read) <= sock.read
      ensures count <= 0 ==> bytesIn == old(bytesIn)
    {
      hide EncodeAll, WordAt, AllSendable, Encode, GoodHeader;
      count, blocked := sock.Recv(data, bytesIn - HEADER, HEADER + len - bytesIn);
      if count > 0 {
        bytesIn := bytesIn + count;
        assert Pin() == old(Pin()) + old(sock.inbound)[..count];
      }
    }

    method ReadData() returns (ok: bool)
      requires Valid() && open && bytesIn >= HEADER && data != null
      modifies this, data, sock
      ensures Accounts() && ok == open && delivered == old(delivered) && old(ready) <= ready
      ensures old(sock.read) <= sock.read && (data == old(data) || data == null)
      ensures Valid() && (bytesIn == 0 || (HeaderKnown() && bytesIn < HEADER + len))
    {
      hide EncodeAll, WordAt, AllSendable, Encode, GoodHeader;
      var count, blocked := TakeData();
      if count == 0 || (count < 0 && !blocked) {
        Close();
        return false;
      }
      if bytesIn == HEADER + len {
        Finish();
      }
      return true;
    }

    // What the bytes read so far divide into, from the accounts.
    lemma Divided()
      requires Accounts()
      ensures Waiting() ==> Divide(sock.read) == Division(delivered + ready, Pin(), false)
      ensures bytesIn == HEADER && !GoodHeader(Pin()) ==>
        Divide(sock.read).packets == delivered + ready && Divide(sock.read).refused
    {
      hide EncodeAll, WordAt, Divide;
      DivideEncoded(delivered + ready, Pin());
      DividePartial(Pin());
      assert delivered + ready + [] == delivered + ready;
      if HeaderKnown() {
        assert Pin()[..HEADER] == header[..];
        WordStays(header[..], Pin()[HEADER..], 0);
        WordStays(header[..], Pin()[HEADER..], 4);
        assert header[..] + Pin()[HEADER..] == Pin();
      }
    }

    // One pass over the socket. The client is kicked exactly when its bytes hold a
    // header the server refuses; otherwise the connection only closes with the socket.
    method Update() returns (ok: bool, ghost kicked: bool)
      requires Valid() && open
      modifies this, header, data, sock
      ensures Valid() && ok == open && delivered == old(delivered) && old(ready) <= ready
      ensures old(sock.read) <= sock.read && (data == null || data == old(data) || fresh(data))
      ensures kicked <==> Divide(sock.read).refused
      ensures kicked ==> !ok && Divide(sock.read).packets == delivered + ready
      ensures !kicked ==> Divide(sock.read) == Division(delivered + ready, Pin(), false)
    {
      hide EncodeAll, WordAt, Divide;
      kicked := false;
      if bytesIn < HEADER {
        ok := ReadHeader();
        if !ok {
          Divided();
          kicked := bytesIn == HEADER;
          return;
        }
      }
      if bytesIn >= HEADER && len > 0 {
        ok := ReadData();
      } else {
        if bytesIn == HEADER && len == 0 {
          Finish();
        }
        ok := true;
      }
      Divided();
    }

    method HasNextPacket() returns (p: Packet, ok: bool)
      requires Valid()
      modifies this`ready, this`delivered
      ensures Valid() && ok == (old(ready) != [])
      ensures ok ==> old(ready) == [p] + ready && delivered == old(delivered) + [p]
      ensures !ok ==> ready == [] && delivered == old(delivered)
    {
      if ready == [] {
        return Packet(0, [], []), false;
      }
      p, ok := ready[0], true;
      assert delivered + ready == (delivered + [p]) + ready[1..];
      ready, delivered := ready[1..], delivered + [p];
    }
  }

  // However the reads fell, and whether or not the connection is still open, the server
  // holds a prefix of what a client sent, and all of it, with nothing left over, once the
  // last byte is in.
  lemma Received(c: ClientCommunicator, ps: seq<Packet>)
    requires c.Valid() && AllSendable(ps) && c.sock.read <= EncodeAll(ps)
    ensures c.delivered + c.ready <= ps
    ensures c.sock.read == EncodeAll(ps) <==> c.delivered + c.ready == ps && c.Pin() == []
  {
    hide EncodeAll, Encode, WordAt, Divide;
    c.Divided();
    var n := |c.sock.read|;
    assert EncodeAll(ps)[..n] == c.sock.read;
    PrefixAccepted(ps, n);
    DivideWhole(ps);
    if c.delivered + c.ready == ps && c.Pin() == [] {
      assert EncodeAll(ps) + [] == EncodeAll(ps);
    }
  }

  lemma PinIsPacket(head: seq<Byte>, body: seq<Byte>)
    requires |head| == HEADER && GoodHeader(head) && |body| == WordAt(head, 4)
    ensures var p := Packet(WordAt(head, 8), head[12..16], body);
            Sendable(p) && Encode(p) == head + body
  {
    hide WordAt, Encode;
    var pin := head + body;
    WordStays(head, body, 0);
    WordStays(head, body, 4);
    WordStays(head, body, 8);
    FirstPacketBytes(pin);
    assert pin[12..16] == head[12..16] && pin[HEADER..HEADER + |body|] == body;
    assert Encode(FirstPacket(pin)) + [] == Encode(FirstPacket(pin)) && pin[HEADER + |body|..] == [];
  }

  lemma DividePartial(s: seq<Byte>)
    ensures Partial(s) ==> Divide(s) == Division([], s, false)
    ensures |s| == HEADER && !GoodHeader(s) ==> Divide(s).packets == [] && Divide(s).refused
  {
  }
}
