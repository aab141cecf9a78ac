/** The server's connection state and byte interface: bytes from the network are parsed into a ring for ws_getchar,
    bytes given to ws_putchar leave as text frames, one per line. */
module WebSocket {
  import opened Ring
  import opened WebSocketFrames
  import opened Sequences

  const RX_BUF_SIZE: nat := 4096
  const TX_BUF_SIZE: nat := 512
  const RAW_BUF_SIZE: nat := 4096
  const INT_MAX: nat := 0x7FFF_FFFF

  /** What recv finds on the socket. */
  datatype Recv = WouldBlock | Disconnected | Failed | Chunk(bytes: Bytes)

  /** What a ring with contents c holds after data has been offered to it: whatever finds it full is lost. */
  function Kept(c: Bytes, data: Bytes): (r: Bytes)
    ensures |c| < RX_BUF_SIZE ==> c <= r
  {
    Take(c + data, RX_BUF_SIZE - 1)
  }

  predicate Loses(c: Bytes, data: Bytes) {
    |c| + |data| >= RX_BUF_SIZE
  }

  lemma KeptTwice(c: Bytes, a: Bytes, b: Bytes)
    ensures Kept(Kept(c, a), b) == Kept(c, a + b)
    ensures |c| < RX_BUF_SIZE ==> (Loses(c, a + b) <==> Loses(c, a) || Loses(Kept(c, a), b))
  {
    TakeMore(c + a, b, RX_BUF_SIZE - 1);
    AppendTwice(c, a, b);
  }

  lemma KeptNothing(c: Bytes)
    requires |c| < RX_BUF_SIZE
    ensures Kept(c, []) == c && !Loses(c, [])
  {
    assert c + [] == c;
  }

  /** The buffer after combining n bytes from `payload` on with the four bytes at `key`. */
  function Unmasked(s: Bytes, key: nat, payload: nat, n: nat): (r: Bytes)
    requires key + 4 <= payload && payload + n <= |s|
    ensures |r| == |s|
  {
    s[..payload] + Mask(s[payload..payload + n], s[key..key + 4]) + s[payload + n..]
  }

  lemma UnmaskedParts(s: Bytes, key: nat, payload: nat, n: nat, len: nat)
    requires key + 4 <= payload && payload + n <= len <= |s|
    ensures var r := Unmasked(s, key, payload, n);
      && r[payload..payload + n] == Mask(s[..len][payload..payload + n], s[..len][key..key + 4])
      && r[payload + n..len] == s[..len][payload + n..]
  {
    assert s[..len][payload..payload + n] == s[payload..payload + n];
    assert s[..len][key..key + 4] == s[key..key + 4];
  }

  /** Parsing of `all` has come as far as `cur`, having produced `data` and `pings`; it has stopped unless `again`. */
  ghost predicate Parsed(all: Bytes, data: Bytes, pings: nat, cur: Bytes, again: bool, connected: bool) {
    Drain(all) == Prepend(data, pings, if again then Drain(cur) else Drained([], 0, cur, !connected))
  }

  lemma ParsedOneMore(all: Bytes, data: Bytes, pings: nat, cur: Bytes)
    requires Parsed(all, data, pings, cur, true, true)
    ensures !Complete(cur) ==> Parsed(all, data, pings, cur, false, true)
    ensures Complete(cur) && ReadHeader(cur).opcode == OP_CLOSE ==> Parsed(all, data, pings, [], false, false)
    ensures Complete(cur) && ReadHeader(cur).opcode != OP_CLOSE ==>
      Parsed(all, data + FrameData(cur), pings + FramePings(cur), AfterFrame(cur), true, true)
  {
    if Complete(cur) {
      PrependTwice(data, pings, FrameData(cur), FramePings(cur), Drain(AfterFrame(cur)));
    }
  }

  lemma ParsedAll(all: Bytes, data: Bytes, pings: nat, cur: Bytes, again: bool, connected: bool)
    requires Parsed(all, data, pings, cur, again, connected) && (again ==> connected && |cur| < 2) && (!connected ==> cur == [])
    ensures Drain(all) == Drained(data, pings, cur, !connected)
  {
    assert data + [] == data;
  }

  class WebSocket {
    var connected: bool
    var txMuted: bool
    const rx: Ring
    const rawBuf: array<Byte>
    var rawLen: nat
    const txBuf: array<Byte>
    var txLen: nat
    var wire: Bytes           // everything passed to send() after the handshakes
    ghost var received: Bytes // everything recv returned on the current connection
    ghost var offered: Bytes  // bytes offered to the ring since start-up
    ghost var before: Bytes   // ... up to the current connection
    ghost var popped: Bytes   // bytes taken from the ring
    ghost var overflowed: bool
    ghost var written: Bytes  // bytes accepted by PutChar and not discarded by muting or kicking

    ghost predicate Shape()
      reads this, rx
    {
      && rx.Valid() && rx.data.Length == RX_BUF_SIZE && rawBuf.Length == RAW_BUF_SIZE && txBuf.Length == TX_BUF_SIZE
      && rx.data != rawBuf && rx.data != txBuf && rawBuf != txBuf
      && rawLen <= RAW_BUF_SIZE && txLen + 1 < TX_BUF_SIZE
    }

    /** The receive buffer holds exactly the unconsumed tail of the connection's stream, and what was offered to the ring is
        exactly the payload of its frames. */
    ghost predicate InboundValid()
      requires Shape()
      reads this, rx, rawBuf
    {
      if connected then
        var d := Drain(received); !d.closed && rawBuf[..rawLen] == d.rest && offered == before + d.data
      else rawLen == 0
    }

    /** Unless it ever overflowed, the ring holds exactly the offered bytes not yet taken. */
    ghost predicate RingValid()
      requires Shape()
      reads this, rx, rx.data
    {
      !overflowed ==> popped + rx.Contents() == offered
    }

    /** Everything written so far is in the frames already sent or in the line buffer, in order. */
    ghost predicate OutboundValid()
      requires Shape()
      reads this, rx, txBuf
    {
      var d := Drain(wire); d.rest == [] && !d.closed && written == d.data + txBuf[..txLen]
    }

    ghost predicate Valid()
      reads this, rx, rx.data, rawBuf, txBuf
    {
      Shape() && InboundValid() && RingValid() && OutboundValid()
    }

    constructor ()
      ensures Valid() && fresh(rx) && fresh(rx.data) && fresh(rawBuf) && fresh(txBuf)
      ensures !connected && !txMuted && wire == [] && offered == [] && popped == [] && !overflowed && written == []
      ensures rx.data.Length == 4096 && rawBuf.Length == 4096 && txBuf.Length == 512
    {
      connected, txMuted, rawLen, txLen, wire := false, false, 0, 0, [];
      rx := new Ring(RX_BUF_SIZE);
      rawBuf := new Byte[RAW_BUF_SIZE](_ => 0);
      txBuf := new Byte[TX_BUF_SIZE](_ => 0);
      received, offered, before, popped, overflowed, written := [], [], [], [], false, [];
    }

    /** `data` has been offered since the histories and the ring stood at the given values. */
    ghost predicate Offered(given: Bytes, was: bool, held: Bytes, data: Bytes)
      requires Shape()
      reads this, rx, rx.data
    {
      offered == given + data && rx.Contents() == Kept(held, data) && (overflowed <==> was || Loses(held, data))
    }

    method RxPush(c: Byte)
      requires Shape() && RingValid()
      modifies this`offered, this`overflowed, rx`head, rx.data
      ensures Shape() && RingValid()
      ensures offered == old(offered) + [c]
      ensures rx.Contents() == Kept(old(rx.Contents()), [c])
      ensures overflowed <==> old(overflowed) || Loses(old(rx.Contents()), [c])
    {
      var stored := rx.Push(c);
      offered := offered + [c];
      overflowed := overflowed || !stored;
    }

    /** Read the fixed part of the frame at the start of the raw buffer; false if not all of it has arrived. */
    method ParseHeader() returns (ok: bool, opcode: nat, masked: bool, payloadLen: nat, headerLen: nat)
      requires Shape() && 2 <= rawLen
      ensures var h := ReadHeader(rawBuf[..rawLen]);
        if ok then h == Header(opcode, masked, headerLen, payloadLen) else h == Partial
    {
      ghost var s := rawBuf[..rawLen];
      opcode, masked, payloadLen, headerLen := rawBuf[0] % 16, rawBuf[1] >= 128, rawBuf[1] % 128, 2;
      if payloadLen == 126 {
        if rawLen < 4 { return false, opcode, masked, payloadLen, headerLen; }
        payloadLen, headerLen := (rawBuf[2] as int) * 256 + rawBuf[3] as int, 4;
        ghost var ext := s[2..4];
        assert ext[..1] == [s[2]] && [s[2]][..0] == [];
        assert Value(ext[..1]) == s[2];
      } else if payloadLen == 127 {
        if rawLen < 10 { return false, opcode, masked, payloadLen, headerLen; }
        payloadLen := 0;
        for i := 0 to 8
          invariant payloadLen == Value(s[2..2 + i])
        {
          assert s[2..2 + i + 1][..i] == s[2..2 + i];
          payloadLen := payloadLen * 256 + rawBuf[2 + i] as int;
        }
        headerLen := 10;
      }
      ok := true;
    }

    /** Combine the payload with the key where it lies. */
    method Unmask(key: nat, payload: nat, n: nat)
      requires Shape() && key + 4 == payload && payload + n <= rawLen
      modifies rawBuf
      ensures rawBuf[..] == Unmasked(old(rawBuf[..]), key, payload, n)
    {
      ghost var k := rawBuf[key..key + 4];
      for i := 0 to n
        invariant rawBuf[..payload] == old(rawBuf[..payload])
        invariant forall j :: payload <= j < payload + i ==> rawBuf[j] == Xor(old(rawBuf[j]), k[(j - payload) % 4])
        invariant rawBuf[payload + i..] == old(rawBuf[payload + i..])
      {
        assert rawBuf[key + i % 4] == rawBuf[..payload][key + i % 4] == k[i % 4];
        assert rawBuf[payload + i] == rawBuf[payload + i..][0];
        rawBuf[payload + i] := Xor(rawBuf[payload + i], rawBuf[key + i % 4]);
      }
      assert rawBuf[payload..payload + n] == Mask(old(rawBuf[payload..payload + n]), k);
      assert rawBuf[..] == rawBuf[..payload] + rawBuf[payload..payload + n] + rawBuf[payload + n..];
      assert old(rawBuf[..])[..payload] == old(rawBuf[..payload]);
    }

    /** Offer the payload of a text or binary frame to the ring, byte by byte. */
    method PushPayload(start: nat, n: nat)
      requires Shape() && RingValid() && start + n <= rawLen
      modifies this`offered, this`overflowed, rx`head, rx.data
      ensures Shape() && RingValid()
      ensures offered == old(offered) + rawBuf[start..start + n]
      ensures rx.Contents() == Kept(old(rx.Contents()), rawBuf[start..start + n])
      ensures overflowed <==> old(overflowed) || Loses(old(rx.Contents()), rawBuf[start..start + n])
    {
      hide Kept, Loses, Stretch;
      ghost var held, given, was := rx.Contents(), offered, overflowed;
      KeptNothing(held);
      assert rawBuf[start..start] == [] && given + [] == given;
      for i := 0 to n
        invariant Shape() && RingValid()
        invariant rawBuf[..] == old(rawBuf[..])
        invariant Offered(given, was, held, rawBuf[start..start + i])
      {
        KeptTwice(held, rawBuf[start..start + i], [rawBuf[start + i]]);
        AppendTwice(given, rawBuf[start..start + i], [rawBuf[start + i]]);
        assert rawBuf[start..start + i + 1] == rawBuf[start..start + i] + [rawBuf[start + i]];
        RxPush(rawBuf[start + i]);
      }
    }

    /** Drop the first n bytes of the raw buffer and move the rest down. */
    method Consume(n: nat)
      requires Shape() && n <= rawLen
      modifies this`rawLen, rawBuf
      ensures Shape() && rawBuf[..rawLen] == old(rawBuf[n..rawLen])
    {
      rawLen := rawLen - n;
      forall i | 0 <= i < rawLen { rawBuf[i] := rawBuf[i + n]; }
      assert forall i :: 0 <= i < rawLen ==> rawBuf[i] == old(rawBuf[n..rawLen])[i];
    }

    /** If all of the frame at the start of the buffer has arrived, find its payload and unmask it in place. */
    method LocateFrame() returns (complete: bool, opcode: nat, start: nat, needed: nat)
      requires Shape() && 2 <= rawLen
      modifies rawBuf
      ensures complete <==> Complete(old(rawBuf[..rawLen]))
      ensures !complete ==> rawBuf[..rawLen] == old(rawBuf[..rawLen])
      ensures complete ==> var cur := old(rawBuf[..rawLen]); var h := ReadHeader(cur);
        && opcode == h.opcode && start <= needed == h.Size() <= rawLen
        && rawBuf[start..needed] == Payload(cur, h) && rawBuf[needed..rawLen] == AfterFrame(cur)
    {
      var ok, op, masked, payloadLen, headerLen := ParseHeader();
      opcode, start := op, headerLen + if masked then 4 else 0;
      needed := start + payloadLen;
      complete := ok && rawLen >= needed;
      assert complete ==> rawBuf[..rawLen][start..needed] == rawBuf[start..needed];
      if complete && masked {
        UnmaskedParts(rawBuf[..], headerLen, start, payloadLen, rawLen);
        Unmask(headerLen, start, payloadLen);
        assert old(rawBuf[..])[..rawLen] == old(rawBuf[..rawLen]);
        assert rawBuf[start..needed] == rawBuf[..][start..needed] && rawBuf[needed..rawLen] == rawBuf[..][needed..rawLen];
      }
    }

    /** One turn of the parsing loop: take the frame at the start of the buffer if all of it has arrived. */
    method TakeFrame() returns (again: bool)
      requires Shape() && RingValid() && connected && 2 <= rawLen
      modifies this`rawLen, this`connected, this`wire, this`offered, this`overflowed, rx`head, rx.data, rawBuf
      ensures Shape() && RingValid()
      ensures var cur := old(rawBuf[..rawLen]);
        if !Complete(cur) then
          !again && connected && rawBuf[..rawLen] == cur && wire == old(wire)
        else if ReadHeader(cur).opcode == OP_CLOSE then
          !again && !connected && rawLen == 0 && wire == old(wire)
        else
          again && connected && rawBuf[..rawLen] == AfterFrame(cur) && wire == old(wire) + Repeat(PONG, FramePings(cur))
      ensures Offered(old(offered), old(overflowed), old(rx.Contents()), if again then FrameData(old(rawBuf[..rawLen])) else [])
    {
      hide Kept, Loses, Stretch;
      KeptNothing(rx.Contents());
      assert offered + [] == offered;
      var complete, opcode, start, needed := LocateFrame();
      if !complete { return false; }
      if opcode == OP_TEXT || opcode == OP_BINARY {
        PushPayload(start, needed - start);
      } else if opcode == OP_CLOSE {
        connected := false;
        rawLen := 0;
        return false;
      } else if opcode == OP_PING {
        assert Repeat(PONG, 1) == [] + PONG == PONG;
        wire := wire + PONG;
      }
      Consume(needed);
      return true;
    }

    /** Parse complete frames from the raw buffer until only the beginning of one is left or a Close is met.
        Announced sizes must be representable in the source's int. */
    method ProcessRawBuffer()
      requires Shape() && RingValid() && connected && Fits(rawBuf[..rawLen], INT_MAX)
      modifies this`rawLen, this`connected, this`wire, this`offered, this`overflowed, rx`head, rx.data, rawBuf
      ensures Shape() && RingValid()
      ensures var d := Drain(old(rawBuf[..rawLen]));
        && connected == !d.closed && rawBuf[..rawLen] == d.rest
        && Offered(old(offered), old(overflowed), old(rx.Contents()), d.data) && wire == old(wire) + Repeat(PONG, d.pings)
    {
      hide Drain, Kept, Loses, Stretch;
      ghost var all, sent := rawBuf[..rawLen], wire;
      ghost var given, was, held := offered, overflowed, rx.Contents();
      KeptNothing(held);
      assert given + [] == given;
      ghost var data: Bytes, pings: nat := [], 0;
      PrependNothing(Drain(all));
      var again := true;
      while rawLen >= 2 && again
        invariant Shape() && RingValid()
        invariant Parsed(all, data, pings, rawBuf[..rawLen], again, connected)
        invariant (again ==> connected) && (!connected ==> rawLen == 0)
        invariant Offered(given, was, held, data) && wire == sent + Repeat(PONG, pings)
        decreases again, rawLen
      {
        ghost var cur := rawBuf[..rawLen];
        ParsedOneMore(all, data, pings, cur);
        KeptNothing(rx.Contents());
        assert offered + [] == offered;
        again := TakeFrame();
        if again {
          AppendRepeats(sent, PONG, pings, FramePings(cur));
          AppendTwice(given, data, FrameData(cur));
          KeptTwice(held, data, FrameData(cur));
          data, pings := data + FrameData(cur), pings + FramePings(cur);
        }
      }
      ParsedAll(all, data, pings, rawBuf[..rawLen], again, connected);
    }

    /** What recv may return on the present connection, or on one accepted just before: never more than the room left in the
        raw buffer, never nothing as a chunk; and the lengths announced by the stream so far are representable in the
        source's int. */
    ghost predicate CanReceive(accepts: bool, r: Recv)
      reads this`connected, this`rawLen, this`received
    {
      r.Chunk? && (connected || accepts) ==>
        0 < |r.bytes| && (if connected then rawLen else 0) + |r.bytes| <= RAW_BUF_SIZE
        && Fits((if connected then received else []) + r.bytes, INT_MAX)
    }

    /** One read from the network. */
    method ProcessIncoming(r: Recv)
      requires Valid() && connected && CanReceive(false, r)
      modifies this`connected, this`rawLen, this`wire, this`received, this`offered, this`overflowed, rx`head, rx.data, rawBuf
      ensures Valid()
      ensures old(offered) <= offered && Offered(old(offered), old(overflowed), old(rx.Contents()), offered[|old(offered)|..])
      ensures r.WouldBlock? ==> connected && received == old(received)
      ensures old(rawLen) < RAW_BUF_SIZE && (r.Disconnected? || r.Failed?) ==> !connected
      ensures old(rawLen) == RAW_BUF_SIZE ==> connected && received == old(received)
      ensures !r.Chunk? ==> offered == old(offered) && wire == old(wire)
      ensures r.Chunk? ==> received == old(received) + r.bytes && connected == !Drain(received).closed
      ensures r.Chunk? ==> offered == before + Drain(received).data
      ensures r.Chunk? ==> wire == old(wire) + Repeat(PONG, Drain(old(rawBuf[..rawLen]) + r.bytes).pings)
    {
      hide Drain, Kept, Loses, Stretch;
      ghost var given := offered;
      KeptNothing(rx.Contents());
      assert offered == given + [] && offered[|given|..] == [];
      var space := RAW_BUF_SIZE - rawLen;
      if space <= 0 { return; }
      match r
      case WouldBlock =>
      case Chunk(bytes) =>
        ghost var tail := rawBuf[..rawLen];
        ghost var was, sent := received, wire;
        StoreChunk(bytes);
        received := received + bytes;
        FitsInPieces(was, bytes, INT_MAX);
        DrainInPieces(was, bytes);
        ghost var d := Drain(was);
        ghost var e := Drain(tail + bytes);
        ProcessRawBuffer();
        PongsKeepData(sent, e.pings);
        AppendTwice(before, d.data, e.data);
        assert offered == given + e.data && offered[|given|..] == e.data;
      case Disconnected =>
        connected, rawLen := false, 0;
      case Failed =>
        connected, rawLen := false, 0;
    }

    method StoreChunk(bytes: Bytes)
      requires Shape() && |bytes| <= RAW_BUF_SIZE - rawLen
      modifies this`rawLen, rawBuf
      ensures Shape() && rawBuf[..rawLen] == old(rawBuf[..rawLen]) + bytes
    {
      forall i | 0 <= i < |bytes| { rawBuf[rawLen + i] := bytes[i]; }
      rawLen := rawLen + |bytes|;
      assert forall i :: 0 <= i < rawLen ==> rawBuf[i] == (old(rawBuf[..rawLen]) + bytes)[i];
    }

    /** A client may be waiting, and its handshake may succeed. */
    method Accept(accepts: bool)
      requires Valid()
      modifies this`connected, this`rawLen, this`received, this`before
      ensures Valid()
      ensures if !old(connected) && accepts then connected && received == [] && before == offered && rawLen == 0
              else connected == old(connected) && received == old(received) && before == old(before) && rawLen == old(rawLen)
    {
      if !connected && accepts {
        connected, rawLen := true, 0;
        received, before := [], offered;
        assert rawBuf[..0] == [] && offered + [] == offered;
      }
    }

    /** On a stream of frames of at most 4096 encoded bytes there is always room for the next read. */
    lemma RoomLeft()
      requires Valid() && connected && Fits(received, RAW_BUF_SIZE)
      ensures rawLen < RAW_BUF_SIZE
    {
      TailIsShort(received, RAW_BUF_SIZE);
    }

    /** The oldest byte of the ring, or 0 if there is none. */
    method NextByte() returns (c: Byte)
      requires Valid()
      modifies this`popped, rx`tail
      ensures Valid()
      ensures if old(rx.Contents()) == [] then c == 0 && popped == old(popped) && rx.Contents() == []
              else popped == old(popped) + [c] && old(rx.Contents()) == [c] + rx.Contents()
    {
      var got, b := rx.Pop();
      c := b;
      if got {
        AppendTwice(popped, [c], rx.Contents());
        popped := popped + [c];
      }
    }

    /** The stream of the connection that a poll reads from: a new one if a client is accepted first. */
    ghost function Stream(): Bytes
      reads this`connected, this`received
    {
      if connected then received else []
    }

    /** Poll: accept a client if there is none, read once from the client if there is one, then hand out the next byte.
        What a chunk brings is parsed, offered to the ring and answered at once; the byte handed out is the oldest of
        what the ring then holds. */
    method GetChar(accepts: bool, r: Recv) returns (c: Byte)
      requires Valid() && CanReceive(accepts, r)
      modifies this`connected, this`rawLen, this`wire, this`received, this`offered, this`before, this`popped, this`overflowed,
               rx`head, rx`tail, rx.data, rawBuf
      ensures Valid() && old(offered) <= offered
      ensures (old(connected) || accepts) && r.Chunk? ==>
        && received == old(Stream()) + r.bytes && connected == !Drain(received).closed
        && offered == (if old(connected) then old(before) else old(offered)) + Drain(received).data
      ensures !((old(connected) || accepts) && r.Chunk?) ==> offered == old(offered) && wire == old(wire)
      ensures !old(connected) && !accepts ==> !connected
      ensures (old(connected) || accepts) && r.WouldBlock? ==> connected && received == old(Stream())
      ensures (r.Disconnected? || r.Failed?) && (old(connected) ==> old(rawLen) < RAW_BUF_SIZE) ==> !connected
      ensures var data := offered[|old(offered)|..]; var held := Kept(old(rx.Contents()), data);
        && (overflowed <==> old(overflowed) || Loses(old(rx.Contents()), data))
        && if held == [] then c == 0 && popped == old(popped) && rx.Contents() == []
           else popped == old(popped) + [c] && held == [c] + rx.Contents()
    {
      hide Drain, Kept, Loses, Stretch;
      KeptNothing(rx.Contents());
      assert offered == offered + [] && offered[|offered|..] == [];
      ghost var given, held := offered, rx.Contents();
      Accept(accepts);
      if connected {
        ProcessIncoming(r);
      }
      assert rx.Contents() == Kept(held, offered[|given|..]);
      c := NextByte();
    }

    /** The eight bytes of a long length, most significant first. */
    method LengthBytes(len: nat) returns (ext: Bytes)
      requires len < 0x8000_0000_0000_0000
      ensures ext == BigEndian(len, 8)
    {
      hide BigEndian, Power256;
      ext := [];
      BigEndianStart(len);
      PowerPositive(8);
      for i := 0 to 8
        invariant 0 < Power256(8 - i) && ext == BigEndian(len / Power256(8 - i), i)
      {
        PowerStep(7 - i);
        BigEndianMore(len, i, Power256(7 - i));
        ext := ext + [len / Power256(7 - i) % 256];
      }
    }

    /** The bytes that announce a final text frame of `len` bytes. */
    method MakeHeader(len: nat) returns (header: Bytes)
      requires len < 0x8000_0000_0000_0000
      ensures header == TextHeader(len)
    {
      header := [0x81];
      if len < 126 {
        header := header + [len];
      } else if len < 65536 {
        header := header + [126, len / 256 % 256, len % 256];
        TwoBytes(len);
      } else {
        hide BigEndian;
        var ext := LengthBytes(len);
        header := header + [127] + ext;
      }
    }

    /** Send a text frame to the client, if there is one. */
    method SendFrame(data: Bytes)
      requires |data| < 0x8000_0000_0000_0000
      modifies this`wire
      ensures wire == if connected then old(wire) + Encode(TextFrame(data)) else old(wire)
    {
      if !connected { return; }
      var header := MakeHeader(|data|);
      TextEncoding(data);
      wire := wire + header;
      wire := wire + data;
      AppendTwice(old(wire), header, data);
    }

    /** Queue one byte for the client; a line end or a full buffer sends the line as one frame. Without a client the byte
        is dropped, and while muted everything pending is. */
    method PutChar(data: Byte)
      requires Valid()
      modifies this`wire, this`txLen, this`written, txBuf
      ensures Valid()
      ensures !connected ==> wire == old(wire) && written == old(written) && txBuf[..txLen] == old(txBuf[..txLen])
      ensures connected && txMuted ==> wire == old(wire) && txLen == 0 && written == Drain(wire).data
      ensures connected && !txMuted ==> written == old(written) + [data]
      ensures connected && !txMuted ==> var line := old(txBuf[..txLen]) + [data];
        if data == 10 || data == 13 || |line| == 511 then
          wire == old(wire) + Encode(TextFrame(line)) && txLen == 0 && 1 <= |line| <= 511
        else wire == old(wire) && txBuf[..txLen] == line
    {
      hide Drain;
      if !connected { return; }
      if txMuted {
        txLen := 0;
        written := Drain(wire).data;
        assert written + txBuf[..0] == written;
        return;
      }
      ghost var pending := txBuf[..txLen];
      txBuf[txLen] := data;
      txLen := txLen + 1;
      written := written + [data];
      AppendTwice(Drain(wire).data, pending, [data]);
      assert txBuf[..txLen] == pending + [data];
      if data == 10 || data == 13 || txLen >= TX_BUF_SIZE - 1 {
        DrainText(txBuf[..txLen]);
        DrainAppended(wire, Encode(TextFrame(txBuf[..txLen])));
        SendFrame(txBuf[..txLen]);
        txLen := 0;
        assert written + txBuf[..0] == written;
      }
    }

    method ToggleTxMuted() returns (muted: bool)
      requires Valid()
      modifies this`txMuted, this`txLen, this`written
      ensures Valid() && muted == txMuted == !old(txMuted)
      ensures if muted then txLen == 0 && written == Drain(wire).data else txLen == old(txLen) && written == old(written)
    {
      txMuted := !txMuted;
      if txMuted {
        txLen := 0;
        written := Drain(wire).data;
        assert written + txBuf[..0] == written;
      }
      muted := txMuted;
    }

    method KickClient() returns (kicked: bool)
      requires Valid()
      modifies this`connected, this`rawLen, this`txLen, this`written
      ensures Valid() && kicked == old(connected) && !connected
      ensures kicked ==> rawLen == 0 && txLen == 0 && written == Drain(wire).data
      ensures !kicked ==> rawLen == old(rawLen) && txLen == old(txLen) && written == old(written)
    {
      if !connected { return false; }
      connected, rawLen, txLen := false, 0, 0;
      written := Drain(wire).data;
      assert written + txBuf[..0] == written;
      return true;
    }
  }

  lemma TwoBytes(len: nat)
    requires len < 65536
    ensures BigEndian(len, 2) == [len / 256 % 256, len % 256]
  {
    assert BigEndian(len, 2) == BigEndian(len / 256, 1) + [len % 256];
  }

  lemma BigEndianStart(len: nat)
    requires len < 0x8000_0000_0000_0000
    ensures Power256(8) == 0x1_0000_0000_0000_0000 && BigEndian(0, 0) == [] && Power256(0) == 1
  {
    PowerOfEight();
  }

  lemma PowerStep(n: nat)
    ensures 0 < Power256(n) && Power256(n + 1) == 256 * Power256(n)
  {
    PowerPositive(n);
  }

  lemma BigEndianMore(len: nat, i: nat, p: nat)
    requires 0 < p
    ensures BigEndian(len / p, i + 1) == BigEndian(len / (256 * p), i) + [len / p % 256]
  {
    ShiftTwice(len, p);
  }
}
