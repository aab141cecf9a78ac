/** simulate_serial: one byte time of the emulated serial line between the WebSocket and the controller's stream,
    and what the whole pipeline conserves in both directions. */
module SerialPipeline {
  import opened Ring
  import opened Serial
  import opened WebSocketFrames
  import opened WebSocket

  /** Bytes other than NUL: the WebSocket side uses 0 for "nothing there". */
  function NonNul(s: Bytes): Bytes {
    if s == [] then [] else NonNul(s[..|s| - 1]) + if s[|s| - 1] == 0 then [] else [s[|s| - 1]]
  }

  /** What the controller is to read of a stretch of incoming data. */
  function Readable(s: Bytes, claims: Byte -> bool): Bytes {
    Unclaimed(NonNul(s), claims)
  }

  lemma {:induction false} NonNulConcat(s: Bytes, t: Bytes)
    ensures NonNul(s + t) == NonNul(s) + NonNul(t)
    decreases |t|
  {
    if t == [] {
      assert s + t == s;
    } else {
      var u := t[..|t| - 1];
      assert (s + t)[..|s + t| - 1] == s + u;
      NonNulConcat(s, u);
    }
  }

  lemma {:induction false} UnclaimedConcat(s: Bytes, t: Bytes, claims: Byte -> bool)
    ensures Unclaimed(s + t, claims) == Unclaimed(s, claims) + Unclaimed(t, claims)
    decreases |t|
  {
    if t == [] {
      assert s + t == s;
    } else {
      var u := t[..|t| - 1];
      assert (s + t)[..|s + t| - 1] == s + u;
      UnclaimedConcat(s, u, claims);
    }
  }

  lemma ReadableConcat(s: Bytes, t: Bytes, claims: Byte -> bool)
    ensures Readable(s + t, claims) == Readable(s, claims) + Readable(t, claims)
  {
    NonNulConcat(s, t);
    UnclaimedConcat(NonNul(s), NonNul(t), claims);
  }

  /** The inbound side seen from outside: the connection and its stream so far, the bytes offered to the WebSocket ring (and
      those before this connection), taken from it and still in it, the bytes that reached the UART, and whether the line is
      polled at all. */
  datatype Inbound = Inbound(connected: bool, rawLen: nat, received: Bytes, before: Bytes, offered: Bytes, popped: Bytes,
                             ring: Bytes, arrived: Bytes, polls: bool) {
    function Stream(): Bytes { if connected then received else [] }
  }

  /** What a poll makes of the connection: a chunk joins its stream and is offered at once, finding nothing keeps it, losing
      the client ends it. */
  ghost predicate Received(a: Inbound, b: Inbound, accepts: bool, r: Recv) {
    var live := a.connected || accepts;
    && a.offered <= b.offered
    && (if live && r.Chunk? then
          && b.received == a.Stream() + r.bytes && b.connected == !Drain(b.received).closed
          && b.offered == (if a.connected then a.before else a.offered) + Drain(b.received).data
        else b.offered == a.offered)
    && (live && r.WouldBlock? ==> b.connected && b.received == a.Stream())
    && (!live ==> !b.connected)
    && ((r.Disconnected? || r.Failed?) && (a.connected ==> a.rawLen < RAW_BUF_SIZE) ==> !b.connected)
  }

  /** What the ring holds once it has been offered everything new: as much as there is room for. */
  function Held(a: Inbound, b: Inbound): Bytes
    requires a.offered <= b.offered
  {
    Kept(a.ring, b.offered[|a.offered|..])
  }

  /** The oldest byte held, if any, is taken from the ring. */
  ghost predicate TookOldest(a: Inbound, b: Inbound)
    requires a.offered <= b.offered
  {
    var held := Held(a, b);
    if held == [] then b.popped == a.popped && b.ring == []
    else b.popped == a.popped + [held[0]] && b.ring == held[1..]
  }

  /** One poll: the network is read, and the oldest byte then waiting, if any, is handed to the UART unless it is NUL. */
  ghost predicate Polled(a: Inbound, b: Inbound, accepts: bool, r: Recv) {
    if !a.polls then b == a
    else
      && Received(a, b, accepts, r) && TookOldest(a, b)
      && b.arrived == a.arrived + if Held(a, b) == [] || Held(a, b)[0] == 0 then [] else [Held(a, b)[0]]
  }

  class Simulator {
    const serial: Serial
    const ws: WebSocket
    /** So far a client was connected and unmuted whenever the UART delivered a byte, and none was kicked or muted away. */
    ghost var listening: bool

    ghost predicate Separate()
      reads this, serial, ws
    {
      && serial.rx != ws.rx && serial.tx != ws.rx && serial.rx.data != ws.rx.data && serial.tx.data != ws.rx.data
      && serial.rx.data != ws.rawBuf && serial.tx.data != ws.rawBuf && serial.rx.data != ws.txBuf && serial.tx.data != ws.txBuf
    }

    ghost predicate Valid()
      reads this, serial, serial.uart, serial.tx, serial.tx.data, serial.rx, serial.rx.data,
            ws, ws.rx, ws.rx.data, ws.rawBuf, ws.txBuf
    {
      && Separate() && serial.Valid() && ws.Valid()
      && serial.arrived == NonNul(ws.popped)
      && (listening ==> ws.written == serial.delivered)
    }

    constructor (txSize: nat, rxSize: nat, claims: Byte -> bool)
      requires 1 < txSize && 0 < rxSize
      ensures Valid() && listening
      ensures serial.tx.data.Length == txSize && serial.rx.data.Length == rxSize && serial.claims == claims && serial.uart.rxIrqEnable
      ensures !ws.connected && !ws.txMuted && ws.wire == [] && serial.accepted == [] && serial.read == []
    {
      serial := new Serial(txSize, rxSize, claims);
      ws := new WebSocket();
      listening := true;
    }

    /** The line is polled while the controller has more than 100 slots free. */
    ghost predicate Polls(): (r: bool)
      requires serial.Shape()
      reads this, serial, serial.uart, serial.tx, serial.rx, serial.rx.data
      ensures r <==> serial.uart.rxIrqEnable && |serial.rx.Contents()| + 101 < serial.rx.data.Length
    {
      serial.uart.rxIrqEnable && serial.rx.Free() > 100
    }

    ghost function In(): Inbound
      requires serial.Shape() && ws.Shape()
      reads this, serial, serial.uart, serial.tx, serial.rx, serial.rx.data, ws, ws.rx, ws.rx.data
    {
      Inbound(ws.connected, ws.rawLen, ws.received, ws.before, ws.offered, ws.popped, ws.rx.Contents(), serial.arrived, Polls())
    }

    /** sim.putchar */
    method Putchar(data: Byte)
      requires Valid()
      modifies ws`wire, ws`txLen, ws`written, ws.txBuf
      ensures Separate() && serial.Valid() && ws.Valid()
      ensures ws.connected && !ws.txMuted ==> ws.written == old(ws.written) + [data]
      ensures !ws.connected ==> ws.written == old(ws.written)
      ensures ws.connected && ws.txMuted ==> ws.written == Drain(ws.wire).data
    {
      hide Drain, NonNul, Unclaimed;
      ws.PutChar(data);
    }

    /** Deliver the byte in the transmit register to the client. */
    method DeliverRegister()
      requires Valid() && serial.uart.txFlag
      modifies this`listening, serial`delivered, serial.uart`txFlag, ws`wire, ws`txLen, ws`written, ws.txBuf
      ensures Valid() && !serial.uart.txFlag
      ensures serial.Tx() == TxState(old(serial.Tx().out + serial.Tx().register), [], old(serial.Tx().queue))
      ensures listening == (old(listening) && ws.connected && !ws.txMuted) && In() == old(In())
      ensures ws.connected && !ws.txMuted ==> ws.written == old(ws.written) + old(serial.Tx().register)
    {
      hide Drain, NonNul, Unclaimed;
      Putchar(serial.uart.txData);
      serial.ClearTxFlag();
      listening := listening && ws.connected && !ws.txMuted;
    }

    /** sim.getchar: what arrives may depend on the network. */
    method Getchar(accepts: bool, r: Recv) returns (c: Byte)
      requires Valid() && ws.CanReceive(accepts, r)
      modifies ws`connected, ws`rawLen, ws`wire, ws`received, ws`offered, ws`before, ws`popped, ws`overflowed,
               ws.rx`head, ws.rx`tail, ws.rx.data, ws.rawBuf
      ensures Separate() && serial.Valid() && ws.Valid()
      ensures Received(old(In()), In(), accepts, r) && TookOldest(old(In()), In())
      ensures NonNul(ws.popped) == old(NonNul(ws.popped)) + if c == 0 then [] else [c]
      ensures c == if Held(old(In()), In()) == [] then 0 else Held(old(In()), In())[0]
    {
      hide Drain, Unclaimed, Kept, Stretch;
      ghost var was := ws.popped;
      c := ws.GetChar(accepts, r);
      assert (was + [c])[..|was|] == was;
    }

    /** Raise the transmit interrupt if it is enabled. */
    method PollTx()
      requires Valid() && !serial.uart.txFlag
      modifies serial`overflow, serial`exitRequested,
               serial.uart`txData, serial.uart`txIrq, serial.uart`txFlag, serial.uart`txIrqEnable, serial.uart`rxIrq,
               serial.tx`tail, serial.rx`head, serial.rx.data
      ensures Valid() && serial.Tx() == TxStep(old(serial.Tx())) && In() == old(In())
    {
      hide Drain, NonNul, Unclaimed, TxStep, Stretch;
      serial.PollTx();
    }

    /** The transmit half of a byte time. */
    method StepTx()
      requires Valid()
      modifies this`listening, serial`overflow, serial`exitRequested, serial`delivered,
               serial.uart`txData, serial.uart`txIrq, serial.uart`txFlag, serial.uart`txIrqEnable, serial.uart`rxIrq,
               serial.tx`tail, serial.rx`head, serial.rx.data, ws`wire, ws`txLen, ws`written, ws.txBuf
      ensures Valid() && serial.Tx() == TxStep(old(serial.Tx()))
      ensures ws.connected && !ws.txMuted ==> ws.written == old(ws.written) + old(serial.Tx().register)
      ensures listening == (old(listening) && (old(serial.uart.txFlag) ==> ws.connected && !ws.txMuted))
      ensures !old(serial.uart.txFlag) ==> ws.written == old(ws.written)
      ensures In() == old(In())
    {
      hide Drain, NonNul, Unclaimed, In, Stretch;
      if serial.uart.txFlag {
        DeliverRegister();
      }
      PollTx();
    }

    /** Take a byte from the client if the controller has room for it. */
    method PollRx(accepts: bool, r: Recv)
      requires Valid() && ws.CanReceive(accepts, r)
      modifies serial`overflow, serial`exitRequested, serial`arrived,
               serial.uart`txData, serial.uart`txIrq, serial.uart`txFlag, serial.uart`txIrqEnable, serial.uart`rxIrq, serial.uart`rxData,
               serial.tx`tail, serial.rx`head, serial.rx.data,
               ws`connected, ws`rawLen, ws`wire, ws`received, ws`offered, ws`before, ws`popped, ws`overflowed,
               ws.rx`head, ws.rx`tail, ws.rx.data, ws.rawBuf
      ensures Valid() && !serial.overflow && serial.Tx() == old(serial.Tx())
      ensures Polled(old(In()), In(), accepts, r)
    {
      hide Drain, NonNul, Unclaimed, Kept, Stretch;
      hide WebSocket.InboundValid, WebSocket.OutboundValid, WebSocket.RingValid, Serial.TxValid;
      if serial.uart.rxIrqEnable && !serial.uart.rxIrq && serial.rx.Free() > 100 {
        var c := Getchar(accepts, r);
        if c != 0 {
          serial.Receive(c);
        }
      }
    }

    /** One byte time of the serial line. */
    method SimulateSerial(accepts: bool, r: Recv)
      requires Valid() && ws.CanReceive(accepts, r)
      modifies this`listening, serial`overflow, serial`exitRequested, serial`arrived, serial`delivered,
               serial.uart`txData, serial.uart`txIrq, serial.uart`txFlag, serial.uart`txIrqEnable, serial.uart`rxIrq, serial.uart`rxData,
               serial.tx`tail, serial.rx`head, serial.rx.data,
               ws`connected, ws`rawLen, ws`wire, ws`received, ws`offered, ws`before, ws`popped, ws`overflowed, ws`txLen, ws`written,
               ws.rx`head, ws.rx`tail, ws.rx.data, ws.rawBuf, ws.txBuf
      ensures Valid() && !serial.overflow
      ensures serial.Tx() == TxStep(old(serial.Tx()))
      ensures old(ws.connected) && !ws.txMuted ==> ws.written == old(ws.written) + old(serial.Tx().register)
      ensures listening == (old(listening) && (old(serial.uart.txFlag) ==> old(ws.connected) && !ws.txMuted))
      ensures !old(serial.uart.txFlag) ==> ws.written == old(ws.written)
      ensures Polled(old(In()), In(), accepts, r)
    {
      hide Drain, NonNul, Unclaimed, Kept, Stretch, TxStep;
      hide Polled, Inbound.Stream;
      hide WebSocket.InboundValid, WebSocket.OutboundValid, WebSocket.RingValid;
      hide WebSocket.CanReceive, WebSocket.Stream, Serial.TxValid, Serial.RxValid;
      StepTx();
      PollRx(accepts, r);
    }

    /** The controller reads its stream. */
    method ReadByte() returns (data: int)
      requires Valid()
      modifies serial`read, serial.rx`tail
      ensures Valid()
      ensures if old(serial.rx.Contents()) == [] then data == -1 && serial.read == old(serial.read)
              else serial.read == old(serial.read) + [data] && old(serial.rx.Contents()) == [data] + serial.rx.Contents()
    {
      hide Drain, NonNul, Unclaimed;
      data := serial.GetC();
    }

    /** The controller writes to its stream; false means its wait loop goes round once more. */
    method WriteByte(c: Byte) returns (stored: bool)
      requires Valid()
      modifies serial`accepted, serial.uart`txIrqEnable, serial.tx`head, serial.tx.data
      ensures Valid() && serial.accepted == if stored then old(serial.accepted) + [c] else old(serial.accepted)
      ensures serial.Tx() == if stored then old(serial.Tx()).(queue := old(serial.Tx()).queue + [c]) else old(serial.Tx())
      ensures stored <==> |old(serial.tx.Contents())| + 1 < serial.tx.data.Length
    {
      hide Drain, NonNul, Unclaimed, Stretch;
      stored := serial.PutC(c);
    }

    /** The operator drops the client, or mutes and unmutes the replies; pending output may be lost. */
    method KickClient() returns (kicked: bool)
      requires Valid()
      modifies this`listening, ws`connected, ws`rawLen, ws`txLen, ws`written
      ensures Valid() && !ws.connected && kicked == old(ws.connected) && listening == (old(listening) && !kicked)
    {
      hide Drain, NonNul, Unclaimed;
      kicked := ws.KickClient();
      listening := listening && !kicked;
    }

    method ToggleTxMuted() returns (muted: bool)
      requires Valid()
      modifies this`listening, ws`txMuted, ws`txLen, ws`written
      ensures Valid() && muted == ws.txMuted == !old(ws.txMuted) && listening == (old(listening) && !muted)
    {
      hide Drain, NonNul, Unclaimed;
      muted := ws.ToggleTxMuted();
      listening := listening && !muted;
    }

    /** End to end, inbound: at any moment, after any interleaving of the methods above, what the controller has read, what
        waits in its receive buffer and what it will make of the bytes still in the WebSocket ring are together exactly the
        readable part of the payload bytes received, in order, provided that ring never was full. */
    lemma InboundConserved()
      requires Valid() && !ws.overflowed
      ensures serial.read + serial.rx.Contents() + Readable(ws.rx.Contents(), serial.claims) == Readable(ws.offered, serial.claims)
      ensures ws.connected ==> ws.offered == ws.before + Drain(ws.received).data
      ensures !serial.overflow
    {
      ReadableConcat(ws.popped, ws.rx.Contents(), serial.claims);
    }

    /** End to end, outbound: while a client listens, decoding the frames sent so far and appending the line buffer, the
        UART's register and the transmit queue gives back exactly the bytes the controller wrote, in order. */
    lemma OutboundConserved()
      requires Valid() && listening
      ensures Drain(ws.wire).data + ws.txBuf[..ws.txLen] + serial.Tx().register + serial.Tx().queue == serial.accepted
    {
    }

    /** No wedge: on a stream of frames of at most 4096 encoded bytes each, a connected client can always send more, and the
        bytes delivered so far are a prefix of the payloads owed. */
    lemma NeverWedged(fs: seq<Frame>, pending: Bytes)
      requires Valid() && ws.connected
      requires (forall f :: f in fs ==> f.Valid()) && FramesFit(fs, RAW_BUF_SIZE)
      requires EncodeAll(fs) == ws.received + pending
      ensures ws.rawLen < RAW_BUF_SIZE
      ensures ws.before <= ws.offered && ws.offered[|ws.before|..] <= Delivered(fs)
      ensures pending == [] ==> ws.offered == ws.before + Delivered(fs) && ws.rawLen == 0
    {
      FramesAreWhole(fs, RAW_BUF_SIZE);
      FitsInPieces(ws.received, pending, RAW_BUF_SIZE);
      ws.RoomLeft();
      DeliveryIsPrefix(fs, ws.received, pending);
      assert ws.offered[|ws.before|..] == Drain(ws.received).data;
      if pending == [] {
        assert ws.received + pending == ws.received;
        FramesRoundTrip(fs);
      }
    }
  }
}
