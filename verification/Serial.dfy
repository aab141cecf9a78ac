/** The emulated UART and the interrupt-driven serial stream behind it. */
module Serial {
  import opened Ring

  /** Transmission seen from outside: bytes delivered, the byte in the UART's data register, bytes queued. */
  datatype TxState = TxState(out: Bytes, register: Bytes, queue: Bytes) {
    function All(): Bytes { out + register + queue }
  }

  /** One serial step: the register is delivered, then refilled from the queue. */
  function TxStep(s: TxState): TxState {
    TxState(s.out + s.register, s.queue[..if s.queue == [] then 0 else 1], s.queue[if s.queue == [] then 0 else 1..])
  }

  function TxSteps(s: TxState, n: nat): TxState
    decreases n
  {
    if n == 0 then s else TxSteps(TxStep(s), n - 1)
  }

  lemma TxStepKeepsAll(s: TxState)
    ensures TxStep(s).All() == s.All()
  {
    assert s.queue == TxStep(s).register + TxStep(s).queue;
  }

  /** n queued bytes are all delivered, in order, after n + 1 steps. */
  lemma {:induction false} QueueDrains(s: TxState)
    ensures TxSteps(s, |s.queue| + 1) == TxState(s.All(), [], [])
    decreases |s.queue|
  {
    if s.queue == [] {
      assert TxSteps(s, 1) == TxSteps(TxStep(s), 0) == TxStep(s);
    } else {
      QueueDrains(TxStep(s));
      TxStepKeepsAll(s);
    }
  }

  /** ... and not earlier: after any number of steps up to n something is still on its way. */
  lemma {:induction false} QueueNeedsSteps(s: TxState, k: nat)
    requires 1 <= k <= |s.queue|
    ensures TxSteps(s, k).register != []
    decreases k
  {
    if k == 1 {
      assert TxSteps(s, 1) == TxSteps(TxStep(s), 0) == TxStep(s);
    } else {
      QueueNeedsSteps(TxStep(s), k - 1);
    }
  }

  /** Received bytes the realtime handler does not claim. */
  function Unclaimed(s: Bytes, claims: Byte -> bool): Bytes {
    if s == [] then [] else Unclaimed(s[..|s| - 1], claims) + if claims(s[|s| - 1]) then [] else [s[|s| - 1]]
  }

  class Uart {
    var rxIrq: bool
    var txIrq: bool
    var txFlag: bool
    var rxIrqEnable: bool
    var txIrqEnable: bool
    var rxData: Byte
    var txData: Byte

    constructor ()
      ensures !rxIrq && !txIrq && !txFlag && !rxIrqEnable && !txIrqEnable
    {
      rxIrq, txIrq, txFlag, rxIrqEnable, txIrqEnable, rxData, txData := false, false, false, false, false, 0, 0;
    }
  }

  class Serial {
    const uart: Uart
    const tx: Ring
    const rx: Ring
    const claims: Byte -> bool // the realtime command handler: true if it consumes the byte
    var overflow: bool
    var exitRequested: bool
    ghost var accepted: Bytes  // bytes PutC stored
    ghost var delivered: Bytes // bytes handed to the simulator's putchar
    ghost var arrived: Bytes   // bytes that raised a receive interrupt
    ghost var read: Bytes      // bytes returned by GetC

    ghost predicate Shape()
      reads this, tx, rx
    {
      tx.Valid() && rx.Valid() && tx != rx && tx.data != rx.data && 1 < tx.data.Length
    }

    ghost function Tx(): TxState
      requires Shape()
      reads this, uart, tx, tx.data, rx
    {
      TxState(delivered, if uart.txFlag then [uart.txData] else [], tx.Contents())
    }

    /** Nothing accepted for transmission is lost, duplicated or reordered, and a non-empty queue keeps its interrupt on. */
    ghost predicate TxValid()
      requires Shape()
      reads this, uart, tx, tx.data, rx
    {
      !uart.txIrq && Tx().All() == accepted && (uart.txIrqEnable <==> tx.Contents() != [])
    }

    /** Bytes read and bytes buffered are the arrived bytes the realtime handler left, in order. */
    ghost predicate RxValid()
      requires Shape()
      reads this, uart, tx, rx, rx.data
    {
      !uart.rxIrq && !overflow && read + rx.Contents() == Unclaimed(arrived, claims)
    }

    ghost predicate Valid()
      reads this, uart, tx, tx.data, rx, rx.data
    {
      Shape() && TxValid() && RxValid()
    }

    constructor (txSize: nat, rxSize: nat, claims: Byte -> bool)
      requires 1 < txSize && 0 < rxSize
      ensures Valid() && fresh(uart) && fresh(tx) && fresh(tx.data) && fresh(rx) && fresh(rx.data)
      ensures this.claims == claims && uart.rxIrqEnable
      ensures accepted == [] && delivered == [] && arrived == [] && read == []
      ensures tx.data.Length == txSize && rx.data.Length == rxSize
    {
      uart := new Uart();
      tx := new Ring(txSize);
      rx := new Ring(rxSize);
      this.claims := claims;
      overflow, exitRequested := false, false;
      accepted, delivered, arrived, read := [], [], [], [];
      new;
      uart.rxIrqEnable := true;
    }

    /** Next received byte, or -1. */
    method GetC() returns (data: int)
      requires Valid()
      modifies this`read, rx`tail
      ensures Valid()
      ensures if old(rx.Contents()) == [] then data == -1 && read == old(read)
              else data == old(rx.Contents())[0] && read == old(read) + [data] && rx.Contents() == old(rx.Contents())[1..]
    {
      var got, c := rx.Pop();
      if !got { return -1; }
      read := read + [c];
      assert old(read) + ([c] + rx.Contents()) == (old(read) + [c]) + rx.Contents();
      data := c;
    }

    /** One attempt of serialPutC: store the byte, or leave it to the caller's wait loop while the ring is full. */
    method PutC(c: Byte) returns (stored: bool)
      requires Valid()
      modifies this`accepted, uart`txIrqEnable, tx`head, tx.data
      ensures Valid()
      ensures stored <==> |old(tx.Contents())| + 1 < tx.data.Length
      ensures Tx() == if stored then old(Tx()).(queue := old(Tx()).queue + [c]) else old(Tx())
      ensures accepted == if stored then old(accepted) + [c] else old(accepted)
    {
      stored := tx.Push(c);
      if stored {
        uart.txIrqEnable := true;
        assert Tx().All() == old(Tx().All()) + [c];
        accepted := accepted + [c];
      }
    }

    /** The byte in the data register has been put out. */
    method ClearTxFlag()
      requires Valid() && uart.txFlag
      modifies this`delivered, uart`txFlag
      ensures Valid() && !uart.txFlag && delivered == old(delivered) + [uart.txData]
      ensures Tx() == TxState(old(Tx().out + Tx().register), [], old(Tx().queue))
    {
      ghost var all := Tx();
      delivered := delivered + [uart.txData];
      uart.txFlag := false;
      assert Tx().All() == all.All();
    }

    /** The transmit half of the interrupt handler: move one byte from the ring, if there is one, to the data register. */
    method TxInterrupt()
      requires Shape() && uart.txIrq
      modifies uart`txData, uart`txIrq, uart`txFlag, uart`txIrqEnable, tx`tail
      ensures Shape()
      ensures if old(tx.Contents()) != [] then
          !uart.txIrq && uart.txFlag && [uart.txData] + tx.Contents() == old(tx.Contents())
          && (uart.txIrqEnable <==> old(uart.txIrqEnable) && tx.Contents() != [])
        else
          uart.txIrq && uart.txFlag == old(uart.txFlag) && uart.txData == old(uart.txData)
          && tx.Contents() == [] && uart.txIrqEnable == old(uart.txIrqEnable)
    {
      var got, c := tx.Pop();
      if got {
        uart.txData, uart.txIrq, uart.txFlag := c, false, true;
        if tx.Count() == 0 {
          uart.txIrqEnable := false;
        }
      }
    }

    /** The receive half: offer the byte to the realtime handler, else store it; a full ring sets the overflow flag. */
    method RxInterrupt()
      requires Shape() && uart.rxIrq
      modifies this`overflow, this`exitRequested, uart`rxIrq, rx`head, rx.data
      ensures Shape() && !uart.rxIrq
      ensures var full := |old(rx.Contents())| + 1 >= rx.data.Length;
        && (overflow <==> old(overflow) || full)
        && (exitRequested <==> old(exitRequested) || (!full && uart.rxData == 0x06))
        && rx.Contents() == old(rx.Contents()) + if full || claims(uart.rxData) then [] else [uart.rxData]
    {
      var data := uart.rxData;
      uart.rxIrq := false;
      if rx.Free() == 0 {
        overflow := true;
      } else {
        if data == 0x06 {
          exitRequested := true;
        }
        if !claims(data) {
          var stored := rx.Push(data);
        }
      }
    }

    method UartInterruptHandler()
      requires Shape()
      modifies this`overflow, this`exitRequested, uart`txData, uart`txIrq, uart`txFlag, uart`txIrqEnable, uart`rxIrq,
               tx`tail, rx`head, rx.data
      ensures Shape() && !uart.rxIrq
      ensures if old(uart.txIrq) && old(tx.Contents()) != [] then
          !uart.txIrq && uart.txFlag && [uart.txData] + tx.Contents() == old(tx.Contents())
          && (uart.txIrqEnable <==> old(uart.txIrqEnable) && tx.Contents() != [])
        else
          uart.txIrq == old(uart.txIrq) && uart.txFlag == old(uart.txFlag) && uart.txData == old(uart.txData)
          && tx.Contents() == old(tx.Contents()) && uart.txIrqEnable == old(uart.txIrqEnable)
      ensures var full := |old(rx.Contents())| + 1 >= rx.data.Length;
        && (overflow <==> old(overflow) || (old(uart.rxIrq) && full))
        && (exitRequested <==> old(exitRequested) || (old(uart.rxIrq) && !full && uart.rxData == 0x06))
        && rx.Contents() == old(rx.Contents()) + if !old(uart.rxIrq) || full || claims(uart.rxData) then [] else [uart.rxData]
    {
      if uart.txIrq {
        TxInterrupt();
      }
      if uart.rxIrq {
        RxInterrupt();
      }
    }

    /** The simulator's transmit poll: raise the interrupt if it is enabled. */
    method PollTx()
      requires Valid() && !uart.txFlag
      modifies this`overflow, this`exitRequested, uart`txData, uart`txIrq, uart`txFlag, uart`txIrqEnable, uart`rxIrq,
               tx`tail, rx`head, rx.data
      ensures Valid() && rx.Contents() == old(rx.Contents()) && exitRequested == old(exitRequested)
      ensures Tx() == TxStep(old(Tx()))
    {
      ghost var before := Tx();
      uart.txIrq := uart.txIrqEnable;
      if uart.txIrq {
        UartInterruptHandler();
      }
      TxStepKeepsAll(before);
      assert before.out + [] == before.out;
      if before.queue != [] {
        assert before.queue == [uart.txData] + tx.Contents();
      }
    }

    /** A byte arrives from the line. The simulator polls the line only while more than 100 slots are free. */
    method Receive(c: Byte)
      requires Valid() && |rx.Contents()| + 1 < rx.data.Length
      modifies this`overflow, this`exitRequested, this`arrived, uart`txData, uart`txIrq, uart`txFlag, uart`txIrqEnable,
               uart`rxIrq, uart`rxData, tx`tail, rx`head, rx.data
      ensures Valid() && arrived == old(arrived) + [c]
      ensures rx.Contents() == old(rx.Contents()) + if claims(c) then [] else [c]
      ensures exitRequested <==> old(exitRequested) || c == 0x06
      ensures Tx() == old(Tx())
    {
      ghost var held := rx.Contents();
      ghost var was := arrived;
      uart.rxData := c;
      uart.rxIrq := true;
      UartInterruptHandler();
      arrived := arrived + [c];
      assert arrived[..|arrived| - 1] == was;
      assert read + (held + (if claims(c) then [] else [c])) == (read + held) + if claims(c) then [] else [c];
    }
  }
}
