/** Circular byte buffers with one slot kept free, as the WebSocket receiver and both serial directions use them. */
module Ring {

  type Byte = b: int | 0 <= b < 256
  type Bytes = seq<Byte>

  /** The stretch of a circular buffer from index tail up to, excluding, index head. */
  function Stretch(d: Bytes, tail: nat, head: nat): (c: Bytes)
    requires tail < |d| && head < |d|
    ensures |c| == if tail <= head then head - tail else |d| - tail + head
  {
    if tail <= head then d[tail..head] else d[tail..] + d[..head]
  }

  lemma NextIndex(i: nat, n: nat)
    requires i < n
    ensures (i + 1) % n == if i + 1 == n then 0 else i + 1
  {
  }

  lemma StretchPush(d: Bytes, tail: nat, head: nat, c: Byte)
    requires tail < |d| && head < |d|
    ensures var next := if head + 1 == |d| then 0 else head + 1;
      next != tail ==> Stretch(d[head := c], tail, next) == Stretch(d, tail, head) + [c]
  {
  }

  lemma StretchPop(d: Bytes, tail: nat, head: nat)
    requires tail < |d| && head < |d| && tail != head
    ensures Stretch(d, tail, head) == [d[tail]] + Stretch(d, if tail + 1 == |d| then 0 else tail + 1, head)
  {
  }

  class Ring {
    const data: array<Byte>
    var head: nat
    var tail: nat

    ghost predicate Valid()
      reads this
    {
      0 < data.Length && head < data.Length && tail < data.Length
    }

    /** The bytes waiting, oldest first. */
    ghost function Contents(): (c: Bytes)
      requires Valid()
      reads this, data
      ensures |c| < data.Length
    {
      Stretch(data[..], tail, head)
    }

    constructor (size: nat)
      requires 0 < size
      ensures Valid() && data.Length == size && Contents() == [] && fresh(data)
    {
      data := new Byte[size](_ => 0);
      head, tail := 0, 0;
    }

    function Count(): (n: nat)
      requires Valid()
      reads this, data
      ensures n == |Contents()|
    {
      if tail <= head then head - tail else data.Length - tail + head
    }

    function Free(): (n: nat)
      requires Valid()
      reads this, data
      ensures n + |Contents()| == data.Length - 1
    {
      data.Length - 1 - Count()
    }

    /** Store a byte, or report that the buffer is full and change nothing. */
    method Push(c: Byte) returns (stored: bool)
      requires Valid()
      modifies this`head, data
      ensures Valid()
      ensures stored <==> |old(Contents())| + 1 < data.Length
      ensures Contents() == if stored then old(Contents()) + [c] else old(Contents())
    {
      var next := (head + 1) % data.Length;
      NextIndex(head, data.Length);
      StretchPush(data[..], tail, head, c);
      stored := next != tail;
      if stored {
        data[head] := c;
        head := next;
      }
    }

    /** Take the oldest byte, if any. */
    method Pop() returns (got: bool, c: Byte)
      requires Valid()
      modifies this`tail
      ensures Valid()
      ensures got <==> old(Contents()) != []
      ensures if got then [c] + Contents() == old(Contents()) else c == 0 && Contents() == old(Contents())
    {
      got, c := head != tail, 0;
      if got {
        NextIndex(tail, data.Length);
        StretchPop(data[..], tail, head);
        c := data[tail];
        tail := (tail + 1) % data.Length;
      }
    }
  }
}
