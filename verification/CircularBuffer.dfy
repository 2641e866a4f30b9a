/** The fixed-capacity log buffer: two indices and a size over an array. */
module CircularBuffers {

  /** The last `n` items, or all of them. */
  function Last<T>(s: seq<T>, n: nat): (r: seq<T>)
    ensures |r| <= n && |r| <= |s| && (|r| == n || r == s)
    ensures s[|s| - |r|..] == r
  {
    if |s| <= n then s else s[|s| - n..]
  }

  /** JavaScript's Array.prototype.slice(start): a negative start counts from the end. */
  function SliceFrom<T>(s: seq<T>, start: int): seq<T> {
    var from := if start < 0 then |s| + start else start;
    if from < 0 then s else if from > |s| then [] else s[from..]
  }

  class CircularBuffer<T(0)> {
    const capacity: nat
    var buffer: array<T>
    var head: nat
    var tail: nat
    var size: nat

    ghost predicate Valid()
      reads this
    {
      && buffer.Length == capacity > 0
      && head < capacity && tail < capacity && size <= capacity
      && tail == (head + size) % capacity
    }

    /** What the buffer holds, oldest first. */
    ghost function Contents(): (s: seq<T>)
      requires Valid()
      reads this, buffer
      ensures |s| == size
    {
      Ring(buffer[..], head, size)
    }

    constructor (capacity: nat)
      requires capacity > 0
      ensures Valid() && fresh(buffer) && this.capacity == capacity && Contents() == []
    {
      this.capacity := capacity;
      buffer := new T[capacity];
      head, tail, size := 0, 0, 0;
    }

    method Push(item: T)
      requires Valid()
      modifies this`head, this`tail, this`size, buffer
      ensures Valid() && Contents() == Last(old(Contents()) + [item], capacity)
    {
      PushedRing(buffer[..], head, tail, size, item);
      buffer[tail] := item;
      tail := (tail + 1) % capacity;
      if size < capacity {
        size := size + 1;
      } else {
        head := (head + 1) % capacity;
      }
    }

    method ToArray() returns (result: seq<T>)
      requires Valid()
      ensures result == Contents()
    {
      result := [];
      for i := 0 to size
        invariant result == Contents()[..i]
      {
        result := result + [buffer[(head + i) % capacity]];
      }
    }

    method Clear()
      requires Valid()
      modifies this
      ensures Valid() && fresh(buffer) && Contents() == []
    {
      head, tail, size := 0, 0, 0;
      buffer := new T[capacity];
    }

    /** The supervisor's getRecentLogs over this buffer. */
    method RecentLogs(limit: int) returns (result: seq<T>)
      requires Valid()
      ensures limit > 0 ==> result == Last(Contents(), limit)
      ensures limit == 0 ==> result == Contents()
      ensures limit < 0 ==> result == if -limit <= size then Contents()[-limit..] else []
    {
      var logs := ToArray();
      result := SliceFrom(logs, 0 - limit);
    }
  }

  /** The items in `size` slots from `head` on, around the end of `data`. */
  function Ring<T>(data: seq<T>, head: nat, size: nat): (s: seq<T>)
    requires |data| > 0
    ensures |s| == size
  {
    seq(size, i requires 0 <= i < size => data[(head + i) % |data|])
  }

  lemma {:induction false} RingGrows<T>(data: seq<T>, head: nat, size: nat, item: T)
    requires head < |data| && size < |data|
    ensures Ring(data[(head + size) % |data| := item], head, size + 1) == Ring(data, head, size) + [item]
    ensures ((head + size) % |data| + 1) % |data| == (head + (size + 1)) % |data|
  {
    var n := |data|;
    var slot := (head + size) % n;
    var after := data[slot := item];
    Wrap(head + size, n);
    Wrap(slot + 1, n);
    Wrap(head + size + 1, n);
    forall i: nat | i < size + 1 ensures Ring(after, head, size + 1)[i] == (Ring(data, head, size) + [item])[i] {
      Wrap(head + i, n);
    }
  }

  lemma {:induction false} RingTurns<T>(data: seq<T>, head: nat, item: T)
    requires head < |data|
    ensures (head + |data|) % |data| == head
    ensures var turned := (head + 1) % |data|;
            && Ring(data[head := item], turned, |data|) == Ring(data, head, |data|)[1..] + [item]
            && turned == (turned + |data|) % |data|
  {
    var n := |data|;
    var turned := (head + 1) % n;
    var after := data[head := item];
    Wrap(head + n, n);
    Wrap(head + 1, n);
    Wrap(turned + n, n);
    forall i: nat | i < n ensures Ring(after, turned, n)[i] == (Ring(data, head, n)[1..] + [item])[i] {
      Wrap(turned + i, n);
      Wrap(head + i + 1, n);
    }
  }

  /** One write at `tail` and one step of the indices: the oldest item makes way when the ring is full. */
  lemma PushedRing<T>(data: seq<T>, head: nat, tail: nat, size: nat, item: T)
    requires head < |data| && size <= |data| && tail < |data| && tail == (head + size) % |data|
    ensures var after, full := data[tail := item], size == |data|;
            var newHead, newSize := if full then (head + 1) % |data| else head, if full then size else size + 1;
            && Ring(after, newHead, newSize) == Last(Ring(data, head, size) + [item], |data|)
            && (tail + 1) % |data| == (newHead + newSize) % |data|
  {
    if size < |data| {
      RingGrows(data, head, size, item);
      LastOfShort(Ring(data, head, size) + [item], |data|);
    } else {
      RingTurns(data, head, item);
      LastOfFull(Ring(data, head, size), item);
    }
  }

  lemma LastOfShort<T>(s: seq<T>, n: nat)
    requires |s| <= n
    ensures Last(s, n) == s
  {
  }

  lemma LastOfFull<T>(s: seq<T>, item: T)
    requires s != []
    ensures Last(s + [item], |s|) == s[1..] + [item]
  {
  }

  lemma Wrap(x: nat, capacity: nat)
    requires x <= 2 * capacity && capacity > 0
    ensures x % capacity == if x < capacity then x else if x < 2 * capacity then x - capacity else 0
  {
  }

  // ---------- any run of pushes and clears ----------

  datatype Op<T> = Push(item: T) | Clear

  /** What a sequence of operations leaves in the buffer, by the methods' contracts. */
  function After<T>(ops: seq<Op<T>>, capacity: nat): seq<T> {
    if ops == [] then []
    else match ops[|ops| - 1]
      case Push(item) => Last(After(ops[..|ops| - 1], capacity) + [item], capacity)
      case Clear => []
  }

  /** Everything pushed since the last clear. */
  function SinceClear<T>(ops: seq<Op<T>>): seq<T> {
    if ops == [] then []
    else match ops[|ops| - 1]
      case Push(item) => SinceClear(ops[..|ops| - 1]) + [item]
      case Clear => []
  }

  /** Forgetting early or late makes no difference: the buffer holds exactly
      the last `capacity` items pushed since the last clear, in order. */
  lemma {:induction false} HoldsLastPushedSinceClear<T>(ops: seq<Op<T>>, capacity: nat)
    requires capacity > 0
    ensures After(ops, capacity) == Last(SinceClear(ops), capacity)
  {
    if ops != [] {
      HoldsLastPushedSinceClear(ops[..|ops| - 1], capacity);
      if ops[|ops| - 1].Push? { LastOfLonger(SinceClear(ops[..|ops| - 1]), ops[|ops| - 1].item, capacity); }
    }
  }

  lemma LastOfLonger<T>(s: seq<T>, item: T, n: nat)
    requires n > 0
    ensures Last(Last(s, n) + [item], n) == Last(s + [item], n)
  {
  }

  lemma LastOfLast<T>(s: seq<T>, n: nat, m: nat)
    requires m > 0
    ensures SliceFrom(Last(s, n), 0 - m) == Last(s, if m < n then m else n)
  {
  }

  /** Hence asking for the `limit` most recent logs gives the last lines pushed since the
      last clear, as many as asked for, pushed and kept. */
  lemma {:induction false} RecentLogsAreLastPushed<T>(ops: seq<Op<T>>, capacity: nat, limit: nat)
    requires capacity > 0 && limit > 0
    ensures SliceFrom(After(ops, capacity), 0 - limit)
            == Last(SinceClear(ops), if limit < capacity then limit else capacity)
  {
    HoldsLastPushedSinceClear(ops, capacity);
    LastOfLast(SinceClear(ops), capacity, limit);
  }
}
