/** The random-access iterator over the bytes of a list of buffers, any of them empty. */
module BuffersIterator {

  // ---------------------------------------------------------------- the concatenation

  function Concat<T>(buffers: seq<seq<T>>): seq<T> {
    if buffers == [] then [] else buffers[0] + Concat(buffers[1..])
  }

  /** The number of bytes before buffer `k`. */
  function Before<T>(buffers: seq<seq<T>>, k: nat): nat
    requires k <= |buffers|
  {
    if k == 0 then 0 else Before(buffers, k - 1) + |buffers[k - 1]|
  }

  lemma {:induction false} BeforeTail<T>(buffers: seq<seq<T>>, k: nat)
    requires 0 < k <= |buffers|
    ensures Before(buffers, k) == |buffers[0]| + Before(buffers[1..], k - 1)
  {
    if k > 1 {
      BeforeTail(buffers, k - 1);
    }
  }

  lemma {:induction false} BeforeMonotone<T>(buffers: seq<seq<T>>, j: nat, k: nat)
    requires j <= k <= |buffers|
    ensures Before(buffers, j) <= Before(buffers, k)
    decreases k
  {
    if j < k {
      BeforeMonotone(buffers, j, k - 1);
    }
  }

  lemma {:induction false} TotalSize<T>(buffers: seq<seq<T>>)
    ensures Before(buffers, |buffers|) == |Concat(buffers)|
  {
    if buffers != [] {
      TotalSize(buffers[1..]);
      BeforeTail(buffers, |buffers|);
    }
  }

  /** Byte `offset` of buffer `k` is byte `Before(k) + offset` of the concatenation. */
  lemma {:induction false} ByteInConcat<T>(buffers: seq<seq<T>>, k: nat, offset: nat)
    requires k < |buffers| && offset < |buffers[k]|
    ensures Before(buffers, k) + offset < |Concat(buffers)|
    ensures Concat(buffers)[Before(buffers, k) + offset] == buffers[k][offset]
  {
    if k > 0 {
      BeforeTail(buffers, k);
      ByteInConcat(buffers[1..], k - 1, offset);
    }
  }

  // ---------------------------------------------------------------- places

  datatype Place = Place(buffer: nat, offset: nat)

  /** A place is on a byte, or at the very end. */
  predicate Canonical<T>(buffers: seq<seq<T>>, p: Place) {
    || (p.buffer < |buffers| && p.offset < |buffers[p.buffer]|)
    || (p.buffer == |buffers| && p.offset == 0)
  }

  function PositionOf<T>(buffers: seq<seq<T>>, p: Place): nat
    requires Canonical(buffers, p)
  {
    Before(buffers, p.buffer) + p.offset
  }

  /** The position alone determines the buffer and the offset in it. */
  lemma {:induction false} PositionDeterminesPlace<T>(buffers: seq<seq<T>>, p: Place, q: Place)
    requires Canonical(buffers, p) && Canonical(buffers, q)
    requires PositionOf(buffers, p) == PositionOf(buffers, q)
    ensures p == q
  {
    if p.buffer < q.buffer {
      BeforeMonotone(buffers, p.buffer + 1, q.buffer);
    } else if q.buffer < p.buffer {
      BeforeMonotone(buffers, q.buffer + 1, p.buffer);
    }
  }

  /** The first buffer from `k` on that is not empty, or the end of the list. */
  function NextFull<T>(buffers: seq<seq<T>>, k: nat): (r: nat)
    requires k <= |buffers|
    ensures k <= r <= |buffers| && (r < |buffers| ==> buffers[r] != [])
    decreases |buffers| - k
  {
    if k == |buffers| || buffers[k] != [] then k else NextFull(buffers, k + 1)
  }

  /** The last buffer before `k` that is not empty, if there is one. */
  function PreviousFull<T>(buffers: seq<seq<T>>, k: nat): (r: nat)
    requires k <= |buffers| && Before(buffers, k) > 0
    ensures r < k && buffers[r] != []
    decreases k
  {
    if buffers[k - 1] != [] then k - 1 else PreviousFull(buffers, k - 1)
  }

  /** The place of the next byte: in the same buffer if it has one, else at the beginning of
      the next buffer that is not empty, else the end. */
  function Next<T>(buffers: seq<seq<T>>, p: Place): Place
    requires Canonical(buffers, p) && p.buffer < |buffers|
  {
    if p.offset + 1 < |buffers[p.buffer]| then Place(p.buffer, p.offset + 1)
    else Place(NextFull(buffers, p.buffer + 1), 0)
  }

  /** The place of the previous byte. */
  function Previous<T>(buffers: seq<seq<T>>, p: Place): Place
    requires Canonical(buffers, p) && PositionOf(buffers, p) > 0
  {
    if p.offset > 0 then Place(p.buffer, p.offset - 1)
    else
      var k := PreviousFull(buffers, p.buffer);
      Place(k, |buffers[k]| - 1)
  }

  lemma {:induction false} NothingSkipped<T>(buffers: seq<seq<T>>, k: nat)
    requires k <= |buffers|
    ensures Before(buffers, NextFull(buffers, k)) == Before(buffers, k)
    decreases |buffers| - k
  {
    if k < |buffers| && buffers[k] == [] {
      NothingSkipped(buffers, k + 1);
    }
  }

  lemma {:induction false} NothingSkippedBack<T>(buffers: seq<seq<T>>, k: nat)
    requires k <= |buffers| && Before(buffers, k) > 0
    ensures var j := PreviousFull(buffers, k);
            Before(buffers, j) + |buffers[j]| == Before(buffers, k)
    decreases k
  {
    if buffers[k - 1] == [] {
      NothingSkippedBack(buffers, k - 1);
    }
  }

  /** The next place is one byte on, ... */
  lemma {:induction false} NextIsOneOn<T>(buffers: seq<seq<T>>, p: Place)
    requires Canonical(buffers, p) && p.buffer < |buffers|
    ensures Canonical(buffers, Next(buffers, p)) && PositionOf(buffers, Next(buffers, p)) == PositionOf(buffers, p) + 1
  {
    NothingSkipped(buffers, p.buffer + 1);
  }

  /** ... and the previous one a byte back. */
  lemma {:induction false} PreviousIsOneBack<T>(buffers: seq<seq<T>>, p: Place)
    requires Canonical(buffers, p) && PositionOf(buffers, p) > 0
    ensures Canonical(buffers, Previous(buffers, p))
    ensures PositionOf(buffers, Previous(buffers, p)) == PositionOf(buffers, p) - 1
    ensures Previous(buffers, p).buffer < |buffers|
  {
    if p.offset == 0 {
      NothingSkippedBack(buffers, p.buffer);
    }
  }

  lemma {:induction false} PlaceWithin<T>(buffers: seq<seq<T>>, p: Place)
    requires Canonical(buffers, p)
    ensures PositionOf(buffers, p) <= |Concat(buffers)|
    ensures p.buffer < |buffers| <==> PositionOf(buffers, p) < |Concat(buffers)|
  {
    TotalSize(buffers);
    if p.buffer < |buffers| {
      ByteInConcat(buffers, p.buffer, p.offset);
    }
  }

  /** A step forward and a step back are inverse to each other: from every place but the end,
      and from every place but the beginning. */
  lemma {:induction false} StepsAreInverse<T>(buffers: seq<seq<T>>, p: Place)
    requires Canonical(buffers, p)
    ensures p.buffer < |buffers| ==>
              && Canonical(buffers, Next(buffers, p)) && PositionOf(buffers, Next(buffers, p)) > 0
              && Previous(buffers, Next(buffers, p)) == p
    ensures PositionOf(buffers, p) > 0 ==>
              && Canonical(buffers, Previous(buffers, p)) && Previous(buffers, p).buffer < |buffers|
              && Next(buffers, Previous(buffers, p)) == p
  {
    hide Next, Previous;
    if p.buffer < |buffers| {
      var q := Next(buffers, p);
      NextIsOneOn(buffers, p);
      PreviousIsOneBack(buffers, q);
      PositionDeterminesPlace(buffers, Previous(buffers, q), p);
    }
    if PositionOf(buffers, p) > 0 {
      var q := Previous(buffers, p);
      PreviousIsOneBack(buffers, p);
      NextIsOneOn(buffers, q);
      PositionDeterminesPlace(buffers, Next(buffers, q), p);
    }
  }

  /** The place `n` single steps away, backwards if `n` is negative; steps beyond either end
      lead nowhere. */
  function Steps<T>(buffers: seq<seq<T>>, p: Place, n: int): (r: Place)
    requires Canonical(buffers, p)
    ensures Canonical(buffers, r)
    decreases if n < 0 then -n else n
  {
    if n > 0 && p.buffer < |buffers| then
      NextIsOneOn(buffers, p);
      Steps(buffers, Next(buffers, p), n - 1)
    else if n < 0 && PositionOf(buffers, p) > 0 then
      PreviousIsOneBack(buffers, p);
      Steps(buffers, Previous(buffers, p), n + 1)
    else p
  }

  /** Within range, that many steps move the position by that much. */
  lemma {:induction false} StepsMovePosition<T>(buffers: seq<seq<T>>, p: Place, n: int)
    requires Canonical(buffers, p) && 0 <= PositionOf(buffers, p) + n <= |Concat(buffers)|
    ensures PositionOf(buffers, Steps(buffers, p, n)) == PositionOf(buffers, p) + n
    decreases if n < 0 then -n else n
  {
    hide Next, Previous;
    PlaceWithin(buffers, p);
    if n > 0 {
      NextIsOneOn(buffers, p);
      StepsMovePosition(buffers, Next(buffers, p), n - 1);
    } else if n < 0 {
      PreviousIsOneBack(buffers, p);
      StepsMovePosition(buffers, Previous(buffers, p), n + 1);
    }
  }

  // ---------------------------------------------------------------- the iterator

  class Iterator<T> {
    const buffers: seq<seq<T>>
    var currentBuffer: seq<T>
    var currentBufferPosition: nat
    var current: nat
    var position: nat

    ghost predicate Valid()
      reads this
    {
      && Canonical(buffers, Here())
      && position == PositionOf(buffers, Here())
      && (current < |buffers| ==> currentBuffer == buffers[current])
    }

    ghost function Here(): Place
      reads this
    {
      Place(current, currentBufferPosition)
    }

    /** The number of bytes in all buffers. */
    ghost function Total(): nat { |Concat(buffers)| }

    constructor Begin(buffers: seq<seq<T>>)
      ensures Valid()
      ensures this.buffers == buffers && position == 0
    {
      this.buffers := buffers;
      currentBuffer, currentBufferPosition, position := [], 0, 0;
      current := 0;
      new;
      while current != |buffers|
        invariant current <= |buffers| && Before(buffers, current) == 0
        invariant currentBufferPosition == 0 && position == 0
        decreases |buffers| - current
      {
        currentBuffer := buffers[current];
        if |currentBuffer| > 0 {
          break;
        }
        current := current + 1;
      }
    }

    constructor End(buffers: seq<seq<T>>)
      ensures Valid()
      ensures this.buffers == buffers && position == |Concat(buffers)|
    {
      this.buffers := buffers;
      currentBuffer, currentBufferPosition, position := [], 0, 0;
      current := 0;
      new;
      while current != |buffers|
        invariant current <= |buffers| && position == Before(buffers, current)
        invariant currentBufferPosition == 0
        decreases |buffers| - current
      {
        position := position + |buffers[current]|;
        current := current + 1;
      }
      TotalSize(buffers);
    }

    constructor Copy(other: Iterator<T>)
      requires other.Valid()
      ensures Valid()
      ensures buffers == other.buffers && position == other.position
    {
      buffers := other.buffers;
      currentBuffer, currentBufferPosition := other.currentBuffer, other.currentBufferPosition;
      current, position := other.current, other.position;
    }

    /** Within the bytes the iterator is on a buffer, and nowhere else. */
    lemma {:induction false} OnByte()
      requires Valid()
      ensures position <= Total() && (current < |buffers| <==> position < Total())
    {
      TotalSize(buffers);
      if current < |buffers| {
        ByteInConcat(buffers, current, currentBufferPosition);
      }
    }

    /** The position says where the iterator is. */
    lemma {:induction false} IsAt(p: Place)
      requires Valid() && Canonical(buffers, p) && PositionOf(buffers, p) == position
      ensures Here() == p
    {
      PositionDeterminesPlace(buffers, Here(), p);
    }

    method Dereference() returns (b: T)
      requires Valid() && position < Total()
      ensures b == Concat(buffers)[position]
    {
      OnByte();
      ByteInConcat(buffers, current, currentBufferPosition);
      b := currentBuffer[currentBufferPosition];
    }

    predicate Equal(other: Iterator<T>)
      reads this, other
    {
      position == other.position
    }

    function DistanceTo(other: Iterator<T>): int
      reads this, other
    {
      other.position - position
    }

    method Increment()
      requires Valid() && current != |buffers|
      modifies this
      ensures Valid()
      ensures position == old(position) + 1 && Here() == Next(buffers, old(Here()))
    {
      hide Next;
      NextIsOneOn(buffers, Here());
      position := position + 1;
      currentBufferPosition := currentBufferPosition + 1;
      if currentBufferPosition != |currentBuffer| {
        IsAt(Next(buffers, old(Here())));
        return;
      }
      current := current + 1;
      currentBufferPosition := 0;
      while current != |buffers|
        invariant current <= |buffers| && currentBufferPosition == 0
        invariant position == Before(buffers, current) == old(position) + 1
        decreases |buffers| - current
      {
        currentBuffer := buffers[current];
        if |currentBuffer| > 0 {
          IsAt(Next(buffers, old(Here())));
          return;
        }
        current := current + 1;
      }
      IsAt(Next(buffers, old(Here())));
    }

    method Decrement()
      requires Valid() && position > 0
      modifies this
      ensures Valid()
      ensures position == old(position) - 1 && Here() == Previous(buffers, old(Here()))
    {
      hide Previous;
      PreviousIsOneBack(buffers, Here());
      position := position - 1;
      if currentBufferPosition != 0 {
        currentBufferPosition := currentBufferPosition - 1;
        IsAt(Previous(buffers, old(Here())));
        return;
      }
      var iter := current;
      while iter != 0
        invariant 0 <= iter <= current == old(current) && position == old(position) - 1
        invariant Before(buffers, iter) == old(position)
      {
        iter := iter - 1;
        var buffer := buffers[iter];
        var bufferSize := |buffer|;
        if bufferSize > 0 {
          current, currentBuffer := iter, buffer;
          currentBufferPosition := bufferSize - 1;
          IsAt(Previous(buffers, old(Here())));
          return;
        }
      }
      assert false;
    }

    /** Moves by any distance that stays in range, to where as many single steps lead. */
    method Advance(distance: int)
      requires Valid() && 0 <= position + distance <= Total()
      modifies this
      ensures Valid()
      ensures position == old(position) + distance && Here() == Steps(buffers, old(Here()), distance)
    {
      OnByte();
      StepsMovePosition(buffers, Here(), distance);
      if distance > 0 {
        AdvanceForward(distance);
      } else if distance < 0 {
        AdvanceBackward(-distance);
      }
      IsAt(Steps(buffers, old(Here()), distance));
    }

    method AdvanceForward(distance: nat)
      requires Valid() && current != |buffers| && position + distance <= Total()
      modifies this
      ensures Valid()
      ensures position == old(position) + distance
    {
      var n: nat := distance;
      TotalSize(buffers);
      while true
        invariant current < |buffers| && currentBuffer == buffers[current]
        invariant currentBufferPosition <= |currentBuffer|
        invariant position == Before(buffers, current) + currentBufferPosition
        invariant position + n == old(position) + distance
        decreases |buffers| - current
      {
        var balance := |currentBuffer| - currentBufferPosition;
        if balance > n {
          position := position + n;
          currentBufferPosition := currentBufferPosition + n;
          return;
        }
        n := n - balance;
        position := position + balance;
        current := current + 1;
        if current == |buffers| {
          assert n == 0;
          currentBuffer := [];
          currentBufferPosition := 0;
          return;
        }
        currentBuffer := buffers[current];
        currentBufferPosition := 0;
      }
    }

    method AdvanceBackward(distance: nat)
      requires Valid() && 0 < distance <= position
      modifies this
      ensures Valid()
      ensures position == old(position) - distance
    {
      var n := distance;
      while true
        invariant current <= |buffers| && n > 0
        invariant if current < |buffers| then currentBuffer == buffers[current] && currentBufferPosition <= |currentBuffer|
                  else currentBufferPosition == 0
        invariant position == Before(buffers, current) + currentBufferPosition
        invariant position - n == old(position) - distance
        decreases current
      {
        if currentBufferPosition >= n {
          position := position - n;
          currentBufferPosition := currentBufferPosition - n;
          return;
        }
        n := n - currentBufferPosition;
        position := position - currentBufferPosition;
        if current == 0 {
          // The source asserts here that nothing is left to go back.
          assert false;
        }
        var iter := current;
        ghost var was := current;
        while iter != 0
          invariant 0 <= iter <= current == was && position == Before(buffers, was)
          invariant Before(buffers, iter) == position
        {
          iter := iter - 1;
          var buffer := buffers[iter];
          var bufferSize := |buffer|;
          if bufferSize > 0 {
            current, currentBuffer := iter, buffer;
            currentBufferPosition := bufferSize;
            break;
          }
        }
        assert current < was;
      }
    }
  }

  /** `it[difference]`: reads the byte that far from `it`, which stays where it is. */
  method Index<T>(it: Iterator<T>, difference: int) returns (b: T)
    requires it.Valid() && 0 <= it.position + difference < it.Total()
    ensures b == Concat(it.buffers)[it.position + difference]
  {
    var tmp := new Iterator<T>.Copy(it);
    tmp.Advance(difference);
    b := tmp.Dereference();
  }

  // ---------------------------------------------------------------- laws

  /** Two iterators over the same buffers that compare equal are in the same place and
      read the same byte. */
  lemma {:induction false} EqualIteratorsCoincide<T>(a: Iterator<T>, b: Iterator<T>)
    requires a.Valid() && b.Valid() && a.buffers == b.buffers
    ensures a.Equal(b) <==> a.Here() == b.Here()
    ensures a.Equal(b) && a.current < |a.buffers| ==> a.currentBuffer == b.currentBuffer
  {
    if a.Equal(b) {
      PositionDeterminesPlace(a.buffers, a.Here(), b.Here());
    }
  }

  /** Advancing one iterator ends where stepping another from the same place ends. */
  method AdvanceIsRepeatedStepping<T>(a: Iterator<T>, b: Iterator<T>, distance: int)
    requires a != b && a.Valid() && b.Valid() && a.buffers == b.buffers && a.Equal(b)
    requires 0 <= a.position + distance <= a.Total()
    modifies a, b
    ensures a.Valid() && b.Valid()
    ensures a.Here() == b.Here() == Steps(a.buffers, old(b.Here()), distance)
    ensures a.position == b.position == old(a.position) + distance
  {
    EqualIteratorsCoincide(a, b);
    a.Advance(distance);
    var k := 0;
    while k != distance
      invariant a.Valid() && b.Valid() && a.position == old(a.position) + distance
      invariant a.Here() == Steps(a.buffers, old(b.Here()), distance)
      invariant if distance >= 0 then 0 <= k <= distance else distance <= k <= 0
      invariant b.position == old(b.position) + k
      invariant Steps(b.buffers, b.Here(), distance - k) == Steps(b.buffers, old(b.Here()), distance)
      decreases if distance >= 0 then distance - k else k - distance
    {
      b.OnByte();
      if distance > 0 {
        b.Increment();
        k := k + 1;
      } else {
        b.Decrement();
        k := k - 1;
      }
    }
  }

  /** From wherever an iterator is, advancing it by its distance to another over the same
      buffers takes it there, backwards if it is behind the other; that distance counts the
      single steps. */
  method AdvanceByDistance<T>(a: Iterator<T>, b: Iterator<T>)
    requires a != b && a.Valid() && b.Valid() && a.buffers == b.buffers
    modifies a
    ensures a.Valid() && a.Equal(b) && a.Here() == b.Here()
    ensures Steps(a.buffers, old(a.Here()), old(a.DistanceTo(b))) == b.Here()
    ensures old(a.DistanceTo(b)) == -old(b.DistanceTo(a))
  {
    b.OnByte();
    a.Advance(a.DistanceTo(b));
    EqualIteratorsCoincide(a, b);
  }

  /** From the beginning, advancing by the size of all buffers gives the end. */
  method BeginPlusSizeIsEnd<T>(buffers: seq<seq<T>>) returns (first: Iterator<T>, last: Iterator<T>)
    ensures fresh(first) && fresh(last)
    ensures first.Valid() && last.Valid() && first.Equal(last) && first.Here() == last.Here()
    ensures first.buffers == last.buffers == buffers && first.position == |Concat(buffers)|
  {
    first := new Iterator<T>.Begin(buffers);
    last := new Iterator<T>.End(buffers);
    ghost var size := |Concat(buffers)|;
    var d := first.DistanceTo(last);
    first.Advance(d);
    EqualIteratorsCoincide(first, last);
  }
}
