/**
  The single-producer single-consumer ring buffer, run by one thread at a time. The
  concurrent runs are in SpscProtocol.

  Two ghost counters never wrap: the length of the log of everything ever published, and
  the number of entries popped. `head` and `tail` are those counters modulo `2^width`.
 */
module RingBuffer {
  import opened Words
  import opened RingSlots
  import opened Sequences

  // ---------------------------------------------------------------- transfers in pieces

  /** The size of the first piece of a transfer with a callback. */
  function FirstPiece(count: nat, countToCallback: nat): nat {
    if countToCallback != 0 && countToCallback < count then countToCallback else count
  }

  /** How much the consumer would take at the i-th call of the callback, if there is one. */
  function DrainAt(drains: Option<nat -> nat>, i: nat): nat {
    if drains.Some? then drains.value(i) else 0
  }

  /** What the producer would write at the i-th call of the callback, if there is one. */
  function OfferAt<T>(offers: Option<nat -> seq<T>>, i: nat): seq<T> {
    if offers.Some? then offers.value(i) else []
  }

  /** The course of a write in pieces on a queue of a given length: how much is written in
      the end, and how much the consumer took on the way. */
  function WritePieces(size: nat, count: nat, drains: Option<nat -> nat>,
                       length: nat, written: nat, toWrite: nat, call: nat): (r: (nat, nat))
    requires length <= size && written <= count && (written < count ==> 0 < toWrite <= count - written)
    decreases count - written
  {
    if written == count || length == size then (written, 0)
    else
      var n := Min(toWrite, size - length);
      var d := Min(DrainAt(drains, call), length + n);
      var r := WritePieces(size, count, drains, length + n - d, written + n, count - written - n, call + 1);
      (r.0, d + r.1)
  }

  /** A write in pieces falls short only on a buffer that is full at the last check, and
      with a callback that takes nothing it writes what the simple write would. */
  lemma {:induction false} WritePiecesLaw(size: nat, count: nat, drains: Option<nat -> nat>,
                                          length: nat, written: nat, toWrite: nat, call: nat)
    requires length <= size && written <= count && (written < count ==> 0 < toWrite <= count - written)
    ensures var r := WritePieces(size, count, drains, length, written, toWrite, call);
            && written <= r.0 <= count && r.1 <= length + (r.0 - written) <= size + r.1
            && (r.0 < count ==> length + (r.0 - written) == size + r.1)
            && ((forall i: nat :: DrainAt(drains, i) == 0) ==>
                  r == (written + Min(count - written, size - length), 0))
    decreases count - written
  {
    if written < count && length < size {
      var n := Min(toWrite, size - length);
      var d := Min(DrainAt(drains, call), length + n);
      WritePiecesLaw(size, count, drains, length + n - d, written + n, count - written - n, call + 1);
    }
  }

  /** With `written` written and `dropped` taken by the consumer so far, a write in pieces
      is on its way to end as `whole` says. */
  ghost predicate WriteOnCourse(whole: (nat, nat), size: nat, count: nat, drains: Option<nat -> nat>,
                                length: nat, written: nat, toWrite: nat, call: nat, dropped: int) {
    && length <= size && written <= count && (written < count ==> 0 < toWrite <= count - written)
    && var r := WritePieces(size, count, drains, length, written, toWrite, call);
       whole.0 == r.0 && whole.1 == r.1 + dropped
  }

  lemma {:induction false} WriteCourseContinues(whole: (nat, nat), size: nat, count: nat, drains: Option<nat -> nat>,
                                                length: nat, written: nat, toWrite: nat, call: nat, dropped: int)
    requires WriteOnCourse(whole, size, count, drains, length, written, toWrite, call, dropped)
    requires written < count && length < size
    ensures var n := Min(toWrite, size - length);
            var d := Min(DrainAt(drains, call), length + n);
            WriteOnCourse(whole, size, count, drains, length + n - d, written + n, count - written - n, call + 1, dropped + d)
  {
  }

  lemma {:induction false} WriteCourseStarts(size: nat, count: nat, drains: Option<nat -> nat>, length: nat, toWrite: nat)
    requires length <= size && toWrite <= count && (0 < count ==> 0 < toWrite)
    ensures WriteOnCourse(WritePieces(size, count, drains, length, 0, toWrite, 0), size, count, drains, length, 0, toWrite, 0, 0)
  {
    hide WritePieces;
  }

  lemma {:induction false} WriteCourseWithin(whole: (nat, nat), size: nat, count: nat, drains: Option<nat -> nat>,
                                             length: nat, written: nat, toWrite: nat, call: nat, dropped: int)
    requires WriteOnCourse(whole, size, count, drains, length, written, toWrite, call, dropped)
    ensures length <= size && written <= count && (written < count ==> 0 < toWrite <= count - written)
  {
    hide WritePieces;
  }

  lemma {:induction false} WriteCourseEnds(whole: (nat, nat), size: nat, count: nat, drains: Option<nat -> nat>,
                                           length: nat, written: nat, toWrite: nat, call: nat, dropped: int)
    requires WriteOnCourse(whole, size, count, drains, length, written, toWrite, call, dropped)
    requires written == count || length == size
    ensures whole.0 == written && whole.1 == dropped
  {
  }

  /** `log` is `base` with the first `n` of `items` behind it. */
  ghost predicate Appended<T>(log: seq<T>, base: seq<T>, items: seq<T>, n: nat) {
    n <= |items| && log == base + items[..n]
  }

  lemma {:induction false} NothingAppended<T>(log: seq<T>, items: seq<T>)
    ensures Appended(log, log, items, 0)
  {
  }

  lemma {:induction false} AppendedMeans<T>(log: seq<T>, base: seq<T>, items: seq<T>, n: nat)
    requires Appended(log, base, items, n)
    ensures n <= |items| && log == base + items[..n]
  {
  }

  lemma {:induction false} AppendedMore<T>(log: seq<T>, log': seq<T>, base: seq<T>, items: seq<T>, n: nat, k: nat)
    requires Appended(log, base, items, n) && n + k <= |items| && log' == log + items[n..n + k]
    ensures Appended(log', base, items, n + k)
  {
    SlicesJoin(items, n, n + k);
  }

  /** The course of a read in pieces: how much is read in the end, and what the producer
      wrote on the way. */
  function ReadPieces<T>(size: nat, count: nat, offers: Option<nat -> seq<T>>,
                         length: nat, read: nat, toRead: nat, call: nat): (r: (nat, seq<T>))
    requires length <= size && read <= count && (read < count ==> 0 < toRead <= count - read)
    decreases count - read
  {
    if read == count || length == 0 then (read, [])
    else
      var n := Min(toRead, length);
      var offer := OfferAt(offers, call);
      var w := Min(|offer|, size - (length - n));
      var r := ReadPieces(size, count, offers, length - n + w, read + n, count - read - n, call + 1);
      (r.0, offer[..w] + r.1)
  }

  /** A read in pieces falls short only on a buffer that is empty at the last check, and
      with a callback that writes nothing it reads what the simple read would. */
  lemma {:induction false} ReadPiecesLaw<T>(size: nat, count: nat, offers: Option<nat -> seq<T>>,
                                            length: nat, read: nat, toRead: nat, call: nat)
    requires length <= size && read <= count && (read < count ==> 0 < toRead <= count - read)
    ensures var r := ReadPieces(size, count, offers, length, read, toRead, call);
            && read <= r.0 <= count && r.0 - read <= length + |r.1| <= size + (r.0 - read)
            && (r.0 < count ==> r.0 - read == length + |r.1|)
            && ((forall i: nat :: OfferAt(offers, i) == []) ==> r == (read + Min(count - read, length), []))
    decreases count - read
  {
    if read < count && length > 0 {
      var n := Min(toRead, length);
      var w := Min(|OfferAt(offers, call)|, size - (length - n));
      ReadPiecesLaw(size, count, offers, length - n + w, read + n, count - read - n, call + 1);
    }
  }

  // What the callback finds each time it is called, told without reference to the course.

  /** How much of the transfer is done, and how many elements the buffer holds. */
  datatype Visit = Visit(done: nat, length: nat)

  /** What a callback at its k-th call leaves of the buffer it finds. */
  function LeftByDrain(v: Visit, drains: Option<nat -> nat>, k: nat): nat {
    if drains.None? || drains.value(k) == 0 then v.length
    else if drains.value(k) < v.length then v.length - drains.value(k) else 0
  }

  /** Between two calls as much is written as the first leaves room for, or all that is left. */
  predicate NextWriteVisit(v: Visit, v': Visit, size: nat, count: nat, drains: Option<nat -> nat>, k: nat) {
    && v.done < v'.done && v'.length == LeftByDrain(v, drains, k) + (v'.done - v.done)
    && (v'.done == count || v'.length == size)
  }

  /** The calls during a write, the first of them the `call`-th: before it `first` more items
      have been written than `written`, or as many as there was room for. */
  ghost predicate WriteVisits(seen: seq<Visit>, size: nat, count: nat, drains: Option<nat -> nat>,
                              length: nat, written: nat, first: nat, call: nat) {
    && (forall i | 0 <= i < |seen| :: seen[i].done <= count && seen[i].length <= size)
    && (seen != [] ==>
          && written < seen[0].done <= written + first && seen[0].length == length + (seen[0].done - written)
          && (seen[0].done == written + first || seen[0].length == size))
    && (forall i | 0 < i < |seen| :: NextWriteVisit(seen[i - 1], seen[i], size, count, drains, call + i - 1))
  }

  /** What the buffer holds when the write is over. */
  function LeftAfterWrite(seen: seq<Visit>, drains: Option<nat -> nat>, length: nat, call: nat): nat {
    if seen == [] then length else LeftByDrain(seen[|seen| - 1], drains, call + |seen| - 1)
  }

  /** How much of a transfer is done after these calls. */
  function DoneAfter(seen: seq<Visit>, done: nat): nat {
    if seen == [] then done else seen[|seen| - 1].done
  }

  /** The course of a write in pieces is the one its callbacks see: it goes on until all is
      written or the buffer is full. */
  lemma {:induction false} WriteIsSeen(size: nat, count: nat, drains: Option<nat -> nat>,
                                       length: nat, written: nat, toWrite: nat, call: nat) returns (seen: seq<Visit>)
    requires length <= size && written <= count && (written < count ==> 0 < toWrite <= count - written)
    ensures WriteVisits(seen, size, count, drains, length, written, toWrite, call)
    ensures var r, left := WritePieces(size, count, drains, length, written, toWrite, call),
                           LeftAfterWrite(seen, drains, length, call);
            && r.0 == DoneAfter(seen, written) && r.1 == length + (r.0 - written) - left
            && (r.0 == count || left == size)
    decreases count - written
  {
    if written == count || length == size {
      seen := [];
    } else {
      var n := Min(toWrite, size - length);
      var v := Visit(written + n, length + n);
      var left := LeftByDrain(v, drains, call);
      WriteUnfolds(size, count, drains, length, written, toWrite, call, v);
      hide WritePieces, WriteVisits, LeftByDrain, LeftAfterWrite, DoneAfter, DrainAt;
      var rest := WriteIsSeen(size, count, drains, left, v.done, count - v.done, call + 1);
      FirstWriteVisit(v, rest, size, count, drains, length, written, toWrite, call);
      seen := [v] + rest;
    }
  }

  lemma {:induction false} WriteUnfolds(size: nat, count: nat, drains: Option<nat -> nat>,
                                        length: nat, written: nat, toWrite: nat, call: nat, v: Visit)
    requires length < size && written < count && 0 < toWrite <= count - written
    requires v.done == written + Min(toWrite, size - length) && v.length == length + (v.done - written)
    ensures v.done <= count && LeftByDrain(v, drains, call) <= v.length <= size
    ensures var left := LeftByDrain(v, drains, call);
            var r := WritePieces(size, count, drains, left, v.done, count - v.done, call + 1);
            WritePieces(size, count, drains, length, written, toWrite, call) == (r.0, v.length - left + r.1)
  {
    DrainLeaves(v, drains, call);
    hide LeftByDrain, DrainAt;
  }

  lemma {:induction false} DrainLeaves(v: Visit, drains: Option<nat -> nat>, k: nat)
    ensures LeftByDrain(v, drains, k) == v.length - Min(DrainAt(drains, k), v.length)
  {
  }

  lemma {:induction false} FirstWriteVisit(v: Visit, rest: seq<Visit>, size: nat, count: nat, drains: Option<nat -> nat>,
                                           length: nat, written: nat, first: nat, call: nat)
    requires written < v.done <= count && v.done <= written + first && v.length == length + (v.done - written) <= size
    requires v.done == written + first || v.length == size
    requires WriteVisits(rest, size, count, drains, LeftByDrain(v, drains, call), v.done, count - v.done, call + 1)
    ensures WriteVisits([v] + rest, size, count, drains, length, written, first, call)
    ensures DoneAfter([v] + rest, written) == DoneAfter(rest, v.done)
    ensures LeftAfterWrite([v] + rest, drains, length, call)
         == LeftAfterWrite(rest, drains, LeftByDrain(v, drains, call), call + 1)
  {
    hide LeftByDrain;
    var seen := [v] + rest;
    forall i | 0 < i < |seen|
      ensures NextWriteVisit(seen[i - 1], seen[i], size, count, drains, call + i - 1)
    {
      if i > 1 {
        assert NextWriteVisit(rest[i - 2], rest[i - 1], size, count, drains, (call + 1) + (i - 1) - 1);
      }
    }
  }

  /** What a callback at its k-th call makes of the buffer a read has left. */
  function LeftByOffer<T>(v: Visit, offers: Option<nat -> seq<T>>, size: nat, k: nat): nat {
    if offers.None? || size <= v.length then v.length
    else if |offers.value(k)| < size - v.length then v.length + |offers.value(k)| else size
  }

  /** Between two calls as much is read as the first leaves, or all that is still asked for. */
  predicate NextReadVisit<T>(v: Visit, v': Visit, size: nat, count: nat, offers: Option<nat -> seq<T>>, k: nat) {
    && v.done < v'.done && v'.length + (v'.done - v.done) == LeftByOffer(v, offers, size, k)
    && (v'.done == count || v'.length == 0)
  }

  /** The calls during a read: before the first of them `first` more elements have been read
      than `read`, or as many as there were. */
  ghost predicate ReadVisits<T>(seen: seq<Visit>, size: nat, count: nat, offers: Option<nat -> seq<T>>,
                                length: nat, read: nat, first: nat, call: nat) {
    && (forall i | 0 <= i < |seen| :: seen[i].done <= count && seen[i].length <= size)
    && (seen != [] ==>
          && read < seen[0].done <= read + first && seen[0].length + (seen[0].done - read) == length
          && (seen[0].done == read + first || seen[0].length == 0))
    && (forall i | 0 < i < |seen| :: NextReadVisit(seen[i - 1], seen[i], size, count, offers, call + i - 1))
  }

  function LeftAfterRead<T>(seen: seq<Visit>, offers: Option<nat -> seq<T>>, size: nat, length: nat, call: nat): nat {
    if seen == [] then length else LeftByOffer(seen[|seen| - 1], offers, size, call + |seen| - 1)
  }

  /** The course of a read in pieces is the one its callbacks see: it goes on until all that
      is asked for is read or the buffer is empty. */
  lemma {:induction false} ReadIsSeen<T>(size: nat, count: nat, offers: Option<nat -> seq<T>>,
                                         length: nat, read: nat, toRead: nat, call: nat) returns (seen: seq<Visit>)
    requires length <= size && read <= count && (read < count ==> 0 < toRead <= count - read)
    ensures ReadVisits(seen, size, count, offers, length, read, toRead, call)
    ensures var r, left := ReadPieces(size, count, offers, length, read, toRead, call),
                           LeftAfterRead(seen, offers, size, length, call);
            && r.0 == DoneAfter(seen, read) && |r.1| == left + (r.0 - read) - length
            && (r.0 == count || left == 0)
    decreases count - read
  {
    if read == count || length == 0 {
      seen := [];
    } else {
      var n := Min(toRead, length);
      var v := Visit(read + n, length - n);
      var left := LeftByOffer(v, offers, size, call);
      ReadUnfolds(size, count, offers, length, read, toRead, call, v);
      hide ReadPieces, ReadVisits, LeftByOffer, LeftAfterRead, DoneAfter, OfferAt;
      var rest := ReadIsSeen(size, count, offers, left, v.done, count - v.done, call + 1);
      FirstReadVisit(v, rest, size, count, offers, length, read, toRead, call);
      seen := [v] + rest;
    }
  }

  lemma {:induction false} ReadUnfolds<T>(size: nat, count: nat, offers: Option<nat -> seq<T>>,
                                          length: nat, read: nat, toRead: nat, call: nat, v: Visit)
    requires 0 < length <= size && read < count && 0 < toRead <= count - read
    requires v.done == read + Min(toRead, length) && v.length + (v.done - read) == length
    ensures v.done <= count && v.length <= LeftByOffer(v, offers, size, call) <= size
    ensures var left := LeftByOffer(v, offers, size, call);
            var r := ReadPieces(size, count, offers, left, v.done, count - v.done, call + 1);
            var whole := ReadPieces(size, count, offers, length, read, toRead, call);
            whole.0 == r.0 && |whole.1| == left - v.length + |r.1|
  {
    OfferLeaves(v, offers, size, call);
    hide LeftByOffer, OfferAt;
  }

  lemma {:induction false} OfferLeaves<T>(v: Visit, offers: Option<nat -> seq<T>>, size: nat, k: nat)
    requires v.length <= size
    ensures LeftByOffer(v, offers, size, k) == v.length + Min(|OfferAt(offers, k)|, size - v.length)
  {
  }

  lemma {:induction false} FirstReadVisit<T>(v: Visit, rest: seq<Visit>, size: nat, count: nat, offers: Option<nat -> seq<T>>,
                                             length: nat, read: nat, first: nat, call: nat)
    requires read < v.done <= count && v.done <= read + first && v.length + (v.done - read) == length <= size
    requires v.done == read + first || v.length == 0
    requires ReadVisits(rest, size, count, offers, LeftByOffer(v, offers, size, call), v.done, count - v.done, call + 1)
    ensures ReadVisits([v] + rest, size, count, offers, length, read, first, call)
    ensures DoneAfter([v] + rest, read) == DoneAfter(rest, v.done)
    ensures LeftAfterRead([v] + rest, offers, size, length, call)
         == LeftAfterRead(rest, offers, size, LeftByOffer(v, offers, size, call), call + 1)
  {
    hide LeftByOffer;
    var seen := [v] + rest;
    forall i | 0 < i < |seen|
      ensures NextReadVisit(seen[i - 1], seen[i], size, count, offers, call + i - 1)
    {
      if i > 1 {
        assert NextReadVisit(rest[i - 2], rest[i - 1], size, count, offers, (call + 1) + (i - 1) - 1);
      }
    }
  }

  /** `buff` is `initial` with entries `start` to `end` of the log over its beginning. */
  ghost predicate CopiedOut<T>(buff: seq<T>, initial: seq<T>, log: seq<T>, start: nat, end: nat) {
    && start <= end <= |log| && end - start <= |initial|
    && buff == Splice(initial, 0, log[start..end])
  }

  lemma {:induction false} NothingCopied<T>(initial: seq<T>, log: seq<T>, start: nat)
    requires start <= |log|
    ensures CopiedOut(initial, initial, log, start, start)
  {
    assert log[start..start] == [];
  }

  lemma {:induction false} CopiedMore<T>(buff: seq<T>, buff': seq<T>, initial: seq<T>, log: seq<T>, log': seq<T>,
                                         start: nat, end: nat, n: nat)
    requires CopiedOut(buff, initial, log, start, end) && end + n <= |log| <= |log'| && log'[..|log|] == log
    requires end - start + n <= |initial| && buff' == Splice(buff, end - start, log[end..end + n])
    ensures CopiedOut(buff', initial, log', start, end + n)
  {
    SpliceLog(initial, log, log', start, end, end + n);
  }

  lemma {:induction false} CopiedMeans<T>(buff: seq<T>, initial: seq<T>, log: seq<T>, start: nat, end: nat)
    requires CopiedOut(buff, initial, log, start, end)
    ensures start <= end <= |log| && end - start <= |initial| && buff == Splice(initial, 0, log[start..end])
  {
  }

  /** With `read` read and `log` published so far, a read in pieces is on its way to end
      as `whole` says. */
  ghost predicate ReadOnCourse<T>(whole: (nat, seq<T>), size: nat, count: nat, offers: Option<nat -> seq<T>>,
                                  length: nat, read: nat, toRead: nat, call: nat, log: seq<T>) {
    && length <= size && read <= count && (read < count ==> 0 < toRead <= count - read)
    && var r := ReadPieces(size, count, offers, length, read, toRead, call);
       whole.0 == r.0 && whole.1 == log + r.1
  }

  lemma {:induction false} ReadCourseContinues<T>(whole: (nat, seq<T>), size: nat, count: nat, offers: Option<nat -> seq<T>>,
                                                  length: nat, read: nat, toRead: nat, call: nat, log: seq<T>)
    requires ReadOnCourse(whole, size, count, offers, length, read, toRead, call, log)
    requires read < count && length > 0
    ensures var n := Min(toRead, length);
            var offer := OfferAt(offers, call);
            var w := Min(|offer|, size - (length - n));
            ReadOnCourse(whole, size, count, offers, length - n + w, read + n, count - read - n, call + 1, log + offer[..w])
  {
  }

  lemma {:induction false} ReadCourseStarts<T>(size: nat, count: nat, offers: Option<nat -> seq<T>>,
                                               length: nat, toRead: nat, log: seq<T>)
    requires length <= size && toRead <= count && (0 < count ==> 0 < toRead)
    ensures var r := ReadPieces(size, count, offers, length, 0, toRead, 0);
            ReadOnCourse((r.0, log + r.1), size, count, offers, length, 0, toRead, 0, log)
  {
    hide ReadPieces;
  }

  lemma {:induction false} ReadCourseWithin<T>(whole: (nat, seq<T>), size: nat, count: nat, offers: Option<nat -> seq<T>>,
                                               length: nat, read: nat, toRead: nat, call: nat, log: seq<T>)
    requires ReadOnCourse(whole, size, count, offers, length, read, toRead, call, log)
    ensures length <= size && read <= count && (read < count ==> 0 < toRead <= count - read)
  {
    hide ReadPieces;
  }

  lemma {:induction false} ReadCourseEnds<T>(whole: (nat, seq<T>), size: nat, count: nat, offers: Option<nat -> seq<T>>,
                                             length: nat, read: nat, toRead: nat, call: nat, log: seq<T>)
    requires ReadOnCourse(whole, size, count, offers, length, read, toRead, call, log)
    requires read == count || length == 0
    ensures whole.0 == read && whole.1 == log
  {
  }

  /** A callback that acquires an element, with a side effect each time it is called. */
  class DataSource<T> {
    const data: nat -> T
    var calls: nat

    constructor (data: nat -> T)
      ensures this.data == data && calls == 0
    {
      this.data := data;
      calls := 0;
    }

    method GetData() returns (x: T)
      modifies this
      ensures calls == old(calls) + 1 && x == data(old(calls))
    {
      x := data(calls);
      calls := calls + 1;
    }
  }

  class Ringbuffer<T(0)> {
    const geometry: Geometry
    const slots: array<T>
    var head: nat
    var tail: nat
    ghost var published: seq<T>
    ghost var popped: nat

    ghost predicate Valid()
      reads this, slots
    {
      && geometry.Compiles()
      && slots.Length == geometry.size
      && popped <= |published| <= popped + geometry.size
      && head == |published| % geometry.Modulus()
      && tail == popped % geometry.Modulus()
      && Holds(slots[..], published, popped)
    }

    /** The elements in the buffer, oldest first. */
    ghost function Contents(): seq<T>
      reads this, slots
      requires Valid()
    {
      published[popped..]
    }

    lemma ContentsLength()
      requires Valid()
      ensures |Contents()| == |published| - popped <= geometry.size
    {
      hide BitAnd, Pow2, Holds, Geometry.Compiles;
    }

    constructor (geometry: Geometry)
      requires geometry.Compiles()
      ensures Valid() && fresh(slots)
      ensures this.geometry == geometry && published == [] && popped == 0
    {
      this.geometry := geometry;
      slots := new T[geometry.size];
      head, tail := 0, 0;
      published, popped := [], 0;
    }

    /** The contents can be read off the wrapped indices and the slots alone. */
    lemma ContentsAreBuffered()
      requires Valid()
      ensures Contents() == Buffered(geometry, slots[..], head, tail)
    {
      BufferedIsLogSuffix(geometry, slots[..], published, popped);
    }

    function ReadAvailable(): (r: nat)
      reads this, slots
      requires Valid()
      ensures r == |Contents()|
    {
      DistanceExact(geometry, |published|, popped);
      WrapSub(head, tail, geometry.Modulus())
    }

    function WriteAvailable(): (r: nat)
      reads this, slots
      requires Valid()
      ensures r + |Contents()| == geometry.size
    {
      DistanceExact(geometry, |published|, popped);
      WrapSub(geometry.size, WrapSub(head, tail, geometry.Modulus()), geometry.Modulus())
    }

    predicate IsEmpty()
      reads this, slots
      requires Valid()
      ensures IsEmpty() <==> Contents() == []
    {
      ReadAvailable() == 0
    }

    predicate IsFull()
      reads this, slots
      requires Valid()
      ensures IsFull() <==> |Contents()| == geometry.size
    {
      WriteAvailable() == 0
    }

    /** The slot of the element `index` places after the oldest, if there is one. */
    method At(index: nat) returns (slot: Option<nat>)
      requires Valid()
      ensures slot.None? <==> index >= |Contents()|
      ensures slot.Some? ==> slot.value < slots.Length && slots[slot.value] == Contents()[index]
    {
      var m := geometry.Modulus();
      var tmpTail := tail;
      DistanceExact(geometry, |published|, popped);
      if WrapSub(head, tmpTail, m) <= index {
        slot := None;
      } else {
        ModAdd(popped, index, m);
        SlotOfCounter(geometry, popped + index);
        assert InPlace(slots[..], published, popped + index);
        slot := Some(geometry.Slot(WrapAdd(tmpTail, index, m)));
      }
    }

    method Peek() returns (slot: Option<nat>)
      requires Valid()
      ensures slot.None? <==> Contents() == []
      ensures slot.Some? ==> slot.value < slots.Length && slots[slot.value] == Contents()[0]
    {
      var tmpTail := tail;
      DistanceExact(geometry, |published|, popped);
      if tmpTail == head {
        slot := None;
      } else {
        SlotOfCounter(geometry, popped);
        assert InPlace(slots[..], published, popped);
        slot := Some(geometry.Slot(tmpTail));
      }
    }

    method Insert(x: T) returns (inserted: bool)
      requires Valid()
      modifies this`head, this`published, slots
      ensures Valid()
      ensures inserted == (|old(Contents())| < geometry.size)
      ensures published == old(published) + if inserted then [x] else []
    {
      var m := geometry.Modulus();
      var tmpHead := head;
      DistanceExact(geometry, |published|, popped);
      if WrapSub(tmpHead, tail, m) == geometry.size {
        return false;
      }
      SlotOfCounter(geometry, |published|);
      HoldsWrite(slots[..], published, popped, x);
      slots[geometry.Slot(tmpHead)] := x;
      ModAdd(|published|, 1, m);
      tmpHead := WrapAdd(tmpHead, 1, m);
      head := tmpHead;
      published := published + [x];
      return true;
    }

    /** Calls the callback only when there is room for the element it returns. */
    method InsertFromCallbackWhenAvailable(source: DataSource<T>) returns (inserted: bool)
      requires Valid()
      modifies this`head, this`published, slots, source
      ensures Valid()
      ensures inserted == (|old(Contents())| < geometry.size)
      ensures published == old(published) + if inserted then [source.data(old(source.calls))] else []
      ensures source.calls == old(source.calls) + if inserted then 1 else 0
    {
      var m := geometry.Modulus();
      var tmpHead := head;
      DistanceExact(geometry, |published|, popped);
      if WrapSub(tmpHead, tail, m) == geometry.size {
        return false;
      }
      SlotOfCounter(geometry, |published|);
      var data := source.GetData();
      HoldsWrite(slots[..], published, popped, data);
      slots[geometry.Slot(tmpHead)] := data;
      ModAdd(|published|, 1, m);
      tmpHead := WrapAdd(tmpHead, 1, m);
      head := tmpHead;
      published := published + [data];
      return true;
    }

    /** Drops the oldest element without reading it. */
    method RemoveOne() returns (removed: bool)
      requires Valid()
      modifies this`tail, this`popped
      ensures Valid()
      ensures removed == (old(Contents()) != [])
      ensures popped == old(popped) + if removed then 1 else 0
    {
      var tmpTail := tail;
      DistanceExact(geometry, |published|, popped);
      if tmpTail == head {
        return false;
      }
      ModAdd(popped, 1, geometry.Modulus());
      tmpTail := WrapAdd(tmpTail, 1, geometry.Modulus());
      tail := tmpTail;
      popped := popped + 1;
      return true;
    }

    /** Drops up to `cnt` of the oldest elements without reading them. */
    method RemoveMany(cnt: nat) returns (removed: nat)
      requires Valid()
      modifies this`tail, this`popped
      ensures Valid()
      ensures removed == Min(cnt, |old(Contents())|)
      ensures popped == old(popped) + removed
    {
      var m := geometry.Modulus();
      var tmpTail := tail;
      DistanceExact(geometry, |published|, popped);
      var avail := WrapSub(head, tmpTail, m);
      removed := if cnt > avail then avail else cnt;
      ModAdd(popped, removed, m);
      tail := WrapAdd(tmpTail, removed, m);
      popped := popped + removed;
    }

    /** Reads and drops the oldest element. */
    method RemoveTo() returns (data: Option<T>)
      requires Valid()
      modifies this`tail, this`popped
      ensures Valid()
      ensures data == if old(Contents()) == [] then None else Some(old(Contents())[0])
      ensures popped == old(popped) + if data.Some? then 1 else 0
    {
      var tmpTail := tail;
      DistanceExact(geometry, |published|, popped);
      if tmpTail == head {
        return None;
      }
      SlotOfCounter(geometry, popped);
      assert InPlace(slots[..], published, popped);
      data := Some(slots[geometry.Slot(tmpTail)]);
      ModAdd(popped, 1, geometry.Modulus());
      tmpTail := WrapAdd(tmpTail, 1, geometry.Modulus());
      tail := tmpTail;
      popped := popped + 1;
    }

    method ConsumerClear()
      requires Valid()
      modifies this`tail, this`popped
      ensures Valid()
      ensures Contents() == [] && popped == |published|
    {
      tail := head;
      popped := |published|;
    }

    /** The producer's availability check: `buffer_size - (tmp_head - tail)`. */
    method CheckRoom(tmpHead: nat) returns (available: nat)
      requires Valid() && tmpHead == head
      ensures available == geometry.size - |Contents()|
    {
      var m := geometry.Modulus();
      DistanceExact(geometry, |published|, popped);
      available := WrapSub(geometry.size, WrapSub(tmpHead, tail, m), m);
    }

    /** The consumer's availability check: `head - tmp_tail`. */
    method CheckData(tmpTail: nat) returns (available: nat)
      requires Valid() && tmpTail == tail
      ensures available == |Contents()|
    {
      DistanceExact(geometry, |published|, popped);
      available := WrapSub(head, tmpTail, geometry.Modulus());
    }

    /** The filling loop: puts `items` behind `log` without publishing them. */
    method Fill(ghost log: seq<T>, items: seq<T>, index: nat) returns (tmpHead: nat)
      requires geometry.Compiles() && slots.Length == geometry.size
      requires popped <= |log| && |log| + |items| <= popped + geometry.size
      requires index == |log| % geometry.Modulus() && Holds(slots[..], log, popped)
      modifies slots
      ensures tmpHead == (|log| + |items|) % geometry.Modulus()
      ensures Holds(slots[..], log + items, popped)
    {
      hide BitAnd, Pow2;
      tmpHead := index;
      assert log + items[..0] == log;
      for i := 0 to |items|
        invariant tmpHead == (|log| + i) % geometry.Modulus()
        invariant Holds(slots[..], log + items[..i], popped)
      {
        SlotOfCounter(geometry, |log| + i);
        HoldsWrite(slots[..], log + items[..i], popped, items[i]);
        slots[geometry.Slot(tmpHead)] := items[i];
        ModAdd(|log| + i, 1, geometry.Modulus());
        tmpHead := WrapAdd(tmpHead, 1, geometry.Modulus());
        assert log + items[..i] + [items[i]] == log + items[..i + 1];
      }
      assert log + items[..|items|] == log + items;
    }

    /** A slot found at a wrapped index holds its entry of the log. */
    lemma SlotHolds(index: nat, i: nat)
      requires Valid() && popped <= i < |published| && index == i % geometry.Modulus()
      ensures geometry.Slot(index) < slots.Length && slots[geometry.Slot(index)] == published[i]
    {
      hide BitAnd, Pow2;
      SlotOfCounter(geometry, i);
      assert InPlace(slots[..], published, i);
    }

    /** The fetching loop: copies the `n` elements from `from` on into `buff` at `at`. */
    method Fetch(buff: array<T>, at: nat, n: nat, ghost from: nat, index: nat) returns (tmpTail: nat)
      requires Valid() && buff != slots && at + n <= buff.Length
      requires popped <= from && from + n <= |published| && index == from % geometry.Modulus()
      modifies buff
      ensures tmpTail == (from + n) % geometry.Modulus()
      ensures buff[..] == Splice(old(buff[..]), at, published[from..from + n])
    {
      hide BitAnd, Pow2, Geometry.Compiles, Holds, WrapAdd, Splice;
      tmpTail := index;
      assert published[from..from] == [];
      SpliceNothing(buff[..], at);
      for i := 0 to n
        invariant tmpTail == (from + i) % geometry.Modulus()
        invariant buff[..] == Splice(old(buff[..]), at, published[from..from + i])
      {
        SlotHolds(tmpTail, from + i);
        SpliceNext(old(buff[..]), at, published[from..from + i], published[from + i]);
        assert published[from..from + i] + [published[from + i]] == published[from..from + i + 1];
        ghost var before := buff[..];
        buff[at + i] := slots[geometry.Slot(tmpTail)];
        assert buff[..] == before[at + i := published[from + i]];
        WrapAddExact(from + i, 1, geometry.Modulus());
        tmpTail := WrapAdd(tmpTail, 1, geometry.Modulus());
      }
    }

    /** Writes as much of `buff` as there is room for, publishing it at once. */
    method WriteBuff(buff: seq<T>) returns (written: nat)
      requires Valid()
      modifies this`head, this`published, slots
      ensures Valid()
      ensures written == Min(|buff|, geometry.size - |old(Contents())|)
      ensures published == old(published) + buff[..written]
    {
      var toWrite := |buff|;
      var available := CheckRoom(head);
      if available < |buff| {
        toWrite := available;
      }
      var tmpHead := Fill(published, buff[..toWrite], head);
      head := tmpHead;
      published := published + buff[..toWrite];
      return toWrite;
    }

    /** Copies the `n` oldest elements to `buff` at `at`, then releases their slots. */
    method ReadPiece(buff: array<T>, at: nat, n: nat)
      requires Valid() && buff != slots && at + n <= buff.Length && n <= |Contents()|
      modifies this`tail, this`popped, buff
      ensures Valid()
      ensures popped == old(popped) + n
      ensures buff[..] == Splice(old(buff[..]), at, published[old(popped)..popped])
    {
      var tmpTail := Fetch(buff, at, n, popped, tail);
      tail := tmpTail;
      popped := popped + n;
    }

    /** Reads up to `count` of the oldest elements into `buff`. */
    method ReadBuff(buff: array<T>, count: nat) returns (read: nat)
      requires Valid()
      requires count <= buff.Length && buff != slots
      modifies this`tail, this`popped, buff
      ensures Valid()
      ensures read == Min(count, |old(Contents())|)
      ensures buff[..] == Splice(old(buff[..]), 0, old(Contents())[..read])
      ensures popped == old(popped) + read
    {
      var toRead := count;
      var available := CheckData(tail);
      if available < count {
        toRead := available;
      }
      assert published[popped..popped + toRead] == Contents()[..toRead];
      ReadPiece(buff, 0, toRead);
      return toRead;
    }

    /** One round of writing in pieces: as much of the piece as there is room for is
        published, then the callback, if there is one, lets the consumer drain the buffer.
        A full buffer ends the write. */
    method WriteRound(buff: seq<T>, written: nat, toWrite: nat, drains: Option<nat -> nat>, calls: nat) returns (n: nat)
      requires Valid() && 0 < toWrite && written + toWrite <= |buff|
      modifies this`head, this`tail, this`published, this`popped, slots
      ensures Valid() && n == Min(toWrite, geometry.size - |old(Contents())|)
      ensures published == old(published) + buff[written..written + n]
      ensures n == 0 ==> popped == old(popped) && published == old(published)
      ensures n > 0 ==> var d := Min(DrainAt(drains, calls), |old(Contents())| + n);
                        popped == old(popped) + d && |Contents()| == |old(Contents())| + n - d
    {
      hide BitAnd, Pow2, Holds;
      n := toWrite;
      var available := CheckRoom(head);
      if available == 0 {
        assert buff[written..written] == [];
        return 0;
      }
      if n > available {
        n := available;
      }
      var tmpHead := Fill(published, buff[written..written + n], head);
      head := tmpHead;
      published := published + buff[written..written + n];
      if drains.Some? {
        var _ := RemoveMany(drains.value(calls));
      }
    }

    /**
      Writes `buff` in pieces, the first at most `countToCallback` long, calling back after
      each. The callback lets the consumer take `drains(i)` elements, or as many as there
      are, at its i-th call; every consumer operation takes some number of the oldest.
     */
    method WriteBuffWithCallback(buff: seq<T>, countToCallback: nat, drains: Option<nat -> nat>)
      returns (written: nat, ghost seen: seq<Visit>)
      requires Valid()
      modifies this`head, this`tail, this`published, this`popped, slots
      ensures Valid()
      ensures written <= |buff| && published == old(published) + buff[..written]
      ensures (written, popped - old(popped))
           == WritePieces(geometry.size, |buff|, drains, |old(Contents())|, 0, FirstPiece(|buff|, countToCallback), 0)
      ensures written < |buff| ==> |Contents()| == geometry.size
      ensures WriteVisits(seen, geometry.size, |buff|, drains, |old(Contents())|, 0,
                          if 0 < countToCallback < |buff| then countToCallback else |buff|, 0)
      ensures written == DoneAfter(seen, 0) && |Contents()| == LeftAfterWrite(seen, drains, |old(Contents())|, 0)
    {
      var toWrite := |buff|;
      if countToCallback != 0 && countToCallback < |buff| {
        toWrite := countToCallback;
      }
      hide Valid, Contents, WritePieces, WriteOnCourse, WriteVisits, DoneAfter, LeftAfterWrite;
      ContentsLength();
      ghost var length := |Contents()|;
      ghost var whole := WritePieces(geometry.size, |buff|, drains, length, 0, toWrite, 0);
      seen := WriteIsSeen(geometry.size, |buff|, drains, length, 0, toWrite, 0);
      WriteCourseStarts(geometry.size, |buff|, drains, length, toWrite);
      written := WriteLoop(buff, toWrite, drains, whole);
      ContentsLength();
    }

    /** The loop of the write in pieces. */
    method WriteLoop(buff: seq<T>, firstPiece: nat, drains: Option<nat -> nat>, ghost whole: (nat, nat))
      returns (written: nat)
      requires Valid() && WriteOnCourse(whole, geometry.size, |buff|, drains, |published| - popped, 0, firstPiece, 0, 0)
      modifies this`head, this`tail, this`published, this`popped, slots
      ensures Valid()
      ensures written <= |buff| && published == old(published) + buff[..written]
      ensures written == whole.0 && popped - old(popped) == whole.1
      ensures written < |buff| ==> |published| - popped == geometry.size
    {
      hide Valid, Contents, WritePieces, WriteOnCourse, DrainAt, Appended;
      ContentsLength();
      WriteCourseWithin(whole, geometry.size, |buff|, drains, |published| - popped, 0, firstPiece, 0, 0);
      written := 0;
      var calls: nat := 0;
      var toWrite: nat := firstPiece;
      ghost var start, log := popped, published;
      NothingAppended(log, buff);
      while written < |buff|
        invariant Valid() && popped <= |published|
        invariant Appended(published, log, buff, written)
        invariant WriteOnCourse(whole, geometry.size, |buff|, drains, |published| - popped, written, toWrite, calls, popped - start)
        decreases |buff| - written
      {
        ghost var length, dropped, before := |published| - popped, popped - start, published;
        WriteCourseWithin(whole, geometry.size, |buff|, drains, length, written, toWrite, calls, dropped);
        ContentsLength();
        var n := WriteRound(buff, written, toWrite, drains, calls);
        ContentsLength();
        if n == 0 {
          break;
        }
        WriteCourseContinues(whole, geometry.size, |buff|, drains, length, written, toWrite, calls, dropped);
        AppendedMore(before, published, log, buff, written, n);
        written := written + n;
        calls := calls + 1;
        toWrite := |buff| - written;
      }
      AppendedMeans(published, log, buff, written);
      WriteCourseWithin(whole, geometry.size, |buff|, drains, |published| - popped, written, toWrite, calls, popped - start);
      WriteCourseEnds(whole, geometry.size, |buff|, drains, |published| - popped, written, toWrite, calls, popped - start);
    }

    /** One round of reading in pieces: as much as there is of the piece, then the callback,
        if there is one, lets the producer write. An empty buffer ends the read. */
    method ReadRound(buff: array<T>, read: nat, toRead: nat, offers: Option<nat -> seq<T>>, calls: nat) returns (n: nat)
      requires Valid() && buff != slots && 0 < toRead && read + toRead <= buff.Length
      modifies this`head, this`tail, this`published, this`popped, slots, buff
      ensures Valid() && n == Min(toRead, |old(Contents())|)
      ensures popped == old(popped) + n && popped <= |old(published)|
      ensures buff[..] == Splice(old(buff[..]), read, old(published)[old(popped)..popped])
      ensures n == 0 ==> published == old(published) && buff[..] == old(buff[..])
      ensures |old(published)| <= |published| && published[..|old(published)|] == old(published)
      ensures n > 0 ==> var offer := OfferAt(offers, calls);
                        var w := Min(|offer|, geometry.size - (|old(Contents())| - n));
                        published == old(published) + offer[..w] && |Contents()| == |old(Contents())| - n + w
    {
      hide BitAnd, Pow2, Holds, Splice;
      n := toRead;
      var available := CheckData(tail);
      if available == 0 {
        SpliceNothing(buff[..], read);
        assert published[popped..popped] == [];
        return 0;
      }
      if n > available {
        n := available;
      }
      ReadPiece(buff, read, n);
      if offers.Some? {
        var _ := WriteBuff(offers.value(calls));
      }
    }

    /**
      Reads `count` elements in pieces, the first at most `countToCallback` long, calling
      back after each. The callback lets the producer write as much of `offers(i)` as fits
      at its i-th call; every producer operation appends some elements that fit.
     */
    method ReadBuffWithCallback(buff: array<T>, count: nat, countToCallback: nat, offers: Option<nat -> seq<T>>)
      returns (read: nat, ghost seen: seq<Visit>)
      requires Valid()
      requires count <= buff.Length && buff != slots
      modifies this, slots, buff
      ensures Valid()
      ensures read <= count && popped == old(popped) + read
      ensures var r := ReadPieces(geometry.size, count, offers, |old(Contents())|, 0, FirstPiece(count, countToCallback), 0);
              read == r.0 && published == old(published) + r.1
      ensures buff[..] == Splice(old(buff[..]), 0, published[old(popped)..popped])
      ensures read < count ==> Contents() == []
      ensures ReadVisits(seen, geometry.size, count, offers, |old(Contents())|, 0,
                         if 0 < countToCallback < count then countToCallback else count, 0)
      ensures read == DoneAfter(seen, 0)
      ensures |Contents()| == LeftAfterRead(seen, offers, geometry.size, |old(Contents())|, 0)
    {
      var toRead := count;
      if countToCallback != 0 && countToCallback < count {
        toRead := countToCallback;
      }
      hide Valid, Contents, ReadPieces, ReadOnCourse, ReadVisits, DoneAfter, LeftAfterRead, Splice;
      ContentsLength();
      ghost var length := |Contents()|;
      ghost var course := ReadPieces(geometry.size, count, offers, length, 0, toRead, 0);
      seen := ReadIsSeen(geometry.size, count, offers, length, 0, toRead, 0);
      ReadCourseStarts(geometry.size, count, offers, length, toRead, published);
      read := ReadLoop(buff, count, toRead, offers, (course.0, published + course.1));
      ContentsLength();
    }

    /** The loop of the read in pieces. */
    method ReadLoop(buff: array<T>, count: nat, firstPiece: nat, offers: Option<nat -> seq<T>>, ghost whole: (nat, seq<T>))
      returns (read: nat)
      requires Valid() && count <= buff.Length && buff != slots
      requires ReadOnCourse(whole, geometry.size, count, offers, |published| - popped, 0, firstPiece, 0, published)
      modifies this, slots, buff
      ensures Valid()
      ensures read <= count && popped == old(popped) + read
      ensures read == whole.0 && published == whole.1
      ensures buff[..] == Splice(old(buff[..]), 0, published[old(popped)..popped])
      ensures read < count ==> |published| == popped
    {
      hide Valid, Contents, Splice, ReadPieces, ReadOnCourse, OfferAt, CopiedOut;
      ContentsLength();
      ReadCourseWithin(whole, geometry.size, count, offers, |published| - popped, 0, firstPiece, 0, published);
      read := 0;
      var calls: nat := 0;
      var toRead: nat := firstPiece;
      ghost var start, initial := popped, buff[..];
      NothingCopied(initial, published, start);
      while read < count
        invariant Valid() && popped <= |published|
        invariant popped == start + read
        invariant ReadOnCourse(whole, geometry.size, count, offers, |published| - popped, read, toRead, calls, published)
        invariant CopiedOut(buff[..], initial, published, start, popped)
        decreases count - read
      {
        ghost var length, log, got, end := |published| - popped, published, buff[..], popped;
        ReadCourseWithin(whole, geometry.size, count, offers, length, read, toRead, calls, log);
        ContentsLength();
        var n := ReadRound(buff, read, toRead, offers, calls);
        ContentsLength();
        if n == 0 {
          break;
        }
        ReadCourseContinues(whole, geometry.size, count, offers, length, read, toRead, calls, log);
        assert end + n == popped && end - start == read;
        CopiedMore(got, buff[..], initial, log, published, start, end, n);
        read := read + n;
        calls := calls + 1;
        toRead := count - read;
      }
      CopiedMeans(buff[..], initial, published, start, popped);
      ReadCourseWithin(whole, geometry.size, count, offers, |published| - popped, read, toRead, calls, published);
      ReadCourseEnds(whole, geometry.size, count, offers, |published| - popped, read, toRead, calls, published);
    }
  }
}
