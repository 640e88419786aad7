/**
  What holds in every state of every interleaving of SpscProtocol: nothing is lost,
  duplicated or reordered, the two threads never touch the same slot, and what an
  operation hands back is what it should be.
 */
module SpscSafety {
  import opened Words
  import opened RingSlots
  import opened Sequences
  import opened SpscProtocol

  // ---------------------------------------------------------------- the invariant

  /** The wrapped indices are the lengths of the logs, which are at most a buffer apart. */
  ghost predicate CountersInv<T>(s: State<T>) {
    && s.Shaped()
    && |s.taken| <= |s.published| <= |s.taken| + s.g.size
    && s.head == |s.published| % s.Modulus()
    && s.tail == |s.taken| % s.Modulus()
  }

  /** What was taken is what was published first, and the slots hold the rest of it
      followed by what the producer has put but not published. */
  ghost predicate MemoryInv<T>(s: State<T>) {
    && |s.taken| <= |s.published|
    && s.taken == s.published[..|s.taken|]
    && Holds(s.slots, s.published + Pending(s), |s.taken|)
  }

  /** Position `start + written` of the log is the producer's, and fits the buffer. */
  ghost predicate ProducerInv<T>(s: State<T>)
    requires s.g.Compiles()
  {
    var pub, m := |s.published|, s.Modulus();
    match s.prod
    case PIdle => true
    case PBegin(_) => true
    case PCheck(op, tmpHead, written, toWrite, start) =>
      && Delivered(s.published, start, op.Items(), written) && pub == start + written
      && tmpHead == pub % m
      && written + toWrite <= |op.Items()|
      && (op.WriteBuffWithCallback? ==> toWrite > 0)
      && (!op.WriteBuffWithCallback? ==> written == 0 && toWrite == |op.Items()|)
    case PFill(op, tmpHead, written, toWrite, start) =>
      && start <= pub <= start + written && Delivered(s.published, start, op.Items(), pub - start)
      && tmpHead == (start + written) % m
      && written + toWrite <= |op.Items()|
      && start + written + toWrite <= |s.taken| + s.g.size
      && (op.WriteBuffWithCallback? ==> pub < start + written + toWrite)
    case PPublish(op, tmpHead, written, start) =>
      && start <= pub <= start + written && Delivered(s.published, start, op.Items(), pub - start)
      && tmpHead == (start + written) % m
      && written <= |op.Items()|
      && start + written <= |s.taken| + s.g.size
      && (op.WriteBuffWithCallback? ==> pub < start + written)
    case PCallback(op, tmpHead, written, start) =>
      && Delivered(s.published, start, op.Items(), written) && pub == start + written
      && tmpHead == pub % m && op.WriteBuffWithCallback?
    case PReturn(op, written, start) =>
      && Delivered(s.published, start, op.Items(), written) && pub == start + written
  }

  /** From `start` on, the log continues with the first `n` of `items`. */
  ghost predicate Delivered<T>(log: seq<T>, start: nat, items: seq<T>, n: nat) {
    n <= |items| && start + n <= |log| && log[start..start + n] == items[..n]
  }

  /** `got` is what the log holds from `start` on. */
  ghost predicate CopyOf<T>(got: seq<T>, log: seq<T>, start: nat) {
    start + |got| <= |log| && got == log[start..start + |got|]
  }

  /** What the consumer copied is the log's, and what it is yet to read is published. */
  ghost predicate ConsumerInv<T>(s: State<T>)
    requires s.g.Compiles()
  {
    var pub, gone, m := |s.published|, |s.taken|, s.Modulus();
    match s.cons
    case CIdle => true
    case CBegin(_) => true
    case CCheck(op, tmpTail, got, toRead, start) =>
      && gone == start + |got| && CopyOf(got, s.published, start)
      && (!op.ConsumerClear? ==> tmpTail == gone % m)
      && (op.Copies() ==> |got| + toRead <= op.Limit())
      && (op.ReadBuffWithCallback? ==> toRead > 0)
      && (!op.ReadBuffWithCallback? ==> got == [])
      && (op.ReadBuff? ==> toRead == op.count)
      && (op.RemoveTo? ==> toRead == 1)
    case CFetch(op, tmpTail, got, toRead, start) =>
      && op.Copies()
      && start <= gone <= start + |got| && CopyOf(got, s.published, start)
      && tmpTail == (start + |got|) % m
      && start + |got| + toRead <= pub && |got| + toRead <= op.Limit()
      && (op.ReadBuffWithCallback? ==> gone < start + |got| + toRead)
    case CHold(op, slot, start) =>
      op.At? && start == gone && gone + op.index < pub && slot == (gone + op.index) % s.g.size
    case CRelease(op, newTail, n, got, start) =>
      && !op.At?
      && start <= gone <= start + n <= pub
      && newTail == (start + n) % m
      && (op.Copies() ==> n == |got| <= op.Limit() && CopyOf(got, s.published, start))
      && (op.ReadBuffWithCallback? ==> gone < start + n)
    case CCallback(op, tmpTail, got, start) =>
      && op.ReadBuffWithCallback? && |got| <= op.count
      && gone == start + |got| && CopyOf(got, s.published, start)
      && tmpTail == gone % m
    case CReturn(op, n, got, start) =>
      && gone == start + n && (op.At? ==> n == 0)
      && (op.Copies() ==> n == |got| <= op.Limit() && CopyOf(got, s.published, start))
      && (op.At? && got != [] ==> start + op.index < pub && got == [s.published[start + op.index]])
  }

  ghost predicate Inv<T>(s: State<T>) {
    CountersInv(s) && MemoryInv(s) && ProducerInv(s) && ConsumerInv(s)
  }

  // ---------------------------------------------------------------- what a step of one keeps of the other

  /** Publishing more does not affect the consumer. */
  lemma {:induction false} ConsumerUnaffected<T>(s: State<T>, s': State<T>)
    requires s.g.Compiles() && s'.g == s.g && ConsumerInv(s)
    requires s'.cons == s.cons && s'.taken == s.taken && s.published <= s'.published
    ensures ConsumerInv(s')
  {
    hide Pow2, BitAnd, Geometry.Compiles;
  }

  /** Releasing slots does not affect the producer. */
  lemma {:induction false} ProducerUnaffected<T>(s: State<T>, s': State<T>)
    requires s.g.Compiles() && s'.g == s.g && ProducerInv(s)
    requires s'.prod == s.prod && s'.published == s.published && |s.taken| <= |s'.taken|
    ensures ProducerInv(s')
  {
    hide Pow2, BitAnd, Delivered, Geometry.Compiles;
  }

  lemma {:induction false} NothingDelivered<T>(log: seq<T>, items: seq<T>)
    ensures Delivered(log, |log|, items, 0)
  {
  }

  /** A step on locals alone leaves the slots as they are. */
  lemma {:induction false} MemoryUnaffected<T>(s: State<T>, s': State<T>)
    requires MemoryInv(s) && Pending(s') == Pending(s)
    requires s'.slots == s.slots && s'.published == s.published && s'.taken == s.taken
    ensures MemoryInv(s')
  {
    hide Holds;
  }

  // ---------------------------------------------------------------- producer steps

  lemma {:induction false} HeadLoadSafe<T>(s: State<T>)
    requires Inv(s) && s.prod.PBegin?
    ensures Inv(ProducerStep(s))
  {
    hide Pow2, BitAnd, WrapSub, MemoryInv, ConsumerInv, Delivered, Geometry.Compiles;
    var s' := ProducerStep(s);
    assert Pending(s) == Pending(s') == [];
    NothingDelivered(s.published, s.prod.op.Items());
    MemoryUnaffected(s, s');
    ConsumerUnaffected(s, s');
  }

  /** Deciding on the strength of an old `tail` is safe: the room can only have grown. */
  lemma {:induction false} TailLoadKeepsRoom<T>(s: State<T>)
    requires CountersInv(s) && ProducerInv(s) && s.prod.PCheck?
    ensures ProducerInv(s.(prod := AfterTailLoad(s)))
    ensures Pending(s.(prod := AfterTailLoad(s))) == []
  {
    hide Pow2, BitAnd, WrapSub, Delivered, Geometry.Compiles;
    DistanceExact(s.g, |s.published|, |s.taken|);
  }

  lemma {:induction false} TailLoadSafe<T>(s: State<T>)
    requires Inv(s) && s.prod.PCheck?
    ensures Inv(ProducerStep(s))
  {
    hide Pow2, BitAnd, WrapSub, MemoryInv, ConsumerInv, ProducerInv, AfterTailLoad, Geometry.Compiles;
    var s' := ProducerStep(s);
    TailLoadKeepsRoom(s);
    assert Pending(s) == Pending(s') == [];
    MemoryUnaffected(s, s');
    ConsumerUnaffected(s, s');
  }

  /** Filling a slot moves the producer on within what it found room for. */
  lemma {:induction false} FillKeepsRoom<T>(s: State<T>)
    requires CountersInv(s) && ProducerInv(s) && s.prod.PFill?
    ensures ProducerInv(ProducerStep(s)) && CountersInv(ProducerStep(s))
  {
    hide Pow2, BitAnd, Delivered, Pending, Geometry.Compiles;
    ModAdd(s.prod.start + s.prod.written, 1, s.Modulus());
  }

  /** ... and adds its item to what is put but not published, in the slot that is next. */
  lemma {:induction false} FillGrowsPending<T>(s: State<T>)
    requires CountersInv(s) && ProducerInv(s) && s.prod.PFill? && s.prod.toWrite > 0
    ensures s.prod.written < |s.prod.op.Items()|
    ensures Pending(ProducerStep(s)) == Pending(s) + [s.prod.op.Items()[s.prod.written]]
    ensures |s.published| + |Pending(s)| == s.prod.start + s.prod.written
  {
    hide Pow2, BitAnd, Delivered, WrapAdd, Geometry.Compiles;
    var items, done, n := s.prod.op.Items(), |s.published| - s.prod.start, s.prod.written;
    assert items[done..n + 1] == items[done..n] + [items[n]];
  }

  /** The slot filled is that of the next log position. */
  lemma {:induction false} FillWritesNext<T>(s: State<T>, next: nat)
    requires CountersInv(s) && ProducerInv(s) && s.prod.PFill? && s.prod.toWrite > 0
    requires next == s.prod.start + s.prod.written && s.prod.written < |s.prod.op.Items()|
    ensures ProducerStep(s).slots == s.slots[next % |s.slots| := s.prod.op.Items()[s.prod.written]]
    ensures next < |s.taken| + |s.slots|
  {
    hide Pow2, BitAnd, Delivered, WrapAdd, Geometry.Compiles;
    SlotOfCounter(s.g, next);
  }

  lemma {:induction false} FillKeepsMemory<T>(s: State<T>)
    requires CountersInv(s) && MemoryInv(s) && ProducerInv(s) && s.prod.PFill? && s.prod.toWrite > 0
    ensures MemoryInv(ProducerStep(s))
  {
    FillGrowsPending(s);
    var log, x := s.published + Pending(s), s.prod.op.Items()[s.prod.written];
    FillWritesNext(s, |log|);
    hide Pow2, BitAnd, Holds, ProducerInv, Pending, Geometry.Compiles;
    HoldsWrite(s.slots, log, |s.taken|, x);
    assert s.published + (Pending(s) + [x]) == log + [x];
  }

  lemma {:induction false} FillSafe<T>(s: State<T>)
    requires Inv(s) && s.prod.PFill?
    ensures Inv(ProducerStep(s))
  {
    hide Pow2, BitAnd, Holds, ConsumerInv, ProducerInv, MemoryInv, Geometry.Compiles;
    FillKeepsRoom(s);
    if s.prod.toWrite == 0 {
      MemoryUnaffected(s, ProducerStep(s));
    } else {
      FillKeepsMemory(s);
    }
    ConsumerUnaffected(s, ProducerStep(s));
  }

  lemma {:induction false} DeliverMore<T>(log: seq<T>, start: nat, items: seq<T>, n: nat)
    requires start <= |log| <= start + n <= start + |items| && Delivered(log, start, items, |log| - start)
    ensures Delivered(log + items[|log| - start..n], start, items, n)
  {
    var done := |log| - start;
    var log' := log + items[done..n];
    assert items[..done] + items[done..n] == items[..n];
    assert log[start..start + done] == log[start..];
    assert |log'| == start + n && log'[start..start + n] == log'[start..];
    assert log'[start..] == log[start..] + items[done..n];
  }

  /** Publishing delivers the items put: the log continues with them. */
  lemma {:induction false} PublishDelivers<T>(s: State<T>)
    requires CountersInv(s) && ProducerInv(s) && s.prod.PPublish?
    ensures Pending(ProducerStep(s)) == []
    ensures Delivered(ProducerStep(s).published, s.prod.start, s.prod.op.Items(), s.prod.written)
    ensures |ProducerStep(s).published| == s.prod.start + s.prod.written
  {
    hide Pow2, BitAnd, Geometry.Compiles, Delivered;
    DeliverMore(s.published, s.prod.start, s.prod.op.Items(), s.prod.written);
  }

  lemma {:induction false} PublishSafe<T>(s: State<T>)
    requires Inv(s) && s.prod.PPublish?
    ensures Inv(ProducerStep(s))
  {
    hide Pow2, BitAnd, Holds, ConsumerInv, Delivered, Geometry.Compiles;
    var s' := ProducerStep(s);
    PublishDelivers(s);
    hide Pending;
    assert s'.published + Pending(s') == s.published + Pending(s);
    ConsumerUnaffected(s, s');
  }

  lemma {:induction false} ProducerReturnSafe<T>(s: State<T>)
    requires Inv(s) && (s.prod.PIdle? || s.prod.PCallback? || s.prod.PReturn?)
    ensures Inv(ProducerStep(s))
  {
    hide Pow2, BitAnd, WrapSub, MemoryInv, ConsumerInv, Delivered, Geometry.Compiles;
    var s' := ProducerStep(s);
    assert Pending(s) == Pending(s') == [];
    MemoryUnaffected(s, s');
    ConsumerUnaffected(s, s');
  }

  lemma {:induction false} ProducerStepSafe<T>(s: State<T>)
    requires Inv(s)
    ensures Inv(ProducerStep(s))
  {
    hide *;
    match s.prod
    case PBegin(_) => HeadLoadSafe(s);
    case PCheck(_, _, _, _, _) => TailLoadSafe(s);
    case PFill(_, _, _, _, _) => FillSafe(s);
    case PPublish(_, _, _, _) => PublishSafe(s);
    case _ => ProducerReturnSafe(s);
  }

  // ---------------------------------------------------------------- consumer steps

  lemma {:induction false} OwnTailLoadSafe<T>(s: State<T>)
    requires Inv(s) && s.cons.CBegin?
    ensures Inv(ConsumerStep(s))
  {
    hide Pow2, BitAnd, WrapSub, MemoryInv, ProducerInv, Geometry.Compiles;
    MemoryUnaffected(s, ConsumerStep(s));
    ProducerUnaffected(s, ConsumerStep(s));
  }

  /** Deciding on the strength of an old `head` is safe: there can only be more to read. */
  lemma {:induction false} HeadCheckKeepsPublished<T>(s: State<T>)
    requires CountersInv(s) && ConsumerInv(s) && s.cons.CCheck?
    ensures ConsumerInv(s.(cons := AfterHeadCheck(s)))
  {
    hide Pow2, BitAnd, WrapSub, CopyOf, AfterHeadCheck, ConsumerInv, CountersInv, Geometry.Compiles;
    if s.cons.op.At? {
      CheckBeforeHold(s);
    } else if s.cons.op.Copies() {
      CheckBeforeFetch(s);
    } else {
      CheckBeforeRelease(s);
    }
  }

  lemma {:induction false} CheckBeforeHold<T>(s: State<T>)
    requires CountersInv(s) && ConsumerInv(s) && s.cons.CCheck? && s.cons.op.At?
    ensures ConsumerInv(s.(cons := AfterHeadCheck(s)))
  {
    hide Pow2, BitAnd, WrapSub, WrapAdd, CopyOf, Geometry.Compiles;
    var gone, index := |s.taken|, s.cons.op.index;
    DistanceExact(s.g, |s.published|, gone);
    WrapAddExact(gone, index, s.Modulus());
    SlotOfCounter(s.g, gone + index);
  }

  lemma {:induction false} CheckBeforeFetch<T>(s: State<T>)
    requires CountersInv(s) && ConsumerInv(s) && s.cons.CCheck? && s.cons.op.Copies()
    ensures ConsumerInv(s.(cons := AfterHeadCheck(s)))
  {
    hide Pow2, BitAnd, WrapSub, WrapAdd, CopyOf, Geometry.Compiles;
    DistanceExact(s.g, |s.published|, |s.taken|);
  }

  lemma {:induction false} CheckBeforeRelease<T>(s: State<T>)
    requires CountersInv(s) && ConsumerInv(s) && s.cons.CCheck? && !s.cons.op.At? && !s.cons.op.Copies()
    ensures ConsumerInv(s.(cons := AfterHeadCheck(s)))
  {
    hide Pow2, BitAnd, WrapSub, CopyOf, Geometry.Compiles;
    var gone := |s.taken|;
    DistanceExact(s.g, |s.published|, gone);
    match s.cons.op {
      case RemoveOne => ModAdd(gone, 1, s.Modulus());
      case RemoveMany(cnt) => ModAdd(gone, Min(cnt, |s.published| - gone), s.Modulus());
      case _ =>
    }
  }

  lemma {:induction false} HeadCheckSafe<T>(s: State<T>)
    requires Inv(s) && s.cons.CCheck?
    ensures Inv(ConsumerStep(s))
  {
    hide Pow2, BitAnd, WrapSub, MemoryInv, ProducerInv, ConsumerInv, AfterHeadCheck, Geometry.Compiles;
    HeadCheckKeepsPublished(s);
    MemoryUnaffected(s, ConsumerStep(s));
    ProducerUnaffected(s, ConsumerStep(s));
  }

  lemma {:induction false} HeldAt<T>(slots: seq<T>, log: seq<T>, from: nat, i: nat)
    requires Holds(slots, log, from) && from <= i < |log| && |slots| > 0
    ensures slots[i % |slots|] == log[i]
  {
    assert InPlace(slots, log, i);
  }

  /** The slot read holds the next element of the log. */
  lemma {:induction false} FetchReadsNext<T>(s: State<T>)
    requires Inv(s) && s.cons.CFetch? && s.cons.toRead > 0
    ensures var k := s.cons.start + |s.cons.got|;
            k < |s.published| && s.g.Slot(s.cons.tmpTail) < |s.slots|
            && s.slots[s.g.Slot(s.cons.tmpTail)] == s.published[k]
  {
    hide Pow2, BitAnd, Holds, ProducerInv, CopyOf, Pending, Geometry.Compiles;
    var k := s.cons.start + |s.cons.got|;
    SlotOfCounter(s.g, k);
    HeldAt(s.slots, s.published + Pending(s), |s.taken|, k);
  }

  lemma {:induction false} CopyOneMore<T>(got: seq<T>, log: seq<T>, start: nat)
    requires CopyOf(got, log, start) && start + |got| < |log|
    ensures CopyOf(got + [log[start + |got|]], log, start)
  {
    var k := start + |got|;
    assert log[start..k] + [log[k]] == log[start..k + 1];
  }

  lemma {:induction false} FetchSafe<T>(s: State<T>)
    requires Inv(s) && s.cons.CFetch?
    ensures Inv(ConsumerStep(s))
  {
    hide Pow2, BitAnd, Holds, ProducerInv, CopyOf, WrapSub, WrapAdd, Geometry.Compiles;
    if s.cons.toRead != 0 {
      FetchReadsNext(s);
      CopyOneMore(s.cons.got, s.published, s.cons.start);
      WrapAddExact(s.cons.start + |s.cons.got|, 1, s.Modulus());
    }
    hide MemoryInv;
    MemoryUnaffected(s, ConsumerStep(s));
    ProducerUnaffected(s, ConsumerStep(s));
  }

  lemma {:induction false} HoldSafe<T>(s: State<T>)
    requires Inv(s) && s.cons.CHold?
    ensures Inv(ConsumerStep(s))
  {
    hide Pow2, BitAnd, Holds, ProducerInv, Geometry.Compiles;
    HeldAt(s.slots, s.published + Pending(s), |s.taken|, |s.taken| + s.cons.op.index);
    ProducerUnaffected(s, ConsumerStep(s));
  }

  /** The slots released hold the elements of the log that follow those taken before. */
  lemma {:induction false} ReleasedIsNext<T>(s: State<T>)
    requires Inv(s) && s.cons.CRelease?
    ensures ConsumerStep(s).taken == s.published[..s.cons.start + s.cons.n]
  {
    hide Pow2, BitAnd, Geometry.Compiles;
    var gone, upTo := |s.taken|, s.cons.start + s.cons.n;
    var log := s.published[..upTo];
    forall i: nat | gone <= i < |log|
      ensures InPlace(s.slots, log, i)
    {
      assert InPlace(s.slots, s.published + Pending(s), i);
    }
    BufferedIsLogSuffix(s.g, s.slots, log, gone);
    assert s.taken + log[gone..] == log;
  }

  lemma {:induction false} ReleaseSafe<T>(s: State<T>)
    requires Inv(s) && s.cons.CRelease?
    ensures Inv(ConsumerStep(s))
  {
    hide Pow2, BitAnd, Buffered, InPlace, ProducerInv, Geometry.Compiles;
    var s' := ConsumerStep(s);
    ReleasedIsNext(s);
    ProducerUnaffected(s, s');
  }

  lemma {:induction false} ConsumerReturnSafe<T>(s: State<T>)
    requires Inv(s) && (s.cons.CIdle? || s.cons.CCallback? || s.cons.CReturn?)
    ensures Inv(ConsumerStep(s))
  {
    hide Pow2, BitAnd, WrapSub, MemoryInv, ProducerInv, Geometry.Compiles;
    MemoryUnaffected(s, ConsumerStep(s));
    ProducerUnaffected(s, ConsumerStep(s));
  }

  lemma {:induction false} ConsumerStepSafe<T>(s: State<T>)
    requires Inv(s)
    ensures Inv(ConsumerStep(s))
  {
    hide *;
    match s.cons
    case CBegin(_) => OwnTailLoadSafe(s);
    case CCheck(_, _, _, _, _) => HeadCheckSafe(s);
    case CFetch(_, _, _, _, _) => FetchSafe(s);
    case CHold(_, _, _) => HoldSafe(s);
    case CRelease(_, _, _, _, _) => ReleaseSafe(s);
    case _ => ConsumerReturnSafe(s);
  }
}
