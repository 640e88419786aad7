/** The main results about the ring buffer shared by a producer and a consumer thread. */
module SpscTheorems {
  import opened Words
  import opened RingSlots
  import opened Sequences
  import opened SpscProtocol
  import opened SpscSafety

  // ---------------------------------------------------------------- every reachable state

  lemma {:induction false} BeginWriteSafe<T>(s: State<T>, op: WriteOp<T>)
    requires Inv(s) && s.prod.PIdle?
    ensures Inv(s.(prod := PBegin(op)))
  {
    hide Pow2, BitAnd, Geometry.Compiles, MemoryInv, ConsumerInv;
    var s' := s.(prod := PBegin(op));
    assert Pending(s) == Pending(s') == [];
    MemoryUnaffected(s, s');
    ConsumerUnaffected(s, s');
  }

  lemma {:induction false} BeginReadSafe<T>(s: State<T>, op: ReadOp)
    requires Inv(s) && s.cons.CIdle?
    ensures Inv(s.(cons := CBegin(op)))
  {
    hide Pow2, BitAnd, Geometry.Compiles, MemoryInv, ProducerInv;
    var s' := s.(cons := CBegin(op));
    assert Pending(s) == Pending(s');
    MemoryUnaffected(s, s');
    ProducerUnaffected(s, s');
  }

  lemma {:induction false} DoSafe<T>(s: State<T>, step: Step<T>)
    requires Inv(s)
    ensures Inv(Do(s, step))
  {
    hide Pow2, BitAnd, Geometry.Compiles, MemoryInv, ProducerInv, ConsumerInv, ProducerStep, ConsumerStep;
    match step
    case BeginWrite(op) =>
      if s.prod.PIdle? {
        BeginWriteSafe(s, op);
      }
    case BeginRead(op) =>
      if s.cons.CIdle? {
        BeginReadSafe(s, op);
      }
    case ProducerMoves => ProducerStepSafe(s);
    case ConsumerMoves => ConsumerStepSafe(s);
  }

  lemma {:induction false} RunSafe<T>(s: State<T>, schedule: seq<Step<T>>)
    requires Inv(s)
    ensures Inv(Run(s, schedule))
    decreases |schedule|
  {
    hide ProducerInv, ConsumerInv, Holds, Do;
    if schedule != [] {
      DoSafe(s, schedule[0]);
      RunSafe(Do(s, schedule[0]), schedule[1..]);
    }
  }

  lemma {:induction false} Reachable<T>(g: Geometry, slots: seq<T>, schedule: seq<Step<T>>)
    requires g.Compiles() && |slots| == g.size
    ensures Inv(Run(Initial(g, slots), schedule))
  {
    hide Pow2, BitAnd, Geometry.Compiles;
    var s := Initial(g, slots);
    var c, k := SizeDividesModulus(g);
    ModUnique(0, g.Modulus(), 0, 0);
    assert Inv(s);
    RunSafe(s, schedule);
  }

  /** No loss, no duplication, no reordering: in every interleaving, what was published is
      what was taken followed by what the shared indices and slots say is in the buffer. */
  lemma {:induction false} EveryInterleavingIsFifo<T>(g: Geometry, slots: seq<T>, schedule: seq<Step<T>>)
    requires g.Compiles() && |slots| == g.size
    ensures var s := Run(Initial(g, slots), schedule);
            s.published == s.taken + s.Queue() && |s.Queue()| <= g.size
  {
    Reachable(g, slots, schedule);
    QueueIsRest(Run(Initial(g, slots), schedule));
  }

  lemma {:induction false} QueueIsRest<T>(s: State<T>)
    requires Inv(s)
    ensures s.Queue() == s.published[|s.taken|..]
    ensures s.published == s.taken + s.Queue()
  {
    hide Pow2, BitAnd, Buffered, Geometry.Compiles;
    forall i: nat | |s.taken| <= i < |s.published|
      ensures InPlace(s.slots, s.published, i)
    {
      assert InPlace(s.slots, s.published + Pending(s), i);
    }
    BufferedIsLogSuffix(s.g, s.slots, s.published, |s.taken|);
  }

  /** What a finished operation hands back: a write has published exactly a prefix of its
      items, a read has copied exactly what it took, `at` has read the element asked for. */
  lemma {:induction false} ResultsAreExact<T>(g: Geometry, slots: seq<T>, schedule: seq<Step<T>>)
    requires g.Compiles() && |slots| == g.size
    ensures var s := Run(Initial(g, slots), schedule);
            && (s.prod.PReturn? ==>
                  s.prod.written <= |s.prod.op.Items()| && s.prod.start <= |s.published|
                  && s.published[s.prod.start..] == s.prod.op.Items()[..s.prod.written])
            && (s.cons.CReturn? && s.cons.op.Copies() ==>
                  s.cons.start <= |s.taken| && s.cons.got == s.taken[s.cons.start..] && s.cons.n == |s.cons.got|)
            && (s.cons.CReturn? && s.cons.op.At? && s.cons.got != [] ==>
                  s.cons.op.index < |s.Queue()| && s.cons.got == [s.Queue()[s.cons.op.index]])
  {
    Reachable(g, slots, schedule);
    var s := Run(Initial(g, slots), schedule);
    if s.prod.PReturn? {
      WriteResultExact(s);
    }
    if s.cons.CReturn? {
      ReadResultExact(s);
    }
  }

  lemma {:induction false} WriteResultExact<T>(s: State<T>)
    requires Inv(s) && s.prod.PReturn?
    ensures s.prod.written <= |s.prod.op.Items()| && s.prod.start <= |s.published|
    ensures s.published[s.prod.start..] == s.prod.op.Items()[..s.prod.written]
  {
    hide Pow2, BitAnd, Holds, ConsumerInv, Geometry.Compiles;
  }

  lemma {:induction false} ReadResultExact<T>(s: State<T>)
    requires Inv(s) && s.cons.CReturn?
    ensures s.cons.op.Copies() ==>
              s.cons.start <= |s.taken| && s.cons.got == s.taken[s.cons.start..] && s.cons.n == |s.cons.got|
    ensures s.cons.op.At? && s.cons.got != [] ==>
              s.cons.op.index < |s.Queue()| && s.cons.got == [s.Queue()[s.cons.op.index]]
  {
    hide Pow2, BitAnd, Buffered, Holds, ProducerInv, Geometry.Compiles;
    QueueIsRest(s);
    var start := s.cons.start;
    assert s.taken[start..] == s.published[start..|s.taken|];
    if s.cons.op.At? && s.cons.got != [] {
      assert s.Queue()[s.cons.op.index] == s.published[start + s.cons.op.index];
    }
  }

  // ---------------------------------------------------------------- the threads stay apart

  /** `span` slots from an index on. */
  function SlotsFrom<T>(s: State<T>, index: nat, span: nat): set<nat>
    requires s.g.size > 0 && s.Modulus() > 0
  {
    set i | 0 <= i < span :: s.g.Slot(WrapAdd(index, i, s.Modulus()))
  }

  /** The slots the producer has filled or will fill before it publishes again. */
  function ProducerSlots<T>(s: State<T>): set<nat>
    requires s.g.size > 0
  {
    match s.prod
    case PFill(_, tmpHead, _, toWrite, _) => SlotsFrom(s, s.head, WrapSub(tmpHead, s.head, s.Modulus()) + toWrite)
    case PPublish(_, tmpHead, _, _) => SlotsFrom(s, s.head, WrapSub(tmpHead, s.head, s.Modulus()))
    case _ => {}
  }

  /** The slots the consumer has read or will read before it releases them. */
  function ConsumerSlots<T>(s: State<T>): set<nat>
    requires s.g.size > 0
  {
    match s.cons
    case CFetch(_, tmpTail, _, toRead, _) => SlotsFrom(s, s.tail, WrapSub(tmpTail, s.tail, s.Modulus()) + toRead)
    case CRelease(_, newTail, _, _, _) => SlotsFrom(s, s.tail, WrapSub(newTail, s.tail, s.Modulus()))
    case CHold(_, slot, _) => {slot}
    case _ => {}
  }

  /** Although each side acts on an old copy of the other's index, the slots of the two
      are disjoint in every reachable state. */
  lemma {:induction false} ThreadsNeverShareSlots<T>(g: Geometry, slots: seq<T>, schedule: seq<Step<T>>)
    requires g.Compiles() && |slots| == g.size
    ensures var s := Run(Initial(g, slots), schedule);
            ProducerSlots(s) !! ConsumerSlots(s)
  {
    Reachable(g, slots, schedule);
    SlotsApart(Run(Initial(g, slots), schedule));
  }

  /** A stretch of slots found through wrapped indices is a stretch of log positions. */
  lemma {:induction false} SlotsFromCounter<T>(s: State<T>, counter: nat, span: nat, slot: nat) returns (i: nat)
    requires s.g.Compiles() && slot in SlotsFrom(s, counter % s.Modulus(), span)
    ensures counter <= i < counter + span && slot == i % s.g.size
  {
    hide Pow2, BitAnd;
    var k: nat :| k < span && slot == s.g.Slot(WrapAdd(counter % s.Modulus(), k, s.Modulus()));
    ModAdd(counter, k, s.Modulus());
    SlotOfCounter(s.g, counter + k);
    i := counter + k;
  }

  /** The producer's slots lie in a stretch from `head` on that fits the free part. */
  lemma {:induction false} ProducerSpan<T>(s: State<T>) returns (n: nat)
    requires Inv(s) && ProducerSlots(s) != {}
    ensures |s.published| + n <= |s.taken| + s.g.size
    ensures ProducerSlots(s) == SlotsFrom(s, |s.published| % s.Modulus(), n)
  {
    hide Pow2, BitAnd, MemoryInv, WrapSub, SlotsFrom, ConsumerInv, Delivered, Geometry.Compiles;
    var end := s.prod.start + s.prod.written;
    DistanceExact(s.g, end, |s.published|);
    n := end - |s.published| + if s.prod.PFill? then s.prod.toWrite else 0;
  }

  /** How far the consumer has read, and how far it will release, behind `tail`. */
  lemma {:induction false} ConsumerDistance<T>(s: State<T>)
    requires Inv(s) && (s.cons.CFetch? || s.cons.CRelease?)
    ensures var end := s.cons.start + if s.cons.CFetch? then |s.cons.got| else s.cons.n;
            && |s.taken| <= end <= |s.published|
            && WrapSub(if s.cons.CFetch? then s.cons.tmpTail else s.cons.newTail, s.tail, s.Modulus()) == end - |s.taken|
  {
    hide Pow2, BitAnd, MemoryInv, WrapSub, ProducerInv, CopyOf, Geometry.Compiles;
    if s.cons.CFetch? {
      DistanceExact(s.g, s.cons.start + |s.cons.got|, |s.taken|);
    } else {
      DistanceExact(s.g, s.cons.start + s.cons.n, |s.taken|);
    }
  }

  /** The consumer's slots lie in a stretch from `tail` on that is published, or it holds
      one slot of that stretch. */
  lemma {:induction false} ConsumerSpan<T>(s: State<T>) returns (n: nat)
    requires Inv(s) && ConsumerSlots(s) != {} && !s.cons.CHold?
    ensures |s.taken| + n <= |s.published|
    ensures ConsumerSlots(s) == SlotsFrom(s, |s.taken| % s.Modulus(), n)
  {
    hide Pow2, BitAnd, MemoryInv, WrapSub, SlotsFrom, ProducerInv, CopyOf, Geometry.Compiles;
    ConsumerDistance(s);
    n := if s.cons.CFetch? then s.cons.start + |s.cons.got| - |s.taken| + s.cons.toRead
         else s.cons.start + s.cons.n - |s.taken|;
  }

  /** The producer's slots are those of log positions in the free part of the buffer. */
  lemma {:induction false} ProducerSlotsAreFree<T>(s: State<T>, slot: nat) returns (i: nat)
    requires Inv(s) && slot in ProducerSlots(s)
    ensures |s.published| <= i < |s.taken| + s.g.size && slot == i % s.g.size
  {
    hide Pow2, BitAnd, MemoryInv, SlotsFrom, ProducerInv, ConsumerInv, ProducerSlots, Geometry.Compiles;
    var n := ProducerSpan(s);
    i := SlotsFromCounter(s, |s.published|, n, slot);
  }

  /** The consumer's slots are those of log positions published and not yet taken. */
  lemma {:induction false} ConsumerSlotsAreFull<T>(s: State<T>, slot: nat) returns (i: nat)
    requires Inv(s) && slot in ConsumerSlots(s)
    ensures |s.taken| <= i < |s.published| && slot == i % s.g.size
  {
    hide Pow2, BitAnd, MemoryInv, SlotsFrom, ProducerInv, CopyOf, Geometry.Compiles;
    if s.cons.CHold? {
      i := |s.taken| + s.cons.op.index;
    } else {
      var n := ConsumerSpan(s);
      i := SlotsFromCounter(s, |s.taken|, n, slot);
    }
  }

  lemma {:induction false} SlotsApart<T>(s: State<T>)
    requires Inv(s)
    ensures ProducerSlots(s) !! ConsumerSlots(s)
  {
    hide Pow2, BitAnd, Holds, ProducerSlots, ConsumerSlots;
    forall slot | slot in ProducerSlots(s) && slot in ConsumerSlots(s)
      ensures false
    {
      var i := ProducerSlotsAreFree(s, slot);
      var j := ConsumerSlotsAreFull(s, slot);
      ModDistinct(j, i, s.g.size);
    }
  }

  /** A slot found at a wrapped index is one of the stretch that reaches beyond it. */
  lemma {:induction false} SlotInStretch<T>(s: State<T>, counter: nat, k: nat, span: nat)
    requires s.g.Compiles() && k < span
    ensures s.g.Slot((counter + k) % s.Modulus()) in SlotsFrom(s, counter % s.Modulus(), span)
  {
    hide Pow2, BitAnd, Geometry.Compiles;
    WrapAddExact(counter, k, s.Modulus());
  }

  /** How far the producer has filled slots behind `head`. */
  lemma {:induction false} ProducerDistance<T>(s: State<T>)
    requires Inv(s) && s.prod.PFill?
    ensures var end := s.prod.start + s.prod.written;
            && |s.published| <= end && s.head == |s.published| % s.Modulus() && s.prod.tmpHead == end % s.Modulus()
            && WrapSub(s.prod.tmpHead, s.head, s.Modulus()) == end - |s.published|
  {
    hide Pow2, BitAnd, MemoryInv, WrapSub, ConsumerInv, Delivered, Geometry.Compiles;
    DistanceExact(s.g, s.prod.start + s.prod.written, |s.published|);
  }

  /** The sets are what they are meant to be: a step of the producer changes no slot outside
      its own, and a step of the consumer changes none at all. */
  lemma {:induction false} WritesOwnSlots<T>(s: State<T>, k: nat)
    requires Inv(s) && k < |s.slots| && k !in ProducerSlots(s)
    ensures ProducerStep(s).slots[k] == s.slots[k] && ConsumerStep(s).slots == s.slots
  {
    hide Pow2, BitAnd, MemoryInv, WrapSub, WrapAdd, SlotsFrom, ProducerInv, ConsumerInv, Geometry.Compiles, Buffered,
      AfterHeadCheck, AfterTailLoad, AfterHeadLoad, AfterOwnTailLoad, Pending;
    if s.prod.PFill? && s.prod.toWrite > 0 {
      ProducerDistance(s);
      var d := s.prod.start + s.prod.written - |s.published|;
      SlotInStretch(s, |s.published|, d, d + s.prod.toWrite);
    }
  }

  /** ... and what the consumer does depends on no slot outside its own. */
  lemma {:induction false} ReadsOwnSlots<T>(s: State<T>, slots: seq<T>)
    requires Inv(s) && |slots| == |s.slots|
    requires forall k | 0 <= k < |slots| && k in ConsumerSlots(s) :: slots[k] == s.slots[k]
    ensures var r, r' := ConsumerStep(s), ConsumerStep(s.(slots := slots));
            r'.cons == r.cons && r'.head == r.head && r'.tail == r.tail
  {
    hide Pow2, BitAnd, MemoryInv, WrapSub, WrapAdd, SlotsFrom, ProducerInv, CopyOf, Geometry.Compiles, ConsumerStep;
    if s.cons.CFetch? && s.cons.toRead > 0 {
      ConsumerDistance(s);
      var d := s.cons.start + |s.cons.got| - |s.taken|;
      SlotInStretch(s, |s.taken|, d, d + s.cons.toRead);
      FetchReadsOne(s, slots);
    } else if s.cons.CHold? {
      HoldReadsOne(s, slots);
    } else {
      hide ConsumerInv;
      OtherStepsReadNone(s, slots);
    }
  }

  lemma {:induction false} FetchReadsOne<T>(s: State<T>, slots: seq<T>)
    requires s.Shaped() && s.cons.CFetch? && s.cons.toRead > 0 && |slots| == |s.slots|
    requires s.g.Slot(s.cons.tmpTail) < |slots| ==> slots[s.g.Slot(s.cons.tmpTail)] == s.slots[s.g.Slot(s.cons.tmpTail)]
    ensures var r, r' := ConsumerStep(s), ConsumerStep(s.(slots := slots));
            r'.cons == r.cons && r'.head == r.head && r'.tail == r.tail
  {
    SlotInRange(s.g, s.cons.tmpTail);
    hide Pow2, BitAnd, WrapAdd, Geometry.Compiles;
  }

  lemma {:induction false} HoldReadsOne<T>(s: State<T>, slots: seq<T>)
    requires s.Shaped() && s.cons.CHold? && |slots| == |s.slots|
    requires s.cons.slot < |slots| ==> slots[s.cons.slot] == s.slots[s.cons.slot]
    ensures var r, r' := ConsumerStep(s), ConsumerStep(s.(slots := slots));
            r'.cons == r.cons && r'.head == r.head && r'.tail == r.tail
  {
    hide Pow2, BitAnd, Geometry.Compiles;
  }

  lemma {:induction false} OtherStepsReadNone<T>(s: State<T>, slots: seq<T>)
    requires s.Shaped() && |slots| == |s.slots| && !s.cons.CHold? && !(s.cons.CFetch? && s.cons.toRead > 0)
    ensures var r, r' := ConsumerStep(s), ConsumerStep(s.(slots := slots));
            r'.cons == r.cons && r'.head == r.head && r'.tail == r.tail
  {
    hide Pow2, BitAnd, WrapSub, WrapAdd, Geometry.Compiles, Buffered;
  }

  // ---------------------------------------------------------------- decisions are exact

  /** At the instant the producer loads `tail`, its arithmetic on wrapped indices yields the
      true room: it goes on with as much as fits, and gives up only on a full buffer. */
  lemma {:induction false} ProducerDecidesExactly<T>(s: State<T>)
    requires Inv(s) && s.prod.PCheck?
    ensures |s.Queue()| <= s.g.size
    ensures var room := s.g.size - |s.Queue()|;
            var PCheck(op, tmpHead, written, toWrite, start) := s.prod;
            ProducerStep(s).prod == if room == 0 && !op.WriteBuff? then PReturn(op, written, start)
                                    else PFill(op, tmpHead, written, Min(toWrite, room), start)
  {
    hide Pow2, BitAnd, Holds, Buffered, WrapSub, ConsumerInv, Geometry.Compiles;
    QueueIsRest(s);
    DistanceExact(s.g, |s.published|, |s.taken|);
  }

  /** Likewise the consumer when it loads `head`: it finds out exactly how much there is. */
  lemma {:induction false} ConsumerDecidesExactly<T>(s: State<T>)
    requires Inv(s) && s.cons.CCheck? && !s.cons.op.At?
    ensures var there := |s.Queue()|;
            var CCheck(op, tmpTail, got, toRead, start) := s.cons;
            var c := ConsumerStep(s).cons;
            match op
            case RemoveMany(cnt) => c.CRelease? && c.n == Min(cnt, there)
            case ConsumerClear => c.CRelease? && c.n == there
            case RemoveOne => if there == 0 then c == CReturn(op, 0, got, start) else c.CRelease? && c.n == 1
            case _ => if there == 0 && !op.ReadBuff? then c == CReturn(op, |got|, got, start)
                      else c == CFetch(op, tmpTail, got, Min(toRead, there), start)
  {
    hide Pow2, BitAnd, Buffered, WrapSub, WrapAdd, Holds, ProducerInv, CopyOf, Geometry.Compiles;
    QueueIsRest(s);
    DistanceExact(s.g, |s.published|, |s.taken|);
  }

  /** `at` yields null exactly when the index is out of range, else the right slot. */
  lemma {:induction false} AtDecidesExactly<T>(s: State<T>)
    requires Inv(s) && s.cons.CCheck? && s.cons.op.At?
    ensures var index := s.cons.op.index;
            var c := ConsumerStep(s).cons;
            if index < |s.Queue()| then c.CHold? && c.slot < |s.slots| && s.slots[c.slot] == s.Queue()[index]
            else c.CReturn? && c.got == []
  {
    hide Pow2, BitAnd, Buffered, WrapSub, WrapAdd, Holds, ProducerInv, CopyOf, Geometry.Compiles;
    QueueIsRest(s);
    var gone, i := |s.taken|, s.cons.op.index;
    DistanceExact(s.g, |s.published|, gone);
    if i < |s.Queue()| {
      WrapAddExact(gone, i, s.Modulus());
      SlotOfCounter(s.g, gone + i);
      HeldAt(s.slots, s.published + Pending(s), gone, gone + i);
    }
  }

  /** ... and hands it over: when `at` has found its element, its next step returns exactly that
      element, whatever the producer does in between. */
  lemma {:induction false} AtReturnsElement<T>(s: State<T>, schedule: seq<Step<T>>, element: T)
    requires Inv(s) && s.cons.CHold? && s.cons.op.index < |s.Queue()| && s.Queue()[s.cons.op.index] == element
    requires forall i | 0 <= i < |schedule| :: !schedule[i].ConsumerMoves?
    ensures var r := Run(s, schedule);
            ConsumerStep(r).cons == CReturn(s.cons.op, 0, [element], s.cons.start) && ConsumerStep(r).Queue() == r.Queue()
    decreases |schedule|
  {
    hide Pow2, BitAnd, Buffered, Holds, ProducerInv, MemoryInv, ProducerStep, Geometry.Compiles;
    QueueIsRest(s);
    if schedule == [] {
      HoldReturns(s);
    } else {
      DoSafe(s, schedule[0]);
      ReaderWaits(s, schedule[0]);
      var s' := Do(s, schedule[0]);
      QueueIsRest(s');
      assert s'.Queue()[s.cons.op.index] == s'.published[|s.taken| + s.cons.op.index];
      AtReturnsElement(s', schedule[1..], element);
    }
  }

  lemma {:induction false} HoldReturns<T>(s: State<T>)
    requires Inv(s) && s.cons.CHold? && s.cons.op.index < |s.Queue()|
    ensures ConsumerStep(s).cons == CReturn(s.cons.op, 0, [s.Queue()[s.cons.op.index]], s.cons.start)
            && ConsumerStep(s).Queue() == s.Queue()
  {
    hide Pow2, BitAnd, Buffered, Holds, ProducerInv, Geometry.Compiles;
    QueueIsRest(s);
    HoldSafe(s);
    QueueIsRest(ConsumerStep(s));
    HeldAt(s.slots, s.published + Pending(s), |s.taken|, |s.taken| + s.cons.op.index);
  }

  /** While the consumer is in an operation and does not move, the queue only grows. */
  lemma {:induction false} ReaderWaits<T>(s: State<T>, step: Step<T>)
    requires Inv(s) && !s.cons.CIdle? && !step.ConsumerMoves?
    ensures var s' := Do(s, step);
            s'.cons == s.cons && s'.taken == s.taken && |s.published| <= |s'.published| && s'.published[..|s.published|] == s.published
  {
    hide Pow2, BitAnd, Holds, ProducerInv, ConsumerInv, MemoryInv, WrapSub, WrapAdd, AfterHeadLoad, AfterTailLoad, Pending,
      Geometry.Compiles;
  }

  lemma {:induction false} ReaderWaitsOn<T>(s: State<T>, schedule: seq<Step<T>>)
    requires Inv(s) && !s.cons.CIdle? && forall i | 0 <= i < |schedule| :: !schedule[i].ConsumerMoves?
    ensures var r := Run(s, schedule);
            && Inv(r) && r.cons == s.cons && r.taken == s.taken
            && |s.Queue()| <= |r.Queue()| && r.Queue()[..|s.Queue()|] == s.Queue()
    decreases |schedule|
  {
    hide MemoryInv, ProducerInv, ConsumerInv, Buffered, ProducerStep, ConsumerStep, Geometry.Compiles;
    if schedule != [] {
      var s' := Do(s, schedule[0]);
      DoSafe(s, schedule[0]);
      ReaderWaits(s, schedule[0]);
      QueueIsRest(s);
      QueueIsRest(s');
      PrefixRest(s.published, s'.published, |s.taken|);
      ReaderWaitsOn(s', schedule[1..]);
    }
  }

  lemma {:induction false} PrefixRest<T>(log: seq<T>, log': seq<T>, from: nat)
    requires from <= |log| <= |log'| && log'[..|log|] == log
    ensures log'[from..][..|log| - from] == log[from..]
  {
  }

  /** From call to return, with whatever the producer does between its three steps: `at`
      returns the element of the queue it was asked for, and null only if the queue was too
      short when it looked; an element there when it was called it always finds. */
  lemma {:induction false} AtFindsElement<T>(s: State<T>, index: nat, p: seq<Step<T>>, q: seq<Step<T>>, u: seq<Step<T>>)
    requires Inv(s) && s.cons.CIdle?
    requires forall i | 0 <= i < |p| :: !p[i].ConsumerMoves?
    requires forall i | 0 <= i < |q| :: !q[i].ConsumerMoves?
    requires forall i | 0 <= i < |u| :: !u[i].ConsumerMoves?
    ensures var looks := Run(ConsumerStep(Run(Do(s, BeginRead(At(index))), p)), q);
            var looked := ConsumerStep(looks);
            && |s.Queue()| <= |looks.Queue()| && looks.Queue()[..|s.Queue()|] == s.Queue()
            && if index < |looks.Queue()|
               then ConsumerStep(Run(looked, u)).cons == CReturn(At(index), 0, [looks.Queue()[index]], |s.taken|)
               else looked.cons == CReturn(At(index), 0, [], |s.taken|)
  {
    var begun := Do(s, BeginRead(At(index)));
    DoSafe(s, BeginRead(At(index)));
    assert begun.Queue() == s.Queue() && begun.taken == s.taken;
    hide MemoryInv, ProducerInv, ConsumerInv, Buffered, ProducerStep, ConsumerStep, Run, Geometry.Compiles;
    ReaderWaitsOn(begun, p);
    var before := Run(begun, p);
    AtBegins(before);
    var began := ConsumerStep(before);
    ReaderWaitsOn(began, q);
    var looks := Run(began, q);
    AtLooks(looks);
    var looked := ConsumerStep(looks);
    if index < |looks.Queue()| {
      AtReturnsElement(looked, u, looks.Queue()[index]);
    }
  }

  lemma {:induction false} AtBegins<T>(s: State<T>)
    requires Inv(s) && s.cons.CBegin? && s.cons.op.At?
    ensures var r := ConsumerStep(s);
            Inv(r) && r.cons == CCheck(s.cons.op, s.tail, [], 1, |s.taken|) && r.taken == s.taken && r.Queue() == s.Queue()
  {
    ConsumerStepSafe(s);
    hide Inv, Buffered, Geometry.Compiles;
  }

  lemma {:induction false} AtLooks<T>(s: State<T>)
    requires Inv(s) && s.cons.CCheck? && s.cons.op.At?
    ensures var r := ConsumerStep(s);
            && Inv(r) && r.Queue() == s.Queue()
            && if s.cons.op.index < |s.Queue()| then r.cons.CHold? && r.cons.op == s.cons.op && r.cons.start == s.cons.start
               else r.cons == CReturn(s.cons.op, 0, s.cons.got, s.cons.start) && s.cons.got == []
  {
    ConsumerStepSafe(s);
    AtDecidesExactly(s);
    hide MemoryInv, ProducerInv, Buffered, WrapSub, WrapAdd, Pow2, BitAnd, CopyOf, Geometry.Compiles;
  }
}
