/**
  Progress of the shared ring buffer: every operation ends after a number of its own steps
  that the other thread cannot influence, and an operation that runs undisturbed does
  what the methods of RingBuffer.Ringbuffer promise.
 */
module SpscProgress {
  import opened Words
  import opened RingSlots
  import opened Sequences
  import opened SpscProtocol
  import opened SpscSafety
  import opened SpscTheorems

  /** A bound on the steps the producer still takes before it is idle. */
  function ProducerWork<T>(p: Producer<T>): int {
    match p
    case PIdle => 0
    case PReturn(_, _, _) => 1
    case PBegin(op) => 8 * |op.Items()| + 9
    case PCheck(op, _, written, _, _) =>
      8 * (|op.Items()| - written) + if op.WriteBuffWithCallback? then 3 else 7
    case PFill(op, _, written, toWrite, _) => 8 * (|op.Items()| - written - toWrite) + toWrite + 6
    case PPublish(op, _, written, _) => 8 * (|op.Items()| - written) + 5
    case PCallback(op, _, written, _) => 8 * (|op.Items()| - written) + 4
  }

  /** A bound on the steps the consumer still takes before it is idle. */
  function ConsumerWork<T>(c: Consumer<T>): int {
    match c
    case CIdle => 0
    case CReturn(_, _, _, _) => 1
    case CBegin(op) => 8 * Copied(op) + 9
    case CCheck(op, _, got, _, _) => 8 * (Copied(op) - |got|) + if op.ReadBuffWithCallback? then 3 else 7
    case CFetch(op, _, got, toRead, _) => 8 * (Copied(op) - |got| - toRead) + toRead + 6
    case CHold(_, _, _) => 2
    case CRelease(op, _, _, got, _) => 8 * (if op.Copies() then Copied(op) - |got| else 0) + 5
    case CCallback(op, _, got, _) => 8 * (Copied(op) - |got|) + 4
  }

  function Copied(op: ReadOp): nat { if op.Copies() then op.Limit() else 0 }

  /** Every step of the producer brings it nearer its end; no step of the consumer
      changes where it stands. */
  lemma {:induction false} ProducerIsWaitFree<T>(s: State<T>)
    requires Inv(s)
    ensures 0 <= ProducerWork(s.prod) && (s.prod.PIdle? <==> ProducerWork(s.prod) == 0)
    ensures !s.prod.PIdle? ==> ProducerWork(ProducerStep(s).prod) < ProducerWork(s.prod)
    ensures s.prod.PIdle? ==> ProducerStep(s) == s
    ensures ConsumerStep(s).prod == s.prod
  {
    if s.prod.PCallback? {
      WrittenWithin(s);
    }
    hide Pow2, BitAnd, MemoryInv, ConsumerInv, WrapSub, WrapAdd, Delivered, Pending, Geometry.Compiles;
    if s.prod.PCheck? {
      hide ProducerStep;
      CheckIsProgress(s);
    }
    ConsumerLeavesProducer(s);
    hide ConsumerStep;
  }

  lemma {:induction false} WrittenWithin<T>(s: State<T>)
    requires Inv(s) && s.prod.PCallback?
    ensures s.prod.written <= |s.prod.op.Items()|
  {
    hide Pow2, BitAnd, MemoryInv, ConsumerInv, CountersInv, Geometry.Compiles;
  }

  lemma {:induction false} CheckIsProgress<T>(s: State<T>)
    requires Inv(s) && s.prod.PCheck?
    ensures 0 < ProducerWork(s.prod)
    ensures ProducerWork(ProducerStep(s).prod) < ProducerWork(s.prod)
  {
    ProducerDecidesExactly(s);
    hide Pow2, BitAnd, MemoryInv, ConsumerInv, ProducerStep, Delivered, Geometry.Compiles;
  }

  lemma {:induction false} ConsumerLeavesProducer<T>(s: State<T>)
    requires s.Shaped()
    ensures ConsumerStep(s).prod == s.prod
  {
    hide Pow2, BitAnd, WrapSub, WrapAdd, Buffered, Geometry.Compiles, AfterHeadCheck, AfterOwnTailLoad;
  }

  lemma {:induction false} ConsumerIsWaitFree<T>(s: State<T>)
    requires Inv(s)
    ensures 0 <= ConsumerWork(s.cons) && (s.cons.CIdle? <==> ConsumerWork(s.cons) == 0)
    ensures !s.cons.CIdle? ==> ConsumerWork(ConsumerStep(s).cons) < ConsumerWork(s.cons)
    ensures s.cons.CIdle? ==> ConsumerStep(s) == s
    ensures ProducerStep(s).cons == s.cons
  {
    hide Pow2, BitAnd, MemoryInv, ProducerInv, CopyOf, WrapSub, WrapAdd, Buffered, Geometry.Compiles;
    if s.cons.CCheck? {
      hide ConsumerStep;
      HeadCheckIsProgress(s);
    }
    ProducerLeavesConsumer(s);
    hide ProducerStep;
  }

  lemma {:induction false} HeadCheckIsProgress<T>(s: State<T>)
    requires Inv(s) && s.cons.CCheck?
    ensures 0 < ConsumerWork(s.cons)
    ensures ConsumerWork(ConsumerStep(s).cons) < ConsumerWork(s.cons)
  {
    if s.cons.op.At? {
      AtDecidesExactly(s);
    } else {
      ConsumerDecidesExactly(s);
    }
    hide Pow2, BitAnd, MemoryInv, ProducerInv, ConsumerStep, CopyOf, Geometry.Compiles;
  }

  lemma {:induction false} ProducerLeavesConsumer<T>(s: State<T>)
    requires s.Shaped()
    ensures ProducerStep(s).cons == s.cons
  {
    hide Pow2, BitAnd, WrapSub, WrapAdd, Geometry.Compiles, AfterTailLoad, AfterHeadLoad, Pending;
  }

  function ProducerMovesIn<T>(schedule: seq<Step<T>>): nat {
    if schedule == [] then 0
    else (if schedule[0].ProducerMoves? then 1 else 0) + ProducerMovesIn(schedule[1..])
  }

  /** Whatever the consumer does in between, a write is over once the producer has taken
      as many steps as its work was at the start. */
  lemma {:induction false} WriteEnds<T>(s: State<T>, schedule: seq<Step<T>>)
    requires Inv(s)
    requires forall i | 0 <= i < |schedule| :: !schedule[i].BeginWrite?
    requires ProducerMovesIn(schedule) >= ProducerWork(s.prod)
    ensures Run(s, schedule).prod.PIdle?
    decreases |schedule|
  {
    hide MemoryInv, ProducerInv, ConsumerInv, ProducerWork, ProducerStep, ConsumerStep;
    ProducerIsWaitFree(s);
    if schedule != [] {
      DoSafe(s, schedule[0]);
      var s' := Do(s, schedule[0]);
      assert schedule[0].ProducerMoves? && s.prod.PIdle? ==> s' == s;
      WriteEnds(s', schedule[1..]);
    }
  }

  function ConsumerMovesIn<T>(schedule: seq<Step<T>>): nat {
    if schedule == [] then 0
    else (if schedule[0].ConsumerMoves? then 1 else 0) + ConsumerMovesIn(schedule[1..])
  }

  /** Whatever the producer does in between, a read is over once the consumer has taken
      as many steps as its work was at the start. */
  lemma {:induction false} ReadEnds<T>(s: State<T>, schedule: seq<Step<T>>)
    requires Inv(s)
    requires forall i | 0 <= i < |schedule| :: !schedule[i].BeginRead?
    requires ConsumerMovesIn(schedule) >= ConsumerWork(s.cons)
    ensures Run(s, schedule).cons.CIdle?
    decreases |schedule|
  {
    hide MemoryInv, ProducerInv, ConsumerInv, ConsumerWork, ProducerStep, ConsumerStep;
    ConsumerIsWaitFree(s);
    if schedule != [] {
      DoSafe(s, schedule[0]);
      var s' := Do(s, schedule[0]);
      assert schedule[0].ConsumerMoves? && s.cons.CIdle? ==> s' == s;
      ReadEnds(s', schedule[1..]);
    }
  }

  // ---------------------------------------------------------------- pieces

  /** How much the producer intends when it looks at the room: the first piece of a write with
      a callback is as long as asked for, every other piece is all that is left. */
  predicate WritePlanned<T>(p: Producer<T>) {
    match p
    case PCheck(WriteBuffWithCallback(xs, k), _, written, toWrite, _) =>
      toWrite == if written > 0 then |xs| - written else if 0 < k < |xs| then k else |xs|
    case PCheck(op, _, written, toWrite, _) => written == 0 && toWrite == |op.Items()|
    case PCallback(_, _, written, _) => written > 0
    case _ => true
  }

  predicate ReadPlanned<T>(c: Consumer<T>) {
    match c
    case CCheck(ReadBuffWithCallback(count, k), _, got, toRead, _) =>
      toRead == if got != [] then count - |got| else if 0 < k < count then k else count
    case CCheck(ReadBuff(count), _, got, toRead, _) => got == [] && toRead == count
    case CCheck(RemoveTo, _, got, toRead, _) => got == [] && toRead == 1
    case CCallback(_, _, got, _) => got != []
    case _ => true
  }

  /** So it is in every interleaving. */
  lemma {:induction false} PiecesAsPlanned<T>(g: Geometry, slots: seq<T>, schedule: seq<Step<T>>)
    requires g.Compiles() && |slots| == g.size
    ensures var s := Run(Initial(g, slots), schedule);
            WritePlanned(s.prod) && ReadPlanned(s.cons)
  {
    Reachable(g, slots, []);
    StaysPlanned(Initial(g, slots), schedule);
  }

  lemma {:induction false} StaysPlanned<T>(s: State<T>, schedule: seq<Step<T>>)
    requires Inv(s) && WritePlanned(s.prod) && ReadPlanned(s.cons)
    ensures WritePlanned(Run(s, schedule).prod) && ReadPlanned(Run(s, schedule).cons)
    decreases |schedule|
  {
    hide MemoryInv, ProducerInv, ConsumerInv, ProducerStep, ConsumerStep, WritePlanned, ReadPlanned, Geometry.Compiles;
    if schedule != [] {
      DoSafe(s, schedule[0]);
      PlannedStep(s, schedule[0]);
      StaysPlanned(Do(s, schedule[0]), schedule[1..]);
    }
  }

  lemma {:induction false} PlannedStep<T>(s: State<T>, step: Step<T>)
    requires Inv(s) && WritePlanned(s.prod) && ReadPlanned(s.cons)
    ensures WritePlanned(Do(s, step).prod) && ReadPlanned(Do(s, step).cons)
  {
    hide MemoryInv, ProducerInv, ConsumerInv, ProducerStep, ConsumerStep, Geometry.Compiles;
    match step
    case ProducerMoves =>
      ConsumerLeaves(s);
      WritePlannedMove(s);
    case ConsumerMoves =>
      ConsumerLeaves(s);
      ReadPlannedMove(s);
    case _ =>
  }

  lemma {:induction false} ConsumerLeaves<T>(s: State<T>)
    requires s.Shaped()
    ensures ConsumerStep(s).prod == s.prod && ProducerStep(s).cons == s.cons
  {
    hide ProducerStep, ConsumerStep;
    ConsumerLeavesProducer(s);
    ProducerLeavesConsumer(s);
  }

  lemma {:induction false} WritePlannedMove<T>(s: State<T>)
    requires Inv(s) && WritePlanned(s.prod)
    ensures WritePlanned(ProducerStep(s).prod)
  {
    hide Pow2, BitAnd, MemoryInv, ConsumerInv, Delivered, Pending, WrapSub, WrapAdd, Geometry.Compiles, AfterTailLoad;
    if s.prod.PCheck? {
      hide ProducerStep;
      ProducerDecidesExactly(s);
    }
  }

  lemma {:induction false} ReadPlannedMove<T>(s: State<T>)
    requires Inv(s) && ReadPlanned(s.cons)
    ensures ReadPlanned(ConsumerStep(s).cons)
  {
    hide Pow2, BitAnd, MemoryInv, ProducerInv, CopyOf, Buffered, WrapSub, WrapAdd, Geometry.Compiles, AfterHeadCheck;
    if s.cons.CCheck? {
      hide ConsumerStep;
      if s.cons.op.At? {
        AtDecidesExactly(s);
      } else {
        ConsumerDecidesExactly(s);
      }
    }
  }

  /** The piece decided on is the piece published, whatever the consumer does meanwhile: the
      producer fills that many slots and is then about to publish them. */
  lemma {:induction false} PieceIsFilled<T>(s: State<T>, schedule: seq<Step<T>>)
    requires Inv(s) && s.prod.PFill? && ProducerMovesIn(schedule) == s.prod.toWrite + 1
    requires schedule != [] && schedule[|schedule| - 1].ProducerMoves?
    ensures var p := Run(s, schedule).prod;
            p.PPublish? && p.op == s.prod.op && p.start == s.prod.start && p.written == s.prod.written + s.prod.toWrite
    decreases |schedule|
  {
    hide MemoryInv, ProducerInv, ConsumerInv, ProducerStep, ConsumerStep, Geometry.Compiles;
    DoSafe(s, schedule[0]);
    ConsumerLeaves(s);
    FillMove(s);
    var s', rest := Do(s, schedule[0]), schedule[1..];
    if s'.prod.PFill? {
      assert rest[|rest| - 1] == schedule[|schedule| - 1];
      PieceIsFilled(s', rest);
    } else {
      NoMovesLeft(rest);
      assert rest == [];
    }
  }

  lemma {:induction false} NoMovesLeft<T>(schedule: seq<Step<T>>)
    requires ProducerMovesIn(schedule) == 0
    ensures forall i | 0 <= i < |schedule| :: !schedule[i].ProducerMoves?
    decreases |schedule|
  {
    if schedule != [] {
      NoMovesLeft(schedule[1..]);
    }
  }

  lemma {:induction false} FillMove<T>(s: State<T>)
    requires Inv(s) && s.prod.PFill?
    ensures var p := ProducerStep(s).prod;
            if s.prod.toWrite == 0 then
              p.PPublish? && p.op == s.prod.op && p.start == s.prod.start && p.written == s.prod.written
            else
              && p.PFill? && p.op == s.prod.op && p.start == s.prod.start
              && p.written == s.prod.written + 1 && p.toWrite == s.prod.toWrite - 1
  {
    hide Pow2, BitAnd, MemoryInv, ConsumerInv, Delivered, Pending, WrapAdd, Geometry.Compiles;
  }

  /** Likewise the piece to be read. */
  lemma {:induction false} PieceIsFetched<T>(s: State<T>, schedule: seq<Step<T>>)
    requires Inv(s) && s.cons.CFetch? && ConsumerMovesIn(schedule) == s.cons.toRead + 1
    requires schedule != [] && schedule[|schedule| - 1].ConsumerMoves?
    ensures var c := Run(s, schedule).cons;
            && c.CRelease? && c.op == s.cons.op && c.start == s.cons.start
            && c.n == |c.got| == |s.cons.got| + s.cons.toRead
    decreases |schedule|
  {
    hide MemoryInv, ProducerInv, ConsumerInv, ProducerStep, ConsumerStep, Geometry.Compiles;
    DoSafe(s, schedule[0]);
    ConsumerLeaves(s);
    FetchMove(s);
    var s', rest := Do(s, schedule[0]), schedule[1..];
    if s'.cons.CFetch? {
      assert rest[|rest| - 1] == schedule[|schedule| - 1];
      PieceIsFetched(s', rest);
    } else {
      NoReadsLeft(rest);
      assert rest == [];
    }
  }

  lemma {:induction false} NoReadsLeft<T>(schedule: seq<Step<T>>)
    requires ConsumerMovesIn(schedule) == 0
    ensures forall i | 0 <= i < |schedule| :: !schedule[i].ConsumerMoves?
    decreases |schedule|
  {
    if schedule != [] {
      NoReadsLeft(schedule[1..]);
    }
  }

  lemma {:induction false} FetchMove<T>(s: State<T>)
    requires Inv(s) && s.cons.CFetch?
    ensures var c := ConsumerStep(s).cons;
            if s.cons.toRead == 0 then
              c.CRelease? && c.op == s.cons.op && c.start == s.cons.start && c.got == s.cons.got && c.n == |c.got|
            else
              && c.CFetch? && c.op == s.cons.op && c.start == s.cons.start
              && |c.got| == |s.cons.got| + 1 && c.toRead == s.cons.toRead - 1
  {
    hide Pow2, BitAnd, MemoryInv, ProducerInv, CopyOf, Buffered, WrapAdd, Geometry.Compiles;
  }

  // ---------------------------------------------------------------- undisturbed operations

  /** The producer alone, until it is idle. */
  ghost function WriteAlone<T>(s: State<T>): State<T>
    requires Inv(s)
    decreases ProducerWork(s.prod)
  {
    if s.prod.PIdle? then s
    else
      ProducerStepSafe(s);
      ProducerIsWaitFree(s);
      WriteAlone(ProducerStep(s))
  }

  /** The consumer alone, until it is idle. */
  ghost function ReadAlone<T>(s: State<T>): State<T>
    requires Inv(s)
    decreases ConsumerWork(s.cons)
  {
    if s.cons.CIdle? then s
    else
      ConsumerStepSafe(s);
      ConsumerIsWaitFree(s);
      ReadAlone(ConsumerStep(s))
  }

  /** Where in the log the write under way began. */
  function WriteStart<T>(s: State<T>): nat
    requires !s.prod.PIdle?
  {
    if s.prod.PBegin? then |s.published| else s.prod.start
  }

  /** How much of its items the write can publish if the consumer stands still. */
  function WriteGoal<T>(s: State<T>): int
    requires !s.prod.PIdle?
  {
    var room := |s.taken| + s.g.size - WriteStart(s);
    if |s.prod.op.Items()| < room then |s.prod.op.Items()| else room
  }

  /** The decision taken was taken with the consumer where it is now. */
  ghost predicate UpToDate<T>(s: State<T>) {
    match s.prod
    case PFill(op, _, written, toWrite, _) => !op.WriteBuffWithCallback? ==> written + toWrite == WriteGoal(s)
    case PPublish(op, _, written, _) => !op.WriteBuffWithCallback? ==> written == WriteGoal(s)
    case PReturn(_, written, _) => written == WriteGoal(s)
    case _ => true
  }

  lemma {:induction false} TailLoadIsUpToDate<T>(s: State<T>)
    requires Inv(s) && s.prod.PCheck?
    ensures var p := AfterTailLoad(s);
            !p.PIdle? && !p.PBegin? && p.op == s.prod.op && p.start == s.prod.start && UpToDate(s.(prod := p))
  {
    hide Pow2, BitAnd, MemoryInv, ConsumerInv, WrapSub, Delivered, Geometry.Compiles;
    DistanceExact(s.g, |s.published|, |s.taken|);
  }

  lemma {:induction false} WriteStaysUpToDate<T>(s: State<T>)
    requires Inv(s) && !s.prod.PIdle? && UpToDate(s)
    ensures var s' := ProducerStep(s);
            && s'.taken == s.taken && s'.g == s.g && s'.cons == s.cons
            && (!s'.prod.PIdle? ==> s'.prod.op == s.prod.op && WriteStart(s') == WriteStart(s) && UpToDate(s'))
            && WriteStart(s) <= |s.published| <= |s'.published|
            && s'.published[..WriteStart(s)] == s.published[..WriteStart(s)]
  {
    hide Pow2, BitAnd, MemoryInv, ConsumerInv, WrapSub, WrapAdd, AfterTailLoad, Geometry.Compiles;
    if s.prod.PCheck? {
      TailLoadIsUpToDate(s);
    }
  }

  /** A write that runs undisturbed publishes exactly as many of its items as fit, in
      order, and nothing else: the contract of the sequential methods. */
  lemma {:induction false} WriteAloneIsSequential<T>(s: State<T>)
    requires Inv(s) && !s.prod.PIdle? && UpToDate(s)
    ensures var r := WriteAlone(s);
            && r.prod.PIdle? && r.cons == s.cons && r.taken == s.taken
            && WriteStart(s) <= |s.published| && 0 <= WriteGoal(s) <= |s.prod.op.Items()|
            && r.published == s.published[..WriteStart(s)] + s.prod.op.Items()[..WriteGoal(s)]
    decreases ProducerWork(s.prod)
  {
    hide MemoryInv, ConsumerInv, Pow2, BitAnd, ProducerStep, ProducerWork;
    ProducerStepSafe(s);
    ProducerIsWaitFree(s);
    WriteStaysUpToDate(s);
    var s' := ProducerStep(s);
    if s.prod.PReturn? {
      ReturnEnds(s);
    } else {
      StillBusy(s);
      WriteAloneIsSequential(s');
    }
  }

  lemma {:induction false} ReturnEnds<T>(s: State<T>)
    requires Inv(s) && s.prod.PReturn? && UpToDate(s)
    ensures ProducerStep(s) == s.(prod := PIdle)
    ensures s.published == s.published[..s.prod.start] + s.prod.op.Items()[..WriteGoal(s)]
  {
    hide Pow2, BitAnd, MemoryInv, ConsumerInv, Geometry.Compiles;
  }

  lemma {:induction false} StillBusy<T>(s: State<T>)
    requires Inv(s) && !s.prod.PIdle? && !s.prod.PReturn?
    ensures !ProducerStep(s).prod.PIdle?
  {
    hide Pow2, BitAnd, MemoryInv, ConsumerInv, WrapSub, Geometry.Compiles;
  }

  /** In terms of the queue alone: from an idle producer, the call of a write that runs
      undisturbed appends as many of its items as there is room for. */
  lemma {:induction false} UndisturbedWrite<T>(s: State<T>, op: WriteOp<T>)
    requires Inv(s) && s.prod.PIdle?
    ensures Inv(Do(s, BeginWrite(op))) && |s.Queue()| <= s.g.size
    ensures var r := WriteAlone(Do(s, BeginWrite(op)));
            && r.Shaped() && r.prod.PIdle? && r.cons == s.cons && r.taken == s.taken
            && r.Queue() == s.Queue() + op.Items()[..Min(|op.Items()|, s.g.size - |s.Queue()|)]
  {
    var b := Do(s, BeginWrite(op));
    DoSafe(s, BeginWrite(op));
    assert b.Queue() == s.Queue();
    hide Pow2, BitAnd, Buffered, ProducerStep, WriteAlone, ProducerInv, ConsumerInv, MemoryInv, Geometry.Compiles;
    WriteAloneIsSequential(b);
    WriteAppends(b);
  }

  lemma {:induction false} WriteAppends<T>(s: State<T>)
    requires Inv(s) && s.prod.PBegin?
    ensures |s.Queue()| <= s.g.size && WriteAlone(s).Shaped()
    ensures var n := Min(|s.prod.op.Items()|, s.g.size - |s.Queue()|);
            WriteAlone(s).Queue() == s.Queue() + s.prod.op.Items()[..n]
  {
    WriteAloneIsSequential(s);
    WriteAloneSafe(s);
    hide Pow2, BitAnd, Buffered, ProducerStep, WriteAlone, ProducerInv, ConsumerInv, MemoryInv, Geometry.Compiles;
    QueueIsRest(s);
    QueueIsRest(WriteAlone(s));
    AppendBehind(s.published, s.prod.op.Items()[..WriteGoal(s)], |s.taken|);
  }

  lemma {:induction false} AppendBehind<T>(log: seq<T>, more: seq<T>, from: nat)
    requires from <= |log|
    ensures (log[..|log|] + more)[from..] == log[from..] + more
  {
  }

  lemma {:induction false} WriteAloneSafe<T>(s: State<T>)
    requires Inv(s)
    ensures Inv(WriteAlone(s)) && WriteAlone(s).g == s.g
    decreases ProducerWork(s.prod)
  {
    hide CountersInv, MemoryInv, ProducerInv, ConsumerInv, ProducerWork;
    if !s.prod.PIdle? {
      ProducerStepSafe(s);
      ProducerIsWaitFree(s);
      WriteAloneSafe(ProducerStep(s));
    }
  }

  // The same for the consumer.

  function ReadStart<T>(s: State<T>): nat
    requires !s.cons.CIdle?
  {
    if s.cons.CBegin? then |s.taken| else s.cons.start
  }

  /** The elements an operation takes off a queue of the given length. */
  function TakenFrom(op: ReadOp, length: int): int {
    var wanted := match op
      case RemoveOne => 1
      case RemoveMany(cnt) => cnt
      case ConsumerClear => length
      case RemoveTo => 1
      case At(_) => 0
      case ReadBuff(count) => count
      case ReadBuffWithCallback(count, _) => count;
    if wanted < length then wanted else length
  }

  /** How many elements the read takes if the producer stands still. */
  function ReadGoal<T>(s: State<T>): int
    requires !s.cons.CIdle?
  {
    TakenFrom(s.cons.op, |s.published| - ReadStart(s))
  }

  ghost predicate ReadUpToDate<T>(s: State<T>) {
    match s.cons
    case CFetch(op, _, got, toRead, _) => !op.ReadBuffWithCallback? ==> |got| + toRead == ReadGoal(s)
    case CRelease(op, _, n, _, _) => !op.ReadBuffWithCallback? ==> n == ReadGoal(s)
    case CReturn(_, n, _, _) => n == ReadGoal(s)
    case _ => true
  }

  lemma {:induction false} HeadCheckIsUpToDate<T>(s: State<T>)
    requires Inv(s) && s.cons.CCheck?
    ensures var c := AfterHeadCheck(s);
            !c.CIdle? && !c.CBegin? && c.op == s.cons.op && c.start == s.cons.start && ReadUpToDate(s.(cons := c))
  {
    hide Pow2, BitAnd, MemoryInv, ProducerInv, WrapSub, CopyOf, Geometry.Compiles;
    DistanceExact(s.g, |s.published|, |s.taken|);
  }

  lemma {:induction false} ReadStaysUpToDate<T>(s: State<T>)
    requires Inv(s) && !s.cons.CIdle? && ReadUpToDate(s)
    ensures var s' := ConsumerStep(s);
            && s'.published == s.published && s'.g == s.g && s'.prod == s.prod
            && (s'.cons.CIdle? <==> s.cons.CReturn?)
            && (!s'.cons.CIdle? ==> s'.cons.op == s.cons.op && ReadStart(s') == ReadStart(s) && ReadUpToDate(s'))
  {
    hide Pow2, BitAnd, MemoryInv, ProducerInv, WrapSub, WrapAdd, Buffered, CopyOf, AfterHeadCheck, Geometry.Compiles;
    if s.cons.CCheck? {
      HeadCheckIsUpToDate(s);
    }
  }

  /** A read that runs undisturbed takes exactly the elements the sequential methods take,
      and leaves the rest. */
  lemma {:induction false} ReadAloneIsSequential<T>(s: State<T>)
    requires Inv(s) && !s.cons.CIdle? && ReadUpToDate(s)
    ensures var r := ReadAlone(s);
            && r.cons.CIdle? && r.prod == s.prod && r.published == s.published
            && 0 <= ReadStart(s) + ReadGoal(s) <= |s.published|
            && r.taken == s.published[..ReadStart(s) + ReadGoal(s)]
    decreases ConsumerWork(s.cons)
  {
    hide MemoryInv, ProducerInv, Pow2, BitAnd, ConsumerStep, ConsumerWork, ReadGoal, CopyOf;
    ConsumerStepSafe(s);
    ConsumerIsWaitFree(s);
    ReadStaysUpToDate(s);
    if s.cons.CReturn? {
      ReadReturnEnds(s);
    } else {
      ReadAloneIsSequential(ConsumerStep(s));
      SameReadGoal(s, ConsumerStep(s));
    }
  }

  lemma {:induction false} SameReadGoal<T>(s: State<T>, s': State<T>)
    requires !s.cons.CIdle? && !s'.cons.CIdle? && s'.cons.op == s.cons.op
    requires ReadStart(s') == ReadStart(s) && s'.published == s.published
    ensures ReadGoal(s') == ReadGoal(s)
  {
  }

  lemma {:induction false} ReadReturnEnds<T>(s: State<T>)
    requires Inv(s) && s.cons.CReturn? && ReadUpToDate(s)
    ensures ConsumerStep(s) == s.(cons := CIdle)
    ensures 0 <= ReadStart(s) + ReadGoal(s) <= |s.published|
    ensures s.taken == s.published[..ReadStart(s) + ReadGoal(s)]
  {
    hide Pow2, BitAnd, Holds, ProducerInv, Geometry.Compiles;
  }

  lemma {:induction false} ReadAloneSafe<T>(s: State<T>)
    requires Inv(s)
    ensures Inv(ReadAlone(s)) && ReadAlone(s).g == s.g
    decreases ConsumerWork(s.cons)
  {
    hide CountersInv, MemoryInv, ProducerInv, ConsumerInv, ConsumerWork;
    if !s.cons.CIdle? {
      ConsumerStepSafe(s);
      ConsumerIsWaitFree(s);
      ReadAloneSafe(ConsumerStep(s));
    }
  }

  /** From an idle consumer, the call of a read that runs undisturbed takes the wanted number
      of elements off the front of the queue, or all there are. */
  lemma {:induction false} UndisturbedRead<T>(s: State<T>, op: ReadOp)
    requires Inv(s) && s.cons.CIdle?
    ensures Inv(Do(s, BeginRead(op)))
    ensures var r, n := ReadAlone(Do(s, BeginRead(op))), TakenFrom(op, |s.Queue()|);
            && 0 <= n <= |s.Queue()| && r.Shaped() && r.cons.CIdle? && r.prod == s.prod
            && r.taken == s.taken + s.Queue()[..n] && r.Queue() == s.Queue()[n..]
  {
    var b := Do(s, BeginRead(op));
    DoSafe(s, BeginRead(op));
    hide Pow2, BitAnd, Buffered, ConsumerStep, ReadAlone, ProducerInv, ConsumerInv, MemoryInv, Geometry.Compiles;
    ReadAloneIsSequential(b);
    ReadAloneSafe(b);
    QueueIsRest(s);
    QueueIsRest(ReadAlone(b));
  }
}
