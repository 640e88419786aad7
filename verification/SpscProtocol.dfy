/**
  The ring buffer shared by one producer thread and one consumer thread. Each load or
  store of an index and each access to a slot is a step of its own, so that a thread acts
  on a copy of the other's index that may be out of date, and the threads interleave in
  any order.

  `published` logs the elements made visible by stores to `head`; `taken` logs what the
  slots released by stores to `tail` held. Their lengths are the indices without wrap.
 */
module SpscProtocol {
  import opened Words
  import opened RingSlots
  import opened Sequences

  datatype WriteOp<+T> =
    | Insert(x: T)
    | WriteBuff(xs: seq<T>)
    | WriteBuffWithCallback(xs: seq<T>, countToCallback: nat)
  {
    function Items(): seq<T> { if Insert? then [x] else xs }
  }

  datatype ReadOp =
    | RemoveOne
    | RemoveMany(cnt: nat)
    | ConsumerClear
    | RemoveTo
    | At(index: nat)
    | ReadBuff(count: nat)
    | ReadBuffWithCallback(count: nat, countToCallback: nat)
  {
    /** Does the operation copy out the elements it releases? */
    predicate Copies() { RemoveTo? || ReadBuff? || ReadBuffWithCallback? }

    /** The most elements the operation copies out. */
    function Limit(): nat
      requires Copies()
    {
      if RemoveTo? then 1 else count
    }
  }

  /** Where the producer is, with its locals. `start` is the length of `published` when
      the operation began; it is only recorded, never consulted. */
  datatype Producer<+T> =
    | PIdle
    | PBegin(op: WriteOp<T>)
    | PCheck(op: WriteOp<T>, tmpHead: nat, written: nat, toWrite: nat, start: nat)
    | PFill(op: WriteOp<T>, tmpHead: nat, written: nat, toWrite: nat, start: nat)
    | PPublish(op: WriteOp<T>, tmpHead: nat, written: nat, start: nat)
    | PCallback(op: WriteOp<T>, tmpHead: nat, written: nat, start: nat)
    | PReturn(op: WriteOp<T>, written: nat, start: nat)

  /** Where the consumer is, with its locals; `got` is what it has copied out. */
  datatype Consumer<+T> =
    | CIdle
    | CBegin(op: ReadOp)
    | CCheck(op: ReadOp, tmpTail: nat, got: seq<T>, toRead: nat, start: nat)
    | CFetch(op: ReadOp, tmpTail: nat, got: seq<T>, toRead: nat, start: nat)
    | CHold(op: ReadOp, slot: nat, start: nat)
    | CRelease(op: ReadOp, newTail: nat, n: nat, got: seq<T>, start: nat)
    | CCallback(op: ReadOp, tmpTail: nat, got: seq<T>, start: nat)
    | CReturn(op: ReadOp, n: nat, got: seq<T>, start: nat)

  datatype State<+T> = State(
    g: Geometry, slots: seq<T>, head: nat, tail: nat,
    prod: Producer<T>, cons: Consumer<T>,
    published: seq<T>, taken: seq<T>)
  {
    predicate Shaped() { g.Compiles() && |slots| == g.size }

    function Modulus(): nat { g.Modulus() }

    /** The queue the shared variables denote. */
    function Queue(): seq<T>
      requires Shaped()
    {
      Buffered(g, slots, head, tail)
    }
  }

  datatype Step<+T> = BeginWrite(w: WriteOp<T>) | BeginRead(r: ReadOp) | ProducerMoves | ConsumerMoves

  function Initial<T>(g: Geometry, slots: seq<T>): State<T> {
    State(g, slots, 0, 0, PIdle, CIdle, [], [])
  }

  // ---------------------------------------------------------------- the producer

  /** The producer after loading `head`. */
  function AfterHeadLoad<T>(s: State<T>, op: WriteOp<T>): Producer<T> {
    var count := |op.Items()|;
    if op.WriteBuffWithCallback? then
      if count == 0 then PReturn(op, 0, |s.published|)
      else
        var first := if op.countToCallback != 0 && op.countToCallback < count then op.countToCallback else count;
        PCheck(op, s.head, 0, first, |s.published|)
    else
      PCheck(op, s.head, 0, count, |s.published|)
  }

  /** The producer after loading `tail` and deciding how much to write. */
  function AfterTailLoad<T>(s: State<T>): Producer<T>
    requires s.Shaped() && s.prod.PCheck?
  {
    var PCheck(op, tmpHead, written, toWrite, start) := s.prod;
    var used := WrapSub(tmpHead, s.tail, s.Modulus());
    var available := WrapSub(s.g.size, used, s.Modulus());
    match op
    case Insert(_) =>
      if used == s.g.size then PReturn(op, 0, start) else PFill(op, tmpHead, written, 1, start)
    case WriteBuff(xs) =>
      PFill(op, tmpHead, written, if available < |xs| then available else toWrite, start)
    case WriteBuffWithCallback(_, _) =>
      if available == 0 then PReturn(op, written, start)
      else PFill(op, tmpHead, written, if toWrite > available then available else toWrite, start)
  }

  function ProducerStep<T>(s: State<T>): (r: State<T>)
    requires s.Shaped()
    ensures r.Shaped() && r.g == s.g
  {
    match s.prod
    case PIdle => s
    case PBegin(op) => s.(prod := AfterHeadLoad(s, op))
    case PCheck(_, _, _, _, _) => s.(prod := AfterTailLoad(s))
    case PFill(op, tmpHead, written, toWrite, start) =>
      if toWrite == 0 || written >= |op.Items()| then s.(prod := PPublish(op, tmpHead, written, start))
      else
        SlotInRange(s.g, tmpHead);
        s.(slots := s.slots[s.g.Slot(tmpHead) := op.Items()[written]],
           prod := PFill(op, WrapAdd(tmpHead, 1, s.Modulus()), written + 1, toWrite - 1, start))
    case PPublish(op, tmpHead, written, start) =>
      s.(head := tmpHead,
         published := s.published + Pending(s),
         prod := if op.WriteBuffWithCallback? then PCallback(op, tmpHead, written, start)
                 else PReturn(op, written, start))
    case PCallback(op, tmpHead, written, start) =>
      var count := |op.Items()|;
      s.(prod := if written < count then PCheck(op, tmpHead, written, count - written, start)
                 else PReturn(op, written, start))
    case PReturn(_, _, _) => s.(prod := PIdle)
  }

  lemma {:induction false} SlotInRange(g: Geometry, index: nat)
    requires g.Compiles()
    ensures g.Slot(index) < g.size
  {
    SlotOfCounter(g, index);
  }

  /** The elements put into slots but not yet published. */
  function Pending<T>(s: State<T>): seq<T> {
    if s.prod.PFill? || s.prod.PPublish? then
      var items, done := s.prod.op.Items(), |s.published| - s.prod.start;
      if 0 <= done <= s.prod.written <= |items| then items[done..s.prod.written] else []
    else []
  }

  // ---------------------------------------------------------------- the consumer

  /** The consumer after loading `tail`; `consumerClear` does not load it. */
  function AfterOwnTailLoad<T>(s: State<T>, op: ReadOp): Consumer<T> {
    var start := |s.taken|;
    match op
    case ReadBuffWithCallback(count, countToCallback) =>
      if count == 0 then CReturn(op, 0, [], start)
      else
        var first := if countToCallback != 0 && countToCallback < count then countToCallback else count;
        CCheck(op, s.tail, [], first, start)
    case ReadBuff(count) => CCheck(op, s.tail, [], count, start)
    case _ => CCheck(op, s.tail, [], 1, start)
  }

  /** The consumer after loading `head` and deciding how far to go. */
  function AfterHeadCheck<T>(s: State<T>): Consumer<T>
    requires s.Shaped() && s.cons.CCheck?
  {
    var CCheck(op, tmpTail, got, toRead, start) := s.cons;
    var m := s.Modulus();
    var available := WrapSub(s.head, tmpTail, m);
    match op
    case RemoveOne =>
      if tmpTail == s.head then CReturn(op, 0, got, start) else CRelease(op, WrapAdd(tmpTail, 1, m), 1, got, start)
    case RemoveMany(cnt) =>
      var n := if cnt > available then available else cnt;
      CRelease(op, WrapAdd(tmpTail, n, m), n, got, start)
    case ConsumerClear => CRelease(op, s.head, WrapSub(s.head, s.tail, m), got, start)
    case RemoveTo =>
      if tmpTail == s.head then CReturn(op, 0, got, start) else CFetch(op, tmpTail, got, 1, start)
    case At(index) =>
      if available <= index then CReturn(op, 0, got, start)
      else CHold(op, s.g.Slot(WrapAdd(tmpTail, index, m)), start)
    case ReadBuff(count) =>
      CFetch(op, tmpTail, got, if available < count then available else toRead, start)
    case ReadBuffWithCallback(_, _) =>
      if available == 0 then CReturn(op, |got|, got, start)
      else CFetch(op, tmpTail, got, if toRead > available then available else toRead, start)
  }

  function ConsumerStep<T>(s: State<T>): (r: State<T>)
    requires s.Shaped()
    ensures r.Shaped() && r.g == s.g
  {
    match s.cons
    case CIdle => s
    case CBegin(op) => s.(cons := AfterOwnTailLoad(s, op))
    case CCheck(_, _, _, _, _) => s.(cons := AfterHeadCheck(s))
    case CFetch(op, tmpTail, got, toRead, start) =>
      if toRead == 0 then s.(cons := CRelease(op, tmpTail, |got|, got, start))
      else
        SlotInRange(s.g, tmpTail);
        s.(cons := CFetch(op, WrapAdd(tmpTail, 1, s.Modulus()), got + [s.slots[s.g.Slot(tmpTail)]], toRead - 1, start))
    case CHold(op, slot, start) =>
      s.(cons := CReturn(op, 0, if slot < |s.slots| then [s.slots[slot]] else [], start))
    case CRelease(op, newTail, n, got, start) =>
      s.(tail := newTail,
         taken := s.taken + Buffered(s.g, s.slots, newTail, s.tail),
         cons := if op.ReadBuffWithCallback? then CCallback(op, newTail, got, start)
                 else CReturn(op, n, got, start))
    case CCallback(op, tmpTail, got, start) =>
      s.(cons := if op.ReadBuffWithCallback? && |got| < op.count
                 then CCheck(op, tmpTail, got, op.count - |got|, start)
                 else CReturn(op, |got|, got, start))
    case CReturn(_, _, _, _) => s.(cons := CIdle)
  }

  // ---------------------------------------------------------------- runs

  function Do<T>(s: State<T>, step: Step<T>): (r: State<T>)
    requires s.Shaped()
    ensures r.Shaped() && r.g == s.g
  {
    match step
    case BeginWrite(op) => if s.prod.PIdle? then s.(prod := PBegin(op)) else s
    case BeginRead(op) => if s.cons.CIdle? then s.(cons := CBegin(op)) else s
    case ProducerMoves => ProducerStep(s)
    case ConsumerMoves => ConsumerStep(s)
  }

  /** The state after a schedule of steps. */
  function Run<T>(s: State<T>, schedule: seq<Step<T>>): (r: State<T>)
    requires s.Shaped()
    ensures r.Shaped() && r.g == s.g
    decreases |schedule|
  {
    if schedule == [] then s else Run(Do(s, schedule[0]), schedule[1..])
  }
}
