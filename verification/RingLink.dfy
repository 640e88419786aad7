/**
  The two models of the ring buffer agree: calling a method of the class has the effect
  which the step machine has when it runs the same operation undisturbed from a snapshot
  of the object.
 */
module RingLink {
  import opened RingSlots
  import opened Sequences
  import RingBuffer
  import P = SpscProtocol
  import SpscSafety
  import SpscProgress
  import SpscTheorems
  import Words

  /** The shared state of the step machine that an object stands for. */
  ghost function Snapshot<T(0)>(rb: RingBuffer.Ringbuffer<T>, prod: P.Producer<T>, cons: P.Consumer<T>): P.State<T>
    reads rb, rb.slots
    requires rb.Valid()
  {
    P.State(rb.geometry, rb.slots[..], rb.head, rb.tail, prod, cons, rb.published, rb.published[..rb.popped])
  }

  lemma {:induction false} SnapshotIsReachable<T(0)>(rb: RingBuffer.Ringbuffer<T>, prod: P.Producer<T>, cons: P.Consumer<T>)
    requires rb.Valid()
    requires (prod.PIdle? || prod.PBegin?) && (cons.CIdle? || cons.CBegin?)
    ensures SpscSafety.Inv(Snapshot(rb, prod, cons))
    ensures Snapshot(rb, prod, cons).Queue() == rb.Contents()
  {
    hide Words.Pow2, Words.BitAnd, Holds, Buffered;
    var s := Snapshot(rb, prod, cons);
    assert s.published + P.Pending(s) == s.published;
    SpscTheorems.QueueIsRest(s);
  }

  /** The object is as the step machine has left the shared state: the same queue and logs. */
  ghost predicate Agrees<T(0)>(rb: RingBuffer.Ringbuffer<T>, s: P.State<T>)
    reads rb, rb.slots
  {
    && rb.Valid() && s.Shaped()
    && rb.Contents() == s.Queue() && rb.published == s.published && rb.published[..rb.popped] == s.taken
  }

  /** What a write does to the logs determines what it does to the queue. */
  lemma {:induction false} WriteAgrees<T(0)>(rb: RingBuffer.Ringbuffer<T>, s: P.State<T>, n: nat)
    requires SpscSafety.Inv(s) && s.prod.PBegin? && rb.Valid() && rb.geometry == s.g && rb.popped == |s.taken|
    requires n == Min(|s.prod.op.Items()|, s.g.size - (|s.published| - |s.taken|))
    requires rb.published == s.published + s.prod.op.Items()[..n]
    ensures Agrees(rb, SpscProgress.WriteAlone(s))
    ensures |SpscProgress.WriteAlone(s).published| == |s.published| + n
  {
    SpscProgress.WriteAloneIsSequential(s);
    SpscProgress.WriteAloneSafe(s);
    hide Words.Pow2, Words.BitAnd, Holds, Buffered, Geometry.Compiles, SpscProgress.WriteAlone,
      SpscSafety.ProducerInv, SpscSafety.ConsumerInv;
    var r := SpscProgress.WriteAlone(s);
    SpscTheorems.QueueIsRest(r);
    assert s.published[..|s.published|] == s.published;
    assert s.taken == rb.published[..rb.popped];
  }

  /** Likewise a read. */
  lemma {:induction false} ReadAgrees<T(0)>(rb: RingBuffer.Ringbuffer<T>, s: P.State<T>, n: nat)
    requires SpscSafety.Inv(s) && s.cons.CBegin? && rb.Valid() && rb.geometry == s.g && rb.published == s.published
    requires n == SpscProgress.TakenFrom(s.cons.op, |s.published| - |s.taken|) && rb.popped == |s.taken| + n
    ensures Agrees(rb, SpscProgress.ReadAlone(s))
    ensures |SpscProgress.ReadAlone(s).taken| == |s.taken| + n
  {
    SpscProgress.ReadAloneIsSequential(s);
    SpscProgress.ReadAloneSafe(s);
    hide Words.Pow2, Words.BitAnd, Holds, Buffered, Geometry.Compiles, SpscProgress.ReadAlone,
      SpscSafety.ProducerInv, SpscSafety.ConsumerInv;
    SpscTheorems.QueueIsRest(SpscProgress.ReadAlone(s));
  }

  /** The write of the object and that of the step machine, from the same snapshot, agree on
      the queue, the logs and the count. */
  method WriteBuffAgrees<T(0)>(rb: RingBuffer.Ringbuffer<T>, buff: seq<T>) returns (written: nat)
    requires rb.Valid()
    modifies rb, rb.slots
    ensures var s := old(Snapshot(rb, P.PBegin(P.WriteBuff(buff)), P.CIdle));
            && SpscSafety.Inv(s) && Agrees(rb, SpscProgress.WriteAlone(s))
            && |SpscProgress.WriteAlone(s).published| == |s.published| + written
  {
    hide Words.Pow2, Words.BitAnd, Holds, Buffered, Agrees, Geometry.Compiles, SpscSafety.Inv, SpscProgress.WriteAlone;
    ghost var s := Snapshot(rb, P.PBegin(P.WriteBuff(buff)), P.CIdle);
    SnapshotIsReachable(rb, s.prod, s.cons);
    written := rb.WriteBuff(buff);
    WriteAgrees(rb, s, written);
  }

  method InsertAgrees<T(0)>(rb: RingBuffer.Ringbuffer<T>, x: T) returns (inserted: bool)
    requires rb.Valid()
    modifies rb, rb.slots
    ensures var s := old(Snapshot(rb, P.PBegin(P.Insert(x)), P.CIdle));
            && SpscSafety.Inv(s) && Agrees(rb, SpscProgress.WriteAlone(s))
            && |SpscProgress.WriteAlone(s).published| == |s.published| + if inserted then 1 else 0
  {
    hide Words.Pow2, Words.BitAnd, Holds, Buffered, Agrees, Geometry.Compiles, SpscSafety.Inv, SpscProgress.WriteAlone;
    ghost var s := Snapshot(rb, P.PBegin(P.Insert(x)), P.CIdle);
    SnapshotIsReachable(rb, s.prod, s.cons);
    inserted := rb.Insert(x);
    ghost var n := if inserted then 1 else 0;
    assert [x][..n] == if inserted then [x] else [];
    WriteAgrees(rb, s, n);
  }

  /** The removal of the object and that of the step machine agree likewise. */
  method RemoveManyAgrees<T(0)>(rb: RingBuffer.Ringbuffer<T>, cnt: nat) returns (removed: nat)
    requires rb.Valid()
    modifies rb
    ensures var s := old(Snapshot(rb, P.PIdle, P.CBegin(P.RemoveMany(cnt))));
            && SpscSafety.Inv(s) && Agrees(rb, SpscProgress.ReadAlone(s))
            && |SpscProgress.ReadAlone(s).taken| == |s.taken| + removed
  {
    hide Words.Pow2, Words.BitAnd, Holds, Buffered, Agrees, Geometry.Compiles, SpscSafety.Inv, SpscProgress.ReadAlone;
    ghost var s := Snapshot(rb, P.PIdle, P.CBegin(P.RemoveMany(cnt)));
    SnapshotIsReachable(rb, s.prod, s.cons);
    removed := rb.RemoveMany(cnt);
    ReadAgrees(rb, s, removed);
  }

  /** So do the reads, and what the array receives is what the step machine takes. */
  method ReadBuffAgrees<T(0)>(rb: RingBuffer.Ringbuffer<T>, buff: array<T>, count: nat) returns (read: nat)
    requires rb.Valid() && count <= buff.Length && buff != rb.slots
    modifies rb, buff
    ensures var s := old(Snapshot(rb, P.PIdle, P.CBegin(P.ReadBuff(count))));
            && SpscSafety.Inv(s) && Agrees(rb, SpscProgress.ReadAlone(s))
            && |SpscProgress.ReadAlone(s).taken| == |s.taken| + read && read <= count
            && SpscProgress.ReadAlone(s).taken[|s.taken|..] == buff[..read] && buff[read..] == old(buff[read..])
  {
    hide Words.Pow2, Words.BitAnd, Holds, Buffered, Geometry.Compiles, SpscSafety.Inv, SpscProgress.ReadAlone;
    ghost var s := Snapshot(rb, P.PIdle, P.CBegin(P.ReadBuff(count)));
    SnapshotIsReachable(rb, s.prod, s.cons);
    read := rb.ReadBuff(buff, count);
    ReadAgrees(rb, s, read);
    assert rb.published[..rb.popped][|s.taken|..] == rb.published[|s.taken|..][..read];
  }
}
