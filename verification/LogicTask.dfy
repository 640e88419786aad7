/**
  A logic thread: the loop that takes messages off its queue and runs them, other threads
  that put messages, and threads that close it. The queue is that of MessageQueue; the
  loop is the only one to pop from it.
 */
module LogicTask {
  import opened Sequences
  import Q = MessageQueue

  datatype Message = Call(id: nat) | Close

  /** Where the loop is: about to test `m_run`, about to pop, asleep in the pop, holding a
      message, running one, or out of the loop. */
  datatype Worker = Test | Popping | Blocked | Holding(m: Message) | Running(id: nat) | Finished(last: seq<Message>)

  const WORKER: nat := 0

  /** `closing` closers have cleared `m_run` and not yet put their message, `closed` have
      put it. `started` logs the messages run, `late` those started with `m_run` clear. */
  datatype State = State(
    q: Q.State<Message>, mRun: bool, worker: Worker, closing: nat, closed: nat,
    started: seq<nat>, late: nat)

  datatype Step = Put(id: nat) | ClearRun | PutClose | WorkerMoves | Spurious

  /** After `start`: the flag is set and the loop about to test it. */
  function Initial(): State { State(Q.Initial(), true, Test, 0, 0, [], 0) }

  /** `Push`, which notifies the loop if it sleeps. */
  function PushMessage(q: Q.State<Message>, m: Message): Q.State<Message> {
    Q.Do(q, Q.Push(m, WORKER))
  }

  /** Where the loop is once its attempt to pop has turned `q` into `q'`. */
  function AfterPop(q: Q.State<Message>, q': Q.State<Message>): Worker {
    if Q.Blocked(q', WORKER) || q.queue == [] then Blocked else Holding(q.queue[0])
  }

  function WorkerStep(s: State): State {
    match s.worker
    case Test => s.(worker := if s.mRun then Popping else Finished([]))
    case Popping =>
      var q' := Q.Do(s.q, Q.Pop(WORKER));
      s.(q := q', worker := AfterPop(s.q, q'))
    case Blocked =>
      if WORKER in s.q.notified then
        var q' := Q.Do(s.q, Q.Resume(WORKER));
        s.(q := q', worker := AfterPop(s.q, q'))
      else s
    case Holding(m) =>
      match m {
        case Call(id) =>
          s.(worker := Running(id), started := s.started + [id], late := s.late + if s.mRun then 0 else 1)
        case Close => s.(worker := Finished([m]))
      }
    case Running(_) => s.(worker := Test)
    case Finished(_) => s
  }

  function Do(s: State, step: Step): State {
    match step
    case Put(id) => s.(q := PushMessage(s.q, Call(id)))
    case ClearRun => s.(mRun := false, closing := s.closing + 1)
    case PutClose =>
      if s.closing == 0 then s
      else s.(q := PushMessage(s.q, Close), closing := s.closing - 1, closed := s.closed + 1)
    case WorkerMoves => WorkerStep(s)
    case Spurious => s.(q := Q.Do(s.q, Q.SpuriousWake(WORKER)))
  }

  function Run(s: State, schedule: seq<Step>): State
    decreases |schedule|
  {
    if schedule == [] then s else Run(Do(s, schedule[0]), schedule[1..])
  }

  function Calls(ids: seq<nat>): seq<Message> {
    seq(|ids|, i requires 0 <= i < |ids| => Call(ids[i]))
  }

  /** The message popped and not run: in hand, or the one the loop ended on. */
  function Unrun(w: Worker): seq<Message> {
    match w
    case Holding(m) => [m]
    case Finished(last) => last
    case _ => []
  }

  // ---------------------------------------------------------------- the invariant

  /** The loop is the only thread ever to wait, and it sleeps exactly when it is blocked. */
  ghost predicate QueueInv(s: State) {
    && Q.Inv(s.q)
    && s.q.waiting <= {WORKER} && s.q.notified <= {WORKER}
    && (s.worker.Blocked? <==> Q.Blocked(s.q, WORKER))
  }

  /** What was popped is what was run, in order, and at most one message more. */
  ghost predicate OrderInv(s: State) {
    && Q.Elements(s.q.popped) == Calls(s.started) + Unrun(s.worker)
    && (s.worker.Finished? ==> s.worker.last == [] || s.worker.last == [Close])
  }

  ghost predicate CloseInv(s: State) {
    && (s.mRun <==> s.closing + s.closed == 0)
    && (s.closed > 0 ==> Close in s.q.pushed)
    && (s.mRun ==> s.late == 0)
    && s.late <= 1
    && (s.late == 1 ==> s.worker.Running? || s.worker.Test? || s.worker.Finished?)
    && (s.worker == Finished([]) ==> !s.mRun)
  }

  ghost predicate Inv(s: State) { QueueInv(s) && OrderInv(s) && CloseInv(s) }

  lemma {:induction false} PushSafe(s: State, m: Message)
    requires Inv(s)
    ensures var q' := PushMessage(s.q, m);
            QueueInv(s.(q := q')) && OrderInv(s.(q := q')) && q'.pushed == s.q.pushed + [m] && q'.popped == s.q.popped
  {
    hide Q.Inv, Q.Elements, Calls, Unrun, CloseInv;
    Q.DoSafe(s.q, Q.Push(m, WORKER));
  }

  /** The message popped is the next in order. */
  lemma {:induction false} PopKeepsOrder(s: State, step: Q.Step<Message>)
    requires Inv(s) && (step == Q.Pop(WORKER) || step == Q.Resume(WORKER)) && (s.worker.Popping? || s.worker.Blocked?)
    requires step.Pop? ==> !Q.Blocked(s.q, WORKER)
    requires step.Resume? ==> WORKER in s.q.notified
    ensures var q' := Q.Do(s.q, step);
            Q.Elements(q'.popped) == Q.Elements(s.q.popped) + if s.q.queue == [] then [] else [s.q.queue[0]]
  {
    hide Q.Inv, CloseInv, Calls;
  }

  lemma {:induction false} PopSafe(s: State, step: Q.Step<Message>)
    requires Inv(s)
    requires (s.worker.Popping? && step == Q.Pop(WORKER)) || (WORKER in s.q.notified && step == Q.Resume(WORKER))
    ensures var q' := Q.Do(s.q, step);
            Inv(s.(q := q', worker := AfterPop(s.q, q')))
  {
    hide Calls, Q.Elements;
    Q.DoSafe(s.q, step);
    PopKeepsOrder(s, step);
  }

  lemma {:induction false} DoSafe(s: State, step: Step)
    requires Inv(s)
    ensures Inv(Do(s, step))
  {
    match step
    case Put(id) => PushSafe(s, Call(id));
    case ClearRun =>
    case PutClose => PushSafe(s, Close);
    case Spurious => Q.DoSafe(s.q, Q.SpuriousWake(WORKER));
    case WorkerMoves =>
      match s.worker {
        case Popping => PopSafe(s, Q.Pop(WORKER));
        case Blocked =>
          if WORKER in s.q.notified {
            PopSafe(s, Q.Resume(WORKER));
          }
        case Holding(m) =>
          if m.Call? {
            assert Calls(s.started + [m.id]) == Calls(s.started) + [m];
          }
        case _ =>
      }
  }

  lemma {:induction false} RunSafe(s: State, schedule: seq<Step>)
    requires Inv(s)
    ensures Inv(Run(s, schedule))
    decreases |schedule|
  {
    hide Inv, Do;
    if schedule != [] {
      DoSafe(s, schedule[0]);
      RunSafe(Do(s, schedule[0]), schedule[1..]);
    }
  }

  lemma {:induction false} Reachable(schedule: seq<Step>)
    ensures Inv(Run(Initial(), schedule))
  {
    assert Inv(Initial());
    RunSafe(Initial(), schedule);
  }

  // ---------------------------------------------------------------- the main results

  /** In every interleaving the messages run are the first messages put, in order. */
  lemma {:induction false} RunsAPrefixOfThePuts(schedule: seq<Step>)
    ensures var s := Run(Initial(), schedule);
            |s.started| <= |s.q.pushed| && Calls(s.started) == s.q.pushed[..|s.started|]
  {
    Reachable(schedule);
  }

  /** Once `m_run` is clear at most one more message is started. */
  lemma {:induction false} AtMostOneLateMessage(s: State, schedule: seq<Step>)
    requires Inv(s) && !s.mRun
    ensures |s.started| <= |Run(s, schedule).started| <= |s.started| + 1
    decreases |schedule|
  {
    LateCount(s, schedule);
    RunSafe(s, schedule);
  }

  lemma {:induction false} LateCount(s: State, schedule: seq<Step>)
    requires Inv(s) && !s.mRun
    ensures var r := Run(s, schedule);
            !r.mRun && s.late <= r.late && |r.started| - |s.started| == r.late - s.late
    decreases |schedule|
  {
    if schedule != [] {
      DoSafe(s, schedule[0]);
      LateCount(Do(s, schedule[0]), schedule[1..]);
    }
  }

  /** After a close the loop is not stuck: if it sleeps, it has been woken and will find a
      message. */
  lemma {:induction false} NotStuckAfterClose(s: State)
    requires Inv(s) && s.closed > 0 && s.worker.Blocked?
    ensures WORKER in s.q.notified && s.q.queue != []
  {
    PopFindsMessage(s);
    assert s.q.notified == {} || WORKER in s.q.notified;
  }

  /** While the loop has not come to a close message, that message is still queued. */
  lemma {:induction false} PopFindsMessage(s: State)
    requires Inv(s) && s.closed > 0 && (s.worker.Blocked? || s.worker.Popping?)
    ensures s.q.queue != []
  {
    assert Close !in Calls(s.started);
    assert s.q.pushed == Calls(s.started) + s.q.queue;
  }

  /** The steps the loop may still take once a close message has been put. */
  function StepsLeft(w: Worker): nat {
    match w
    case Finished(_) => 0
    case Test => 1
    case Running(_) => 2
    case Holding(_) => 3
    case _ => 4
  }

  function WorkerMovesIn(schedule: seq<Step>): nat {
    if schedule == [] then 0 else (if schedule[0].WorkerMoves? then 1 else 0) + WorkerMovesIn(schedule[1..])
  }

  lemma {:induction false} EveryMoveCounts(s: State)
    requires Inv(s) && s.closed > 0
    ensures s.worker.Finished? || StepsLeft(WorkerStep(s).worker) < StepsLeft(s.worker)
  {
    if s.worker.Blocked? {
      NotStuckAfterClose(s);
    } else if s.worker.Popping? {
      PopFindsMessage(s);
    }
  }

  /** After a close, whatever else happens, four steps of the loop end it: the close can
      join the thread. */
  lemma {:induction false} CloseEndsTheLoop(s: State, schedule: seq<Step>)
    requires Inv(s) && s.closed > 0 && WorkerMovesIn(schedule) >= StepsLeft(s.worker)
    ensures Run(s, schedule).worker.Finished?
    decreases |schedule|
  {
    if schedule != [] {
      EveryMoveCounts(s);
      DoSafe(s, schedule[0]);
      CloseEndsTheLoop(Do(s, schedule[0]), schedule[1..]);
    }
  }

  /** A spurious wake-up changes nothing for good: woken to an empty queue the loop goes back
      to sleep. */
  lemma {:induction false} SpuriousWakeIsHarmless(s: State)
    requires Inv(s) && s.worker.Blocked? && s.q.queue == [] && WORKER in s.q.waiting
    ensures WORKER in Do(s, Spurious).q.notified && Do(Do(s, Spurious), WorkerMoves) == s
  {
    hide Q.Elements, OrderInv, CloseInv;
    assert s.q.notified + {WORKER} - {WORKER} == s.q.notified && s.q.waiting - {WORKER} + {WORKER} == s.q.waiting;
  }

  // ---------------------------------------------------------------- the object

  /** What others do during one turn of the loop: what they put while it sleeps in its pop,
      wake-up by wake-up, what they put while its message runs, and whether they clear the
      flag before it is tested again. */
  datatype Turn = Turn(puts: seq<seq<Message>>, during: seq<Message>, clears: bool)

  /** How far the loop comes: what it runs, the close message it ends on if it does, what is
      then queued, all that was put meanwhile, and whether it has ended. */
  datatype Outcome = Outcome(ran: seq<nat>, last: seq<Message>, rest: seq<Message>, put: seq<Message>, ended: bool)

  function Naps(puts: seq<seq<Message>>): seq<Q.Nap<Message>> {
    seq(|puts|, i requires 0 <= i < |puts| => Q.Nap(puts[i], 0))
  }

  /** What is put on the queue until the loop wakes to a message, or all of it. */
  function UntilAwake(queue: seq<Message>, puts: seq<seq<Message>>): seq<Message>
    decreases |puts|
  {
    if queue != [] || puts == [] then [] else puts[0] + UntilAwake(puts[0], puts[1..])
  }

  lemma {:induction false} AwakeTo(queue: seq<Message>, puts: seq<seq<Message>>)
    ensures Q.Awake(queue, Naps(puts)) == queue + UntilAwake(queue, puts)
    decreases |puts|
  {
    if queue == [] && puts != [] {
      assert Naps(puts)[1..] == Naps(puts[1..]);
      assert puts[0][Min(0, |puts[0]|)..] == puts[0];
      AwakeTo(puts[0], puts[1..]);
    }
  }

  /** The course of the loop on a queue and a flag. Asleep after all of a turn's puts, or
      out of turns, it goes no further. */
  function Course(queue: seq<Message>, mRun: bool, turns: seq<Turn>): Outcome
    decreases |turns|
  {
    if !mRun then Outcome([], [], queue, [], true)
    else if turns == [] then Outcome([], [], queue, [], false)
    else
      var turn, put := turns[0], UntilAwake(queue, turns[0].puts);
      if queue + put == [] then Outcome([], [], [], put, false)
      else
        var msg, rest := (queue + put)[0], (queue + put)[1..];
        if msg.Close? then Outcome([], [msg], rest, put, true)
        else
          var o := Course(rest + turn.during, !turn.clears, turns[1..]);
          Outcome([msg.id] + o.ran, o.last, o.rest, put + turn.during + o.put, o.ended)
  }

  /** The queue to which the loop wakes in the first of its turns. */
  function Awake(queue: seq<Message>, turns: seq<Turn>): seq<Message>
    requires turns != []
  {
    queue + UntilAwake(queue, turns[0].puts)
  }

  /** A turn in which a message is run. */
  lemma {:induction false} TurnRuns(queue: seq<Message>, turns: seq<Turn>)
    requires turns != [] && Awake(queue, turns) != [] && Awake(queue, turns)[0].Call?
    ensures var turn, awake := turns[0], Awake(queue, turns);
            var o, more := Course(queue, true, turns), Course(awake[1..] + turn.during, !turn.clears, turns[1..]);
            && o.ran == [awake[0].id] + more.ran && o.last == more.last && o.rest == more.rest && o.ended == more.ended
            && o.put == UntilAwake(queue, turn.puts) + turn.during + more.put
  {
    hide UntilAwake;
  }

  /** A turn that is the last, asleep or with a close message. */
  lemma {:induction false} TurnEnds(queue: seq<Message>, turns: seq<Turn>)
    requires turns != [] && (Awake(queue, turns) == [] || Awake(queue, turns)[0].Close?)
    ensures var awake, put := Awake(queue, turns), UntilAwake(queue, turns[0].puts);
            Course(queue, true, turns)
              == if awake == [] then Outcome([], [], [], put, false) else Outcome([], [awake[0]], awake[1..], put, true)
  {
    hide UntilAwake;
  }

  lemma {:induction false} CourseStops(queue: seq<Message>, mRun: bool, turns: seq<Turn>)
    requires !mRun || turns == []
    ensures Course(queue, mRun, turns) == Outcome([], [], queue, [], !mRun)
  {
  }

  lemma {:induction false} CallFirst(id: nat, ids: seq<nat>)
    ensures Calls([id] + ids) == [Call(id)] + Calls(ids)
  {
  }

  lemma {:induction false} Joined(queue: seq<Message>, put: seq<Message>, during: seq<Message>, put': seq<Message>,
                                  msg: Message, rest: seq<Message>, later: seq<Message>)
    requires queue + put == [msg] + rest && rest + during + put' == later
    ensures queue + (put + during + put') == [msg] + later
  {
    assert queue + (put + during + put') == (queue + put) + (during + put');
    assert [msg] + rest + (during + put') == [msg] + (rest + during + put');
  }

  /** What was queued and what was put is what was run, the close message if the loop ended
      on one, and what is left. */
  ghost predicate Conserved(queue: seq<Message>, o: Outcome) { queue + o.put == Calls(o.ran) + o.last + o.rest }

  lemma {:induction false} TurnConserves(queue: seq<Message>, turns: seq<Turn>)
    requires turns != [] && Awake(queue, turns) != [] && Awake(queue, turns)[0].Call?
    requires var turn, awake := turns[0], Awake(queue, turns);
             Conserved(awake[1..] + turn.during, Course(awake[1..] + turn.during, !turn.clears, turns[1..]))
    ensures Conserved(queue, Course(queue, true, turns))
  {
    hide Course, UntilAwake, Calls;
    var turn, awake := turns[0], Awake(queue, turns);
    var more := Course(awake[1..] + turn.during, !turn.clears, turns[1..]);
    TurnRuns(queue, turns);
    CallFirst(awake[0].id, more.ran);
    Joined(queue, UntilAwake(queue, turn.puts), turn.during, more.put, awake[0], awake[1..],
           Calls(more.ran) + more.last + more.rest);
    var first := [awake[0]];
    assert first + Calls(more.ran) + more.last + more.rest == first + (Calls(more.ran) + more.last + more.rest);
  }

  /** Nothing is lost or reordered, and once the flag is clear in turn `k` no later message is
      run. */
  lemma {:induction false} CourseConserves(queue: seq<Message>, mRun: bool, turns: seq<Turn>, k: nat)
    ensures var o := Course(queue, mRun, turns);
            && queue + o.put == Calls(o.ran) + o.last + o.rest
            && (o.last == [] || (o.ended && o.last == [Close])) && (!mRun ==> o.ran == [])
            && (k < |turns| && turns[k].clears ==> |o.ran| <= k + 1)
            && (o.ended || |o.ran| == |turns| || o.rest == [])
    decreases |turns|
  {
    hide Course, UntilAwake, Calls;
    CallsOfNone();
    if !mRun || turns == [] {
      CourseStops(queue, mRun, turns);
    } else if Awake(queue, turns) == [] || Awake(queue, turns)[0].Close? {
      TurnEnds(queue, turns);
    } else {
      var turn, rest := turns[0], Awake(queue, turns)[1..];
      CourseConserves(rest + turn.during, !turn.clears, turns[1..], if k > 0 then k - 1 else 0);
      TurnConserves(queue, turns);
      TurnRuns(queue, turns);
    }
  }

  lemma {:induction false} CallsOfNone()
    ensures Calls([]) == []
  {
  }

  class CLogicTask {
    const queue: Q.CMessageQueue<Message>
    var mRun: bool

    constructor ()
      ensures fresh(queue) && queue.Valid() && queue.queue == [] && !mRun
    {
      queue := new Q.CMessageQueue<Message>();
      mRun := false;
    }

    method Put(msg: Message)
      requires queue.Valid()
      modifies queue
      ensures queue.Valid() && queue.queue == old(queue.queue) + [msg]
    {
      queue.Push(msg);
    }

    /** What the starting thread does before the loop begins. */
    method Start()
      modifies this`mRun
      ensures mRun
    {
      mRun := true;
    }

    /** Clears the flag and puts the close message; joining the thread is not part of it. */
    method Close()
      requires queue.Valid()
      modifies this`mRun, queue
      ensures queue.Valid() && !mRun && queue.queue == old(queue.queue) + [Message.Close]
    {
      mRun := false;
      Put(Message.Close);
    }

    method PutAll(msgs: seq<Message>)
      requires queue.Valid()
      modifies queue
      ensures queue.Valid() && queue.queue == old(queue.queue) + msgs
    {
      for i := 0 to |msgs|
        invariant queue.Valid() && queue.queue == old(queue.queue) + msgs[..i]
      {
        Put(msgs[i]);
      }
    }

    /** The loop, for as many turns as are given. */
    method Svc(turns: seq<Turn>) returns (ran: seq<nat>, last: seq<Message>, ended: bool)
      requires queue.Valid()
      modifies this`mRun, queue
      ensures queue.Valid()
      ensures var o := Course(old(queue.queue), old(mRun), turns);
              ran == o.ran && last == o.last && ended == o.ended && queue.queue == o.rest
    {
      hide Course, UntilAwake, Naps, Q.Awake;
      assert turns[0..] == turns;
      ran, last, ended := [], [], false;
      ghost var whole := Course(queue.queue, mRun, turns);
      var i := 0;
      while mRun && i < |turns|
        invariant 0 <= i <= |turns| && queue.Valid()
        invariant OnCourse(whole, ran, Course(queue.queue, mRun, turns[i..]))
      {
        ghost var before, left := queue.queue, turns[i..];
        AwakeTo(before, turns[i].puts);
        if Awake(before, left) == [] || Awake(before, left)[0].Close? {
          TurnEnds(before, left);
        } else {
          TurnRuns(before, left);
        }
        var msg := queue.Pop(true, Naps(turns[i].puts));
        if msg == None {
          return;
        }
        if msg.value.Close? {
          return ran, [msg.value], true;
        }
        ran := ran + [msg.value.id];
        PutAll(turns[i].during);
        mRun := !turns[i].clears;
        assert left[1..] == turns[i + 1..];
        i := i + 1;
      }
      CourseStops(queue.queue, mRun, turns[i..]);
      ended := !mRun;
    }
  }

  /** With `ran` run so far and `o` to come, the loop ends as `whole` says. */
  ghost predicate OnCourse(whole: Outcome, ran: seq<nat>, o: Outcome) {
    whole.ran == ran + o.ran && whole.last == o.last && whole.rest == o.rest && whole.ended == o.ended
  }

  // ---------------------------------------------------------------- the course is a run

  /** A close message is put only by a closer, who has cleared the flag before. */
  predicate Fits(turn: Turn) {
    (Close in turn.during || exists i | 0 <= i < |turn.puts| :: Close in turn.puts[i]) ==> turn.clears
  }

  lemma {:induction false} RunAppend(s: State, p: seq<Step>, q: seq<Step>)
    ensures Run(s, p + q) == Run(Run(s, p), q)
    decreases |p|
  {
    hide Do;
    if p == [] {
      assert p + q == q;
    } else {
      assert (p + q)[1..] == p[1..] + q;
      RunAppend(Do(s, p[0]), p[1..], q);
    }
  }

  lemma {:induction false} OneStep(s: State, step: Step)
    ensures Run(s, [step]) == Do(s, step)
  {
    hide Do;
    assert [step][1..] == [];
  }

  /** Messages have been put, and the loop has not moved; if it sleeps, it has been woken. */
  ghost predicate HavePut(s: State, s': State, msgs: seq<Message>) {
    && Inv(s') && s'.q.queue == s.q.queue + msgs && s'.worker == s.worker && s'.started == s.started
    && (s'.mRun <==> s.mRun && Close !in msgs)
    && (msgs != [] && s.worker.Blocked? ==> WORKER in s'.q.notified)
  }

  lemma {:induction false} PutCall(s: State, id: nat)
    requires Inv(s)
    ensures HavePut(s, Do(s, Put(id)), [Call(id)])
  {
    DoSafe(s, Put(id));
    hide Q.Elements, OrderInv, CloseInv;
  }

  lemma {:induction false} PutCloseMessage(s: State)
    requires Inv(s)
    ensures HavePut(s, Do(Do(s, ClearRun), PutClose), [Close])
  {
    DoSafe(s, ClearRun);
    DoSafe(Do(s, ClearRun), PutClose);
    hide Q.Elements, OrderInv;
  }

  lemma {:induction false} PutOne(s: State, m: Message) returns (p: seq<Step>)
    requires Inv(s)
    ensures HavePut(s, Run(s, p), [m])
  {
    hide Do, Inv, HavePut;
    if m.Call? {
      p := [Put(m.id)];
      PutCall(s, m.id);
      OneStep(s, Put(m.id));
    } else {
      p := [ClearRun] + [PutClose];
      PutCloseMessage(s);
      OneStep(s, ClearRun);
      OneStep(Do(s, ClearRun), PutClose);
      RunAppend(s, [ClearRun], [PutClose]);
    }
  }

  lemma {:induction false} PutMany(s: State, msgs: seq<Message>) returns (p: seq<Step>)
    requires Inv(s)
    ensures HavePut(s, Run(s, p), msgs)
    decreases |msgs|
  {
    if msgs == [] {
      p := [];
    } else {
      var n := |msgs| - 1;
      var first := PutMany(s, msgs[..n]);
      var last := PutOne(Run(s, first), msgs[n]);
      RunAppend(s, first, last);
      p := first + last;
      hide Inv, Run;
      assert msgs == msgs[..n] + [msgs[n]];
    }
  }

  /** The loop has popped the front of the queue, or sleeps on an empty one. */
  ghost predicate HasPopped(s: State, s': State, awake: seq<Message>) {
    && Inv(s') && s'.started == s.started && (s'.mRun ==> s.mRun)
    && if awake == [] then s'.worker.Blocked? && s'.q.queue == [] && WORKER !in s'.q.notified
       else s'.worker == Holding(awake[0]) && s'.q.queue == awake[1..]
  }

  lemma {:induction false} TakesFront(s: State)
    requires Inv(s) && (s.worker.Popping? || (s.worker.Blocked? && WORKER in s.q.notified))
    ensures HasPopped(s, WorkerStep(s), s.q.queue) && WorkerStep(s).mRun == s.mRun
  {
    DoSafe(s, WorkerMoves);
    hide Q.Elements, OrderInv, CloseInv;
  }

  /** The sleep of the loop: others put until it wakes to a message. */
  lemma {:induction false} SleepIsRun(s: State, puts: seq<seq<Message>>) returns (p: seq<Step>)
    requires Inv(s) && s.worker.Blocked? && s.q.queue == [] && WORKER !in s.q.notified
    ensures HasPopped(s, Run(s, p), UntilAwake([], puts))
    ensures (forall i | 0 <= i < |puts| :: Close !in puts[i]) ==> Run(s, p).mRun == s.mRun
    decreases |puts|
  {
    hide Inv, Do;
    if puts == [] {
      p := [];
    } else if puts[0] == [] {
      p := SleepIsRun(s, puts[1..]);
    } else {
      var put := PutMany(s, puts[0]);
      var s1 := Run(s, put);
      assert s1.q.queue == puts[0];
      TakesFront(s1);
      OneStep(s1, WorkerMoves);
      RunAppend(s, put, [WorkerMoves]);
      assert Do(s1, WorkerMoves) == WorkerStep(s1) by { MovesIs(s1); }
      p := put + [WorkerMoves];
    }
  }

  lemma {:induction false} MovesIs(s: State)
    ensures Do(s, WorkerMoves) == WorkerStep(s)
  {
  }

  lemma {:induction false} PopIsRun(s: State, puts: seq<seq<Message>>) returns (p: seq<Step>)
    requires Inv(s) && s.worker.Popping?
    ensures HasPopped(s, Run(s, p), s.q.queue + UntilAwake(s.q.queue, puts))
    ensures (forall i | 0 <= i < |puts| :: Close !in puts[i]) ==> Run(s, p).mRun == s.mRun
  {
    hide Inv, Do, WorkerStep;
    TakesFront(s);
    MovesIs(s);
    OneStep(s, WorkerMoves);
    p := [WorkerMoves];
    var s1 := WorkerStep(s);
    if s.q.queue == [] {
      var sleep := SleepIsRun(s1, puts);
      RunAppend(s, p, sleep);
      p := p + sleep;
    } else {
      assert UntilAwake(s.q.queue, puts) == [];
      assert s.q.queue + [] == s.q.queue;
    }
  }

  /** The rest of a turn in which a message is run. */
  lemma {:induction false} CallIsRun(s: State, during: seq<Message>, clears: bool) returns (p: seq<Step>)
    requires Inv(s) && s.worker.Holding? && s.worker.m.Call?
    ensures var r := Run(s, p);
            && Inv(r) && r.worker.Test? && r.started == s.started + [s.worker.m.id] && r.q.queue == s.q.queue + during
            && (r.mRun <==> s.mRun && Close !in during && !clears)
  {
    var s1 := WorkerStep(s);
    DoSafe(s, WorkerMoves);
    OneStep(s, WorkerMoves);
    assert s1.worker.Running? && s1.q == s.q && s1.mRun == s.mRun;
    var put := PutMany(s1, during);
    var s2 := Run(s1, put);
    var clear := if clears then [ClearRun] else [];
    DoSafe(s2, ClearRun);
    OneStep(s2, ClearRun);
    var s3 := Run(s2, clear);
    assert Inv(s3) && s3.worker == s1.worker && s3.q == s2.q && s3.started == s1.started;
    DoSafe(s3, WorkerMoves);
    OneStep(s3, WorkerMoves);
    hide Inv, Run, Do;
    RunAppend(s, [WorkerMoves], put);
    RunAppend(s, [WorkerMoves] + put, clear);
    RunAppend(s, [WorkerMoves] + put + clear, [WorkerMoves]);
    p := [WorkerMoves] + put + clear + [WorkerMoves];
  }

  /** The machine has gone as far as a course says. */
  ghost predicate Follows(s: State, r: State, o: Outcome) {
    && Inv(r) && r.started == s.started + o.ran && r.q.queue == o.rest
    && (r.worker.Finished? <==> o.ended) && (o.ended ==> r.worker == Finished(o.last))
  }

  /** A turn that is the last ends the loop or leaves it asleep. */
  lemma {:induction false} LastTurnIsRun(s: State, turns: seq<Turn>) returns (p: seq<Step>)
    requires Inv(s) && s.worker.Popping? && turns != []
    requires Awake(s.q.queue, turns) == [] || Awake(s.q.queue, turns)[0].Close?
    ensures Follows(s, Run(s, p), Course(s.q.queue, true, turns))
  {
    hide Inv, Do, UntilAwake, Course;
    p := PopIsRun(s, turns[0].puts);
    TurnEnds(s.q.queue, turns);
    if Awake(s.q.queue, turns) != [] {
      var s1 := Run(s, p);
      DoSafe(s1, WorkerMoves);
      MovesIs(s1);
      OneStep(s1, WorkerMoves);
      RunAppend(s, p, [WorkerMoves]);
      p := p + [WorkerMoves];
    }
  }

  /** A turn in which a message is run leads to the next. */
  lemma {:induction false} TurnIsRun(s: State, turns: seq<Turn>) returns (p: seq<Step>)
    requires Inv(s) && s.worker.Popping? && s.mRun && turns != [] && Fits(turns[0])
    requires Awake(s.q.queue, turns) != [] && Awake(s.q.queue, turns)[0].Call?
    ensures var r, awake := Run(s, p), Awake(s.q.queue, turns);
            && Inv(r) && r.worker.Test? && r.started == s.started + [awake[0].id]
            && r.q.queue == awake[1..] + turns[0].during && r.mRun == !turns[0].clears
  {
    hide Inv, Do, UntilAwake;
    var pop := PopIsRun(s, turns[0].puts);
    var s1 := Run(s, pop);
    var call := CallIsRun(s1, turns[0].during, turns[0].clears);
    RunAppend(s, pop, call);
    p := pop + call;
  }

  /** Every course of the object's loop is a run of the step machine, as long as close messages
      come from closers. */
  lemma {:induction false} CourseIsRun(s: State, turns: seq<Turn>) returns (schedule: seq<Step>)
    requires Inv(s) && s.worker.Test? && forall i | 0 <= i < |turns| :: Fits(turns[i])
    ensures Follows(s, Run(s, schedule), Course(s.q.queue, s.mRun, turns))
    decreases |turns|
  {
    hide Inv, Do, UntilAwake, Course, Fits;
    CourseStops(s.q.queue, s.mRun, []);
    if s.mRun && turns == [] {
      schedule := [];
    } else {
      var s1 := WorkerStep(s);
      DoSafe(s, WorkerMoves);
      MovesIs(s);
      OneStep(s, WorkerMoves);
      schedule := [WorkerMoves];
      if !s.mRun {
        CourseStops(s.q.queue, s.mRun, turns);
      } else if Awake(s1.q.queue, turns) == [] || Awake(s1.q.queue, turns)[0].Close? {
        var last := LastTurnIsRun(s1, turns);
        RunAppend(s, schedule, last);
        schedule := schedule + last;
      } else {
        var turn := TurnIsRun(s1, turns);
        var rest := CourseIsRun(Run(s1, turn), turns[1..]);
        TurnRuns(s.q.queue, turns);
        RunAppend(s, schedule, turn);
        RunAppend(s, schedule + turn, rest);
        schedule := schedule + turn + rest;
      }
    }
  }
}
