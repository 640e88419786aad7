/**
  Adding timers the way the template overloads of `addTimer` and `addTimer_loop` do: the
  push holds only the mutex of the queue, and the wake-up state is set and the scheduler
  notified afterwards, holding nothing. So an addition is three steps, and each of them may
  fall between the scheduler's own steps, also while it holds `mtx`.

  What holds of every interleaving nevertheless is in `Sound`: no timer fires before its
  time unless its wait was cut short with no addition on record, and a one-shot timer fires
  at most once. That the timer popped is the timer run holds exactly as long as no timer
  with a smaller key is pushed between looking at the top and popping it; the first time
  that happens a timer is lost.
 */
module TimerRaces {
  import opened TimerScheduler
  import TimerTheorems

  /** How far a call that adds a timer has got. */
  datatype Phase = Pushed | Stored

  /** `adders` has the calls under way. `held` says that the scheduler still holds `mtx`
      where the machine of TimerScheduler has it free: it has found the queue empty and is
      about to sleep, or it has released the queue after a timer's turn and is about to take
      back the wake-up state. `since` has the timers pushed since the scheduler last looked
      at the top; `intact` says that every timer popped so far was the timer run. These two
      are only recorded, except that the queue of an intact manager is in order. */
  datatype Races = Races(t: State, adders: map<Id, Phase>, held: bool, since: set<Id>, intact: bool)

  datatype Event =
    | Push(id: Id, timer: Timer, order: seq<Id>)
    | Store(id: Id)
    | NotifyOne(id: Id)
    | Other(step: Step)

  function Start(now: nat): Races { Races(Initial(now), map[], false, {}, true) }

  /** Does the scheduler hold the mutex of the queue? */
  predicate QueueHeld(c: Scheduler) { c.Popped? || c.Calling? || c.Called? || c.PushBack? }

  /** The orders in which the queue may be left; once a queued timer has changed its key
      there is no telling. */
  predicate Leaves(intact: bool, order: seq<Id>, content: seq<Id>, timers: map<Id, Timer>) {
    multiset(order) == multiset(content) && (intact ==> Arranges(order, content, timers))
  }

  /** A new timer comes on top only with a smaller key than the top has. */
  predicate Sifted(order: seq<Id>, heap: seq<Id>, id: Id, timers: map<Id, Timer>) {
    order != [] && heap != [] && heap[0] in timers && id in timers ==>
      order[0] == if timers[id].Key() < timers[heap[0]].Key() then id else heap[0]
  }

  predicate CanPush(r: Races, id: Id, timer: Timer, order: seq<Id>) {
    var timers := r.t.timers[id := timer];
    && !QueueHeld(r.t.sched) && id !in r.t.timers && timer.claim.Free?
    && Leaves(r.intact, order, r.t.heap + [id], timers) && (r.intact ==> Sifted(order, r.t.heap, id, timers))
  }

  /** Pops the top of the queue, whichever timer that is, and goes on with the one measured. */
  function PopRace(r: Races, order: seq<Id>): Races
    requires r.t.sched.Expired?
  {
    var s := r.t;
    if !s.run then r.(t := s.(sched := Exited))
    else if s.heap != [] && Leaves(r.intact, order, s.heap[1..], s.timers) then
      r.(t := s.(heap := order, sched := Popped(s.sched.tmp, s.sched.spurious)), intact := r.intact && s.heap[0] == s.sched.tmp)
    else r
  }

  function PushBackRace(r: Races, order: seq<Id>): Races
    requires r.t.sched.PushBack?
  {
    var s, tmp := r.t, r.t.sched.tmp;
    if tmp in s.timers && s.timers[tmp].kind.Loop? && s.timers[tmp].callback then
      if Leaves(r.intact, order, s.heap + [tmp], s.timers) then r.(t := s.(heap := order, sched := Test), held := true) else r
    else r.(t := s.(sched := Test), held := true)
  }

  /** What is left to do of a step that the machine of TimerScheduler takes at once. */
  function Release(r: Races): Races {
    var s := r.t;
    r.(t := match s.sched
            case Test => s.(added := false)
            case IdleWait(_, _) => s.(sched := IdleWait(s.now + DEFAULT_WAIT, false))
            case _ => s,
       held := false)
  }

  function MoveRace(r: Races, order: seq<Id>): Races {
    var s := r.t;
    if r.held then Release(r)
    else
      match s.sched
      case Entering => r.(t := Move(s, []), held := s.heap == [])
      case Ready => r.(t := Measure(s), since := {})
      case TimedWait(tmp, deadline, notified) =>
        if notified || s.now >= deadline then r.(t := EndWait(s, tmp, s.now < deadline)) else r
      case Expired(_, _) => PopRace(r, order)
      case PushBack(_) => PushBackRace(r, order)
      case _ => r.(t := Move(s, []))
  }

  /** A wait ends without a notification and before its time. */
  function WakeRace(r: Races): Races {
    if r.held || !r.t.sched.Waits() then r
    else if r.t.sched.TimedWait? then r.(t := EndWait(r.t, r.t.sched.tmp, r.t.now < r.t.sched.deadline))
    else r.(t := r.t.(sched := Ready))
  }

  function Happen(r: Races, e: Event): Races {
    var s := r.t;
    match e
    case Push(id, timer, order) =>
      if CanPush(r, id, timer, order) then
        r.(t := s.(timers := s.timers[id := timer], heap := order), adders := r.adders[id := Pushed], since := r.since + {id})
      else r
    case Store(id) =>
      if id in r.adders && r.adders[id].Pushed? then r.(t := s.(added := true), adders := r.adders[id := Stored]) else r
    case NotifyOne(id) =>
      if id in r.adders && r.adders[id].Stored? then
        r.(t := if r.held then s else s.(sched := Notify(s.sched)), adders := r.adders - {id})
      else r
    case Other(step) =>
      match step {
        case Moves(order) => MoveRace(r, order)
        case SpuriousWake => WakeRace(r)
        case Add(_, _, _) => r
        case Close => if r.held then r else r.(t := Do(s, Close))
        case _ => r.(t := Do(s, step))
      }
  }

  function Course(r: Races, events: seq<Event>): Races
    decreases |events|
  {
    if events == [] then r else Course(Happen(r, events[0]), events[1..])
  }

  // ---------------------------------------------------------------- what always holds

  /** The timer measured is queued until a timer is popped, and a wait reaches to its key
      unless it is cut short. */
  ghost predicate Watch(s: State) {
    match s.sched
    case Measured(tmp, left) => tmp in s.heap && tmp in s.timers && s.now + left >= s.timers[tmp].Key()
    case TimedWait(tmp, deadline, _) => tmp in s.heap && tmp in s.timers && deadline >= s.timers[tmp].Key()
    case Expired(tmp, cut) => tmp in s.heap && tmp in s.timers && (!cut ==> s.now >= s.timers[tmp].Key())
    case _ => SchedulerInv(s)
  }

  ghost predicate Queued(s: State) { forall id | id in s.heap :: id in s.timers }

  ghost predicate Logged(s: State) { FiredInv(s) && OnceInv(s) && LogInv(s) }

  ghost predicate Sound(r: Races) {
    && Queued(r.t) && Watch(r.t) && Logged(r.t)
    && (r.held ==> r.t.sched.Test? || r.t.sched.IdleWait?)
  }

  /** However it is ordered, the queue holds the timers it should. */
  lemma {:induction false} LeavesContent(intact: bool, order: seq<Id>, content: seq<Id>, timers: map<Id, Timer>)
    ensures Leaves(intact, order, content, timers) ==> forall id :: id in order <==> id in content
  {
    forall id
      ensures Leaves(intact, order, content, timers) ==> (id in order <==> id in content)
    {
      assert id in order <==> id in multiset(order);
      assert id in content <==> id in multiset(content);
    }
  }

  lemma {:induction false} PushSound(r: Races, id: Id, timer: Timer, order: seq<Id>)
    requires Sound(r) && CanPush(r, id, timer, order)
    ensures Sound(Happen(r, Push(id, timer, order)))
  {
    hide FiredInv, OnceInv, LogInv, Arranges, Sifted;
    var s, s' := r.t, Happen(r, Push(id, timer, order)).t;
    LeavesContent(r.intact, order, s.heap + [id], s'.timers);
    assert Queued(s') && Watch(s');
    hide Queued, Watch;
    LogUnaffected(s, s');
  }

  /** A step that changes no timer and starts no callback keeps the log. */
  lemma {:induction false} TimersAlone(s: State, s': State)
    requires Logged(s) && s'.timers == s.timers && s'.fired == s.fired && s'.now == s.now
    requires !s.sched.Calling? && !s.sched.Called?
    ensures Logged(s')
  {
    hide FiredInv, OnceInv, LogInv;
    LogUnaffected(s, s');
  }

  lemma {:induction false} FireSound(r: Races, order: seq<Id>)
    requires Sound(r) && r.t.sched.Popped?
    ensures Sound(MoveRace(r, order))
  {
    var s, tmp := r.t, r.t.sched.tmp;
    assert MoveRace(r, order) == r.(t := Fire(s, tmp, s.sched.spurious));
    hide MoveRace, Fire, EachFiring, LoopSpacing, OnceInv, LogInv;
    FireKeepsEach(s);
    FireKeepsSpacing(s);
    FireKeepsOnce(s);
    FireWatched(s);
  }

  lemma {:induction false} FireWatched(s: State)
    requires Queued(s) && Watch(s) && s.sched.Popped?
    ensures var s' := Fire(s, s.sched.tmp, s.sched.spurious);
            Queued(s') && Watch(s')
  {
  }

  lemma {:induction false} MeasureSound(r: Races, order: seq<Id>)
    requires Sound(r) && r.t.sched.Ready?
    ensures Sound(MoveRace(r, order))
  {
    hide FiredInv, OnceInv, LogInv;
    var s, s' := r.t, Measure(r.t);
    assert Queued(s') && Watch(s');
    assert MoveRace(r, order) == r.(t := s', since := {});
    hide MoveRace, Queued, Watch;
    LogUnaffected(s, s');
  }

  lemma {:induction false} AfterCallSound(r: Races, order: seq<Id>)
    requires Sound(r) && (r.t.sched.Calling? || r.t.sched.Called?)
    ensures Sound(MoveRace(r, order))
  {
    hide FiredInv, OnceInv, LogInv, Fire, Measure, Arranges;
    var s, s' := r.t, Move(r.t, []);
    assert MoveRace(r, order) == r.(t := s');
    assert Queued(s') && Watch(s');
    hide MoveRace, Queued, Watch;
    LogUnaffected(s, s');
  }

  lemma {:induction false} ReorderSound(r: Races, order: seq<Id>)
    requires Sound(r) && (r.t.sched.Expired? || r.t.sched.PushBack?)
    ensures Sound(MoveRace(r, order))
  {
    hide Logged, Leaves;
    var s := r.t;
    if s.sched.PushBack? {
      LeavesContent(r.intact, order, s.heap + [s.sched.tmp], s.timers);
    } else if s.heap != [] {
      LeavesContent(r.intact, order, s.heap[1..], s.timers);
    }
    TimersAlone(s, MoveRace(r, order).t);
  }

  /** The other moves: testing, beginning and ending waits, stopping. */
  lemma {:induction false} ControlSound(r: Races, order: seq<Id>)
    requires Sound(r)
    requires var c := r.t.sched;
             r.held || c.Off? || c.Test? || c.Entering? || c.Measured? || c.Waits() || c.Exited?
    ensures Sound(MoveRace(r, order))
  {
    hide Logged, Fire, Measure, Arranges;
    TimersAlone(r.t, MoveRace(r, order).t);
  }

  lemma {:induction false} MoveSound(r: Races, order: seq<Id>)
    requires Sound(r)
    ensures Sound(MoveRace(r, order))
  {
    hide Queued, Watch, Logged, MoveRace;
    match r.t.sched
    case Ready => MeasureSound(r, order);
    case Expired(_, _) => ReorderSound(r, order);
    case Popped(_, _) => FireSound(r, order);
    case Calling(_) => AfterCallSound(r, order);
    case Called(_) => AfterCallSound(r, order);
    case PushBack(_) => ReorderSound(r, order);
    case _ => ControlSound(r, order);
  }

  lemma {:induction false} OtherSound(r: Races, step: Step)
    requires Sound(r) && !step.Moves?
    ensures Sound(Happen(r, Other(step)))
  {
    hide FiredInv, OnceInv, LogInv, Arranges, Move, MoveRace, CanPush;
    var s, s' := r.t, Happen(r, Other(step)).t;
    assert Queued(s') && Watch(s');
    hide Queued, Watch;
    LogUnaffected(s, s');
  }

  lemma {:induction false} HappenSound(r: Races, e: Event)
    requires Sound(r)
    ensures Sound(Happen(r, e))
  {
    hide Queued, Logged, MoveRace, CanPush;
    match e
    case Push(id, timer, order) =>
      if CanPush(r, id, timer, order) {
        PushSound(r, id, timer, order);
      }
    case Other(step) =>
      if step.Moves? {
        MoveSound(r, step.order);
      } else {
        OtherSound(r, step);
      }
    case _ => AdderSound(r, e);
  }

  lemma {:induction false} AdderSound(r: Races, e: Event)
    requires Sound(r) && (e.Store? || e.NotifyOne?)
    ensures Sound(Happen(r, e))
  {
    hide FiredInv, OnceInv, LogInv;
    var s, s' := r.t, Happen(r, e).t;
    assert Queued(s') && Watch(s');
    hide Queued, Watch;
    LogUnaffected(s, s');
  }

  lemma {:induction false} CourseSound(r: Races, events: seq<Event>)
    requires Sound(r)
    ensures Sound(Course(r, events))
    decreases |events|
  {
    hide Sound, Happen;
    if events != [] {
      HappenSound(r, events[0]);
      CourseSound(Happen(r, events[0]), events[1..]);
    }
  }

  lemma {:induction false} EveryCourseIsSound(now: nat, events: seq<Event>)
    ensures Sound(Course(Start(now), events))
  {
    assert Sound(Start(now));
    CourseSound(Start(now), events);
  }

  // ---------------------------------------------------------------- never early, and once

  /** In every interleaving: no timer fires before its start plus its interval unless the
      wait before it was cut short, and firings of a loop timer are an interval apart. */
  lemma {:induction false} NeverEarlyUnlessCut(now: nat, events: seq<Event>, i: nat, j: nat)
    ensures var s := Course(Start(now), events).t;
            && (i < |s.fired| && !s.fired[i].spurious ==> s.fired[i].due <= s.fired[i].time)
            && (i < j < |s.fired| && s.fired[i].id == s.fired[j].id && !s.fired[j].spurious
                && s.fired[i].id in s.timers && s.timers[s.fired[i].id].kind.Loop? ==>
                  s.fired[i].time + s.timers[s.fired[i].id].last <= s.fired[j].time)
  {
    hide Queued, Watch, OnceInv, LogInv;
    EveryCourseIsSound(now, events);
  }

  /** In every interleaving a one-shot timer has fired once if it found its callback when its
      turn came, and not otherwise. */
  lemma {:induction false} OneShotFiresOnce(now: nat, events: seq<Event>, id: Id)
    ensures var s := Course(Start(now), events).t;
            id in s.timers && s.timers[id].kind.Once? ==>
              Firings(s.fired, id) == if s.timers[id].claim == ByTurn(true) then 1 else 0
  {
    hide Queued, Watch, FiredInv, LogInv, Firings;
    EveryCourseIsSound(now, events);
  }

  lemma {:induction false} SpentStep(r: Races, e: Event, id: Id)
    requires Sound(r) && TimerTheorems.Spent(r.t, id)
    ensures TimerTheorems.Spent(Happen(r, e).t, id) && Firings(Happen(r, e).t.fired, id) == Firings(r.t.fired, id)
  {
    hide Queued, Logged, Leaves, Sifted, Firings, MoveRace, WakeRace, EndWait, Move, Arranges;
    match e
    case Other(step) =>
      if step.Moves? {
        MoveSpent(r, step.order, id);
      } else if step.SpuriousWake? {
        WakeSpent(r);
      }
    case _ =>
  }

  lemma {:induction false} WakeSpent(r: Races)
    ensures WakeRace(r).t.timers == r.t.timers && WakeRace(r).t.fired == r.t.fired
  {
  }

  lemma {:induction false} MoveSpent(r: Races, order: seq<Id>, id: Id)
    requires Sound(r) && TimerTheorems.Spent(r.t, id)
    ensures var s' := MoveRace(r, order).t;
            TimerTheorems.Spent(s', id) && Firings(s'.fired, id) == Firings(r.t.fired, id)
  {
    hide Queued, Logged, Arranges, Leaves, Firings, Fire;
    if r.t.sched.Popped? {
      FireSpent(r.t, id);
    } else {
      QuietSpent(r, order, id);
    }
  }

  lemma {:induction false} QuietSpent(r: Races, order: seq<Id>, id: Id)
    requires TimerTheorems.Spent(r.t, id) && !r.t.sched.Popped?
    ensures TimerTheorems.Spent(MoveRace(r, order).t, id) && MoveRace(r, order).t.fired == r.t.fired
  {
    hide Fire, PopRace, PushBackRace;
    if r.t.sched.Expired? || r.t.sched.PushBack? {
      ReorderKeepsTimers(r, order);
    } else if !r.t.sched.Ready? && !r.t.sched.Called? {
      assert MoveRace(r, order).t.timers == r.t.timers;
    }
  }

  lemma {:induction false} ReorderKeepsTimers(r: Races, order: seq<Id>)
    ensures r.t.sched.Expired? ==> PopRace(r, order).t.timers == r.t.timers && PopRace(r, order).t.fired == r.t.fired
    ensures r.t.sched.PushBack? ==>
              PushBackRace(r, order).t.timers == r.t.timers && PushBackRace(r, order).t.fired == r.t.fired
  {
    hide Leaves;
  }

  lemma {:induction false} FireSpent(s: State, id: Id)
    requires s.sched.Popped? && s.sched.tmp in s.timers && TimerTheorems.Spent(s, id)
    ensures var s' := Fire(s, s.sched.tmp, s.sched.spurious);
            TimerTheorems.Spent(s', id) && Firings(s'.fired, id) == Firings(s.fired, id)
  {
    hide Firings;
    FiringsAppend(s.fired, Firing(s.sched.tmp, s.now, s.timers[s.sched.tmp].Key(), s.sched.spurious), id);
  }

  /** A timer without the right to run never starts again, however additions interleave. */
  lemma {:induction false} SpentNeverFires(r: Races, events: seq<Event>, id: Id)
    requires Sound(r) && TimerTheorems.Spent(r.t, id)
    ensures Firings(Course(r, events).t.fired, id) == Firings(r.t.fired, id)
    decreases |events|
  {
    hide Sound, TimerTheorems.Spent, Happen, Firings;
    if events != [] {
      HappenSound(r, events[0]);
      SpentStep(r, events[0], id);
      SpentNeverFires(Happen(r, events[0]), events[1..], id);
    }
  }

  /** So a cancel that wins the claim is final here too. */
  lemma {:induction false} CancelIsFinal(r: Races, id: Id, events: seq<Event>)
    requires Sound(r) && id in r.t.timers && r.t.timers[id].claim.Free?
    ensures var c := Course(Happen(r, Other(Cancel(id))), events).t;
            && Firings(c.fired, id) == Firings(r.t.fired, id)
            && (r.t.timers[id].kind.Once? ==> Firings(c.fired, id) == 0)
  {
    hide Firings;
    HappenSound(r, Other(Cancel(id)));
    SpentNeverFires(Happen(r, Other(Cancel(id))), events, id);
  }

  // ---------------------------------------------------------------- the right timer

  /** The timer measured is on top, or a timer pushed since with a smaller key is. */
  ghost predicate Window(r: Races) {
    var s := r.t;
    match s.sched
    case Measured(tmp, _) => OnTop(r, tmp)
    case TimedWait(tmp, _, _) => OnTop(r, tmp)
    case Expired(tmp, _) => OnTop(r, tmp)
    case _ => true
  }

  ghost predicate OnTop(r: Races, tmp: Id) {
    var s := r.t;
    && s.heap != [] && tmp in s.timers && tmp !in r.since && (forall id | id in r.since :: id in s.heap)
    && (forall id | id in s.heap && id in s.timers && s.timers[id].Key() < s.timers[tmp].Key() :: id in r.since)
    && (s.heap[0] == tmp
        || (s.heap[0] in r.since && s.heap[0] in s.timers && s.timers[s.heap[0]].Key() < s.timers[tmp].Key()))
  }

  ghost predicate InOrder(r: Races) { r.intact ==> HeapInv(r.t) && FateInv(r.t) && Window(r) }

  lemma {:induction false} PushInOrder(r: Races, id: Id, timer: Timer, order: seq<Id>)
    requires InOrder(r) && CanPush(r, id, timer, order) && r.intact
    ensures InOrder(Happen(r, Push(id, timer, order)))
  {
    var r' := Happen(r, Push(id, timer, order));
    PushKeepsWindow(r, id, timer, order);
    hide HeapInv, FateInv, Window, Arranges, Sifted;
    NewIsNotQueued(r.t, id);
    PushKeepsQueue(r.t, r'.t, id);
  }

  lemma {:induction false} NewIsNotQueued(s: State, id: Id)
    requires HeapInv(s) && id !in s.timers
    ensures id !in s.heap && id !in Hand(s.sched)
  {
  }

  lemma {:induction false} PushKeepsWindow(r: Races, id: Id, timer: Timer, order: seq<Id>)
    requires HeapInv(r.t) && Window(r) && CanPush(r, id, timer, order) && r.intact
    ensures Window(Happen(r, Push(id, timer, order)))
  {
    hide Arranges, FateInv;
    LeavesContent(true, order, r.t.heap + [id], r.t.timers[id := timer]);
    assert r.t.heap != [] ==> r.t.heap[0] in r.t.timers;
  }

  lemma {:induction false} PopInOrder(r: Races, order: seq<Id>)
    requires InOrder(r) && r.t.sched.Expired? && !r.held
    ensures InOrder(MoveRace(r, order))
  {
    hide HeapInv, FateInv, Arranges;
    var r' := MoveRace(r, order);
    if r'.intact && r'.t.sched.Popped? {
      PopKeepsQueue(r.t, r'.t);
    } else if r'.intact {
      QueueUnaffected(r.t, r'.t);
    }
  }

  lemma {:induction false} PushBackInOrder(r: Races, order: seq<Id>)
    requires Sound(r) && InOrder(r) && r.t.sched.PushBack? && !r.held
    ensures InOrder(MoveRace(r, order))
  {
    hide Queued, Logged, Arranges, FateInv;
    var r', s, tmp := MoveRace(r, order), r.t, r.t.sched.tmp;
    assert r.intact ==> tmp !in s.heap;
    hide HeapInv;
    if r.intact {
      if r'.t.heap != s.heap {
        assert s.timers.Keys == s.timers.Keys + {tmp};
        PushKeepsQueue(s, r'.t, tmp);
      } else {
        StaysOut(r, order);
      }
    }
  }

  lemma {:induction false} StaysOut(r: Races, order: seq<Id>)
    requires Sound(r) && InOrder(r) && r.intact && r.t.sched.PushBack? && !r.held && MoveRace(r, order).t.heap == r.t.heap
    ensures InOrder(MoveRace(r, order))
  {
    hide Queued, Logged, Arranges;
    assert |r.t.heap + [r.t.sched.tmp]| == |r.t.heap| + 1;
    assert multiset(r.t.heap + [r.t.sched.tmp]) == multiset(r.t.heap) + multiset{r.t.sched.tmp};
  }

  /** Moves that leave the queue alone. */
  lemma {:induction false} QuietInOrder(r: Races, r': Races)
    requires InOrder(r) && r'.intact == r.intact && r'.t.heap == r.t.heap && Hand(r'.t.sched) == Hand(r.t.sched)
    requires r'.t.timers.Keys == r.t.timers.Keys
    requires forall id | id in r.t.timers :: Evolves(r.t.timers[id], r'.t.timers[id])
    requires r.intact ==> forall id | id in r.t.heap && id in r.t.timers :: r'.t.timers[id].Key() == r.t.timers[id].Key()
    requires r.intact ==> Window(r')
    ensures InOrder(r')
  {
    hide HeapInv, FateInv, Window;
    if r.intact {
      QueueUnaffected(r.t, r'.t);
    }
  }

  lemma {:induction false} MeasureInOrder(r: Races, order: seq<Id>)
    requires InOrder(r) && r.t.sched.Ready? && !r.held
    ensures InOrder(MoveRace(r, order))
  {
    hide FateInv;
    QuietInOrder(r, MoveRace(r, order));
  }

  lemma {:induction false} HandIsOff(r: Races)
    requires InOrder(r) && r.intact
    ensures forall id | id in Hand(r.t.sched) :: id !in r.t.heap
  {
  }

  lemma {:induction false} FireInOrder(r: Races, order: seq<Id>)
    requires Sound(r) && InOrder(r) && r.t.sched.Popped? && !r.held
    ensures InOrder(MoveRace(r, order))
  {
    hide HeapInv, FateInv, Queued, Logged, Fire, Arranges;
    FireChangesLittle(r.t, r.t.sched.tmp, r.t.sched.spurious);
    assert MoveRace(r, order) == r.(t := Fire(r.t, r.t.sched.tmp, r.t.sched.spurious));
    hide MoveRace;
    QuietInOrder(r, MoveRace(r, order));
  }

  lemma {:induction false} CallInOrder(r: Races, order: seq<Id>)
    requires Sound(r) && InOrder(r) && (r.t.sched.Calling? || r.t.sched.Called?) && !r.held
    ensures InOrder(MoveRace(r, order))
  {
    hide FateInv, HeapInv, Queued, Logged, Fire, Measure, Arranges;
    if r.intact {
      HandIsOff(r);
    }
    QuietInOrder(r, MoveRace(r, order));
  }

  lemma {:induction false} ControlInOrder(r: Races, order: seq<Id>)
    requires InOrder(r)
    requires var c := r.t.sched;
             (r.held && (c.Test? || c.IdleWait?))
             || (!r.held && (c.Off? || c.Test? || c.Entering? || c.Measured? || c.Waits() || c.Exited?))
    ensures InOrder(MoveRace(r, order))
  {
    hide FateInv, HeapInv, Fire, Measure, Arranges;
    QuietInOrder(r, MoveRace(r, order));
  }

  lemma {:induction false} MoveInOrder(r: Races, order: seq<Id>)
    requires Sound(r) && InOrder(r)
    ensures InOrder(MoveRace(r, order))
  {
    hide Queued, Watch, Logged, MoveRace, InOrder;
    if r.held {
      ControlInOrder(r, order);
    } else {
      match r.t.sched
      case Ready => MeasureInOrder(r, order);
      case Expired(_, _) => PopInOrder(r, order);
      case Popped(_, _) => FireInOrder(r, order);
      case Calling(_) => CallInOrder(r, order);
      case Called(_) => CallInOrder(r, order);
      case PushBack(_) => PushBackInOrder(r, order);
      case _ => ControlInOrder(r, order);
    }
  }

  lemma {:induction false} OtherInOrder(r: Races, step: Step)
    requires Sound(r) && InOrder(r) && !step.Moves?
    ensures InOrder(Happen(r, Other(step)))
  {
    hide FateInv, HeapInv, Logged, Queued, Move, MoveRace, Arranges;
    QuietInOrder(r, Happen(r, Other(step)));
  }

  lemma {:induction false} HappenInOrder(r: Races, e: Event)
    requires Sound(r) && InOrder(r)
    ensures InOrder(Happen(r, e))
  {
    match e
    case Push(id, timer, order) =>
      hide Sound, InOrder, CanPush;
      if CanPush(r, id, timer, order) {
        if r.intact {
          PushInOrder(r, id, timer, order);
        } else {
          NotInOrder(Happen(r, e));
        }
      }
    case Other(step) =>
      hide Sound, InOrder, MoveRace;
      if step.Moves? {
        MoveInOrder(r, step.order);
      } else {
        OtherInOrder(r, step);
      }
    case _ =>
      hide Sound, HeapInv, FateInv;
      QuietInOrder(r, Happen(r, e));
  }

  lemma {:induction false} NotInOrder(r: Races)
    requires !r.intact
    ensures InOrder(r)
  {
  }

  lemma {:induction false} CourseInOrder(r: Races, events: seq<Event>)
    requires Sound(r) && InOrder(r)
    ensures Sound(Course(r, events)) && InOrder(Course(r, events))
    decreases |events|
  {
    hide Sound, InOrder, Happen;
    if events != [] {
      HappenSound(r, events[0]);
      HappenInOrder(r, events[0]);
      CourseInOrder(Happen(r, events[0]), events[1..]);
    }
  }

  lemma {:induction false} EveryCourseIsInOrder(now: nat, events: seq<Event>)
    ensures Sound(Course(Start(now), events)) && InOrder(Course(Start(now), events))
  {
    assert Sound(Start(now)) && InOrder(Start(now));
    CourseInOrder(Start(now), events);
  }

  /** As long as every timer popped was the timer run nothing is lost: every timer added is
      queued once, in the hand of the scheduler, or over, which a one-shot timer is only
      when its claim is used up and a loop timer only without callback. */
  lemma {:induction false} NothingLostWhileIntact(now: nat, events: seq<Event>, id: Id)
    ensures var r := Course(Start(now), events);
            r.intact && id in r.t.timers ==>
              && (multiset(r.t.heap)[id] == 1 || id in Hand(r.t.sched) || TimerTheorems.Over(r.t, id))
              && (TimerTheorems.Over(r.t, id) ==>
                    if r.t.timers[id].kind.Once? then !r.t.timers[id].claim.Free? else !r.t.timers[id].callback)
  {
    hide Sound, Window;
    EveryCourseIsInOrder(now, events);
  }

  /** So far every timer popped was the timer run: then the next one is too if and only if
      no timer with a smaller key has been pushed since the scheduler looked at the top. */
  lemma {:induction false} WrongPopIff(now: nat, events: seq<Event>, order: seq<Id>)
    ensures var r := Course(Start(now), events);
            r.t.sched.Expired? && r.intact && MoveRace(r, order).t.sched.Popped? ==>
              && r.t.sched.tmp in r.t.timers
              && (!MoveRace(r, order).intact <==>
                    exists id | id in r.since && id in r.t.timers ::
                      r.t.timers[id].Key() < r.t.timers[r.t.sched.tmp].Key())
  {
    hide Sound, FateInv;
    EveryCourseIsInOrder(now, events);
    var r := Course(Start(now), events);
    if r.t.sched.Expired? && r.intact {
      assert r.t.heap[0] != r.t.sched.tmp ==> r.t.heap[0] in r.since;
    }
  }

  /** Neither queued nor with the scheduler. */
  predicate Gone(r: Races, id: Id) {
    && id in r.t.timers && id !in r.t.heap
    && !(r.t.sched.Measured? && r.t.sched.tmp == id) && !(r.t.sched.TimedWait? && r.t.sched.tmp == id)
    && !(r.t.sched.Expired? && r.t.sched.tmp == id) && id !in Hand(r.t.sched)
  }

  lemma {:induction false} GoneStep(r: Races, e: Event, id: Id)
    requires Sound(r) && Gone(r, id)
    ensures Gone(Happen(r, e), id) && Firings(Happen(r, e).t.fired, id) == Firings(r.t.fired, id)
  {
    hide Sound, Arranges, Sifted, Leaves, MoveRace, WakeRace, Firings, Gone;
    match e
    case Push(x, timer, order) => PushStaysGone(r, x, timer, order, id);
    case Other(step) =>
      if step.Moves? {
        MoveStaysGone(r, step.order, id);
      } else {
        OtherStaysGone(r, step, id);
      }
    case _ => AdderStaysGone(r, e, id);
  }

  lemma {:induction false} PushStaysGone(r: Races, x: Id, timer: Timer, order: seq<Id>, id: Id)
    requires Gone(r, id)
    ensures var r' := Happen(r, Push(x, timer, order));
            Gone(r', id) && r'.t.fired == r.t.fired
  {
    hide Leaves, Sifted;
    LeavesContent(r.intact, order, r.t.heap + [x], r.t.timers[x := timer]);
  }

  lemma {:induction false} AdderStaysGone(r: Races, e: Event, id: Id)
    requires Gone(r, id) && (e.Store? || e.NotifyOne?)
    ensures Gone(Happen(r, e), id) && Happen(r, e).t.fired == r.t.fired
  {
  }

  lemma {:induction false} OtherStaysGone(r: Races, step: Step, id: Id)
    requires Gone(r, id) && !step.Moves?
    ensures Gone(Happen(r, Other(step)), id) && Happen(r, Other(step)).t.fired == r.t.fired
  {
    hide Arranges;
  }

  lemma {:induction false} MoveStaysGone(r: Races, order: seq<Id>, id: Id)
    requires Sound(r) && Gone(r, id)
    ensures var r' := MoveRace(r, order);
            Gone(r', id) && Firings(r'.t.fired, id) == Firings(r.t.fired, id)
  {
    hide Sound, Arranges, Firings, Fire, Move;
    var s := r.t;
    if r.held {
    } else if s.sched.Expired? || s.sched.PushBack? {
      ReorderStaysGone(r, order, id);
    } else if s.sched.Popped? {
      FireStaysGone(r, order, id);
    } else {
      QuietStaysGone(r, order, id);
    }
  }

  lemma {:induction false} ReorderStaysGone(r: Races, order: seq<Id>, id: Id)
    requires Gone(r, id) && !r.held && (r.t.sched.Expired? || r.t.sched.PushBack?)
    ensures Gone(MoveRace(r, order), id) && MoveRace(r, order).t.fired == r.t.fired
  {
    hide Leaves;
    var s := r.t;
    if s.sched.PushBack? {
      LeavesContent(r.intact, order, s.heap + [s.sched.tmp], s.timers);
    } else if s.heap != [] {
      LeavesContent(r.intact, order, s.heap[1..], s.timers);
    }
  }

  lemma {:induction false} FireStaysGone(r: Races, order: seq<Id>, id: Id)
    requires Sound(r) && Gone(r, id) && !r.held && r.t.sched.Popped?
    ensures var r' := MoveRace(r, order);
            Gone(r', id) && Firings(r'.t.fired, id) == Firings(r.t.fired, id)
  {
    hide Firings, Fire, Queued, Logged, Arranges;
    var s := r.t;
    FireChangesLittle(s, s.sched.tmp, s.sched.spurious);
    FiringsAppend(s.fired, Firing(s.sched.tmp, s.now, s.timers[s.sched.tmp].Key(), s.sched.spurious), id);
  }

  lemma {:induction false} QuietStaysGone(r: Races, order: seq<Id>, id: Id)
    requires Gone(r, id) && !r.held && !r.t.sched.Expired? && !r.t.sched.PushBack? && !r.t.sched.Popped?
    ensures Gone(MoveRace(r, order), id) && MoveRace(r, order).t.fired == r.t.fired
  {
    hide Fire, Arranges;
  }

  /** The first time it is not, the timer on top is taken off the queue and not run, and is
      lost: it is never queued and never fires again, whatever happens. */
  lemma {:induction false} WrongPopLosesTimer(now: nat, before: seq<Event>, order: seq<Id>, after: seq<Event>)
    ensures var r := Course(Start(now), before);
            var r' := MoveRace(r, order);
            r.t.sched.Expired? && r.intact && r'.t.sched.Popped? && !r'.intact ==>
              && r.t.heap != [] && r.t.heap[0] != r.t.sched.tmp
              && r.t.heap[0] !in Course(r', after).t.heap
              && Firings(Course(r', after).t.fired, r.t.heap[0]) == Firings(r.t.fired, r.t.heap[0])
  {
    hide Sound, FateInv, Firings;
    EveryCourseIsInOrder(now, before);
    var r := Course(Start(now), before);
    var r' := MoveRace(r, order);
    if r.t.sched.Expired? && r.intact && r'.t.sched.Popped? && !r'.intact {
      var id := r.t.heap[0];
      TopIsGone(r, order);
      MoveSound(r, order);
      hide MoveRace, Gone, HeapInv;
      StaysGone(r', after, id);
    }
  }

  lemma {:induction false} TopIsGone(r: Races, order: seq<Id>)
    requires HeapInv(r.t) && r.t.sched.Expired? && MoveRace(r, order).t.sched.Popped? && !r.held
    requires r.t.heap != [] && r.t.heap[0] != r.t.sched.tmp
    ensures Gone(MoveRace(r, order), r.t.heap[0]) && MoveRace(r, order).t.fired == r.t.fired
  {
    hide Arranges;
    var id := r.t.heap[0];
    assert r.t.heap == [id] + r.t.heap[1..];
    assert multiset(r.t.heap)[id] == 1;
    assert id !in multiset(r.t.heap[1..]);
    LeavesContent(r.intact, order, r.t.heap[1..], r.t.timers);
  }

  lemma {:induction false} StaysGone(r: Races, events: seq<Event>, id: Id)
    requires Sound(r) && Gone(r, id)
    ensures id !in Course(r, events).t.heap && Firings(Course(r, events).t.fired, id) == Firings(r.t.fired, id)
    decreases |events|
  {
    if events != [] {
      hide Sound, Gone, Happen, Firings;
      HappenSound(r, events[0]);
      GoneStep(r, events[0], id);
      StaysGone(Happen(r, events[0]), events[1..], id);
    }
  }

  // ---------------------------------------------------------------- waits cut short

  /** The end of a timed wait, by a wake-up or by the scheduler finding itself notified, and
      the two moves that pop and run a timer after it. */
  function AfterCut(r: Races, spurious: bool, order: seq<Id>): Races {
    Course(r, [Other(if spurious then SpuriousWake else Moves([])), Other(Moves(order)), Other(Moves([]))])
  }

  /** When a timed wait ends on a notification or a spurious wake-up, the scheduler can go
      on to fire early if and only if no addition is on record any more, it has not been told
      to stop, the timer has the right to run and its key is still to come. */
  lemma {:induction false} CutWaitIsEarlyIff(r: Races, spurious: bool)
    requires Sound(r) && r.t.sched.TimedWait? && (spurious || r.t.sched.notified)
    ensures (exists order :: TimerTheorems.FiredEarly(r.t, AfterCut(r, spurious, order).t))
       <==> var tmp := r.t.sched.tmp;
            !r.t.added && r.t.run && r.t.timers[tmp].Runs() && r.t.now < r.t.timers[tmp].Key()
  {
    var s, tmp := r.t, r.t.sched.tmp;
    forall order
      ensures TimerTheorems.FiredEarly(s, AfterCut(r, spurious, order).t) <==>
                && !s.added && s.run && Leaves(r.intact, order, s.heap[1..], s.timers)
                && s.timers[tmp].Runs() && s.now < s.timers[tmp].Key()
    {
      EarlyAfterCut(r, spurious, order);
    }
    hide AfterCut, TimerTheorems.FiredEarly, Logged;
    assert forall id | id in s.heap[1..] :: id in s.heap;
    var order := TimerTheorems.SomeArrangement(s.heap[1..], s.timers);
    assert Leaves(r.intact, order, s.heap[1..], s.timers);
    assert TimerTheorems.FiredEarly(s, AfterCut(r, spurious, order).t) <==>
             !s.added && s.run && s.timers[tmp].Runs() && s.now < s.timers[tmp].Key();
  }

  lemma {:induction false} ThreeEvents(r: Races, p: seq<Event>)
    requires |p| == 3
    ensures Course(r, p) == Happen(Happen(Happen(r, p[0]), p[1]), p[2])
  {
    hide Happen;
    var r1 := Happen(r, p[0]);
    var r2 := Happen(r1, p[1]);
    assert Course(r1, p[1..]) == Course(r2, p[1..][1..]);
    assert Course(r2, p[1..][1..]) == Course(Happen(r2, p[2]), p[1..][1..][1..]);
    assert p[1..][1..][1..] == [];
  }

  lemma {:induction false} EarlyAfterCut(r: Races, spurious: bool, order: seq<Id>)
    requires Sound(r) && r.t.sched.TimedWait? && (spurious || r.t.sched.notified)
    ensures var s, tmp := r.t, r.t.sched.tmp;
            TimerTheorems.FiredEarly(s, AfterCut(r, spurious, order).t) <==>
              && !s.added && s.run && Leaves(r.intact, order, s.heap[1..], s.timers)
              && s.timers[tmp].Runs() && s.now < s.timers[tmp].Key()
  {
    hide Logged, Leaves, Arranges, Course;
    var s, tmp := r.t, r.t.sched.tmp;
    var first := Other(if spurious then SpuriousWake else Moves([]));
    ThreeEvents(r, [first, Other(Moves(order)), Other(Moves([]))]);
    var r1 := r.(t := EndWait(s, tmp, s.now < s.sched.deadline));
    assert Happen(r, first) == r1;
    if !s.added && s.run && Leaves(r.intact, order, s.heap[1..], s.timers) {
      var r2 := r1.(t := s.(heap := order, sched := Popped(tmp, s.now < s.sched.deadline)),
                    intact := r.intact && s.heap[0] == tmp);
      assert MoveRace(r1, order) == r2;
      assert MoveRace(r2, []) == r2.(t := Fire(r2.t, tmp, s.now < s.sched.deadline));
    } else {
      NoFiringAfterCut(r1, order);
    }
  }

  lemma {:induction false} NoFiringAfterCut(r: Races, order: seq<Id>)
    requires r.t.sched.Test? || (r.t.sched.Expired? && r.t.heap != []
                                 && (!r.t.run || !Leaves(r.intact, order, r.t.heap[1..], r.t.timers)))
    ensures MoveRace(MoveRace(r, order), []).t.fired == r.t.fired
  {
    hide Arranges, Fire;
  }

  // ---------------------------------------------------------------- what can go wrong

  const TURN := Other(Moves([]))

  lemma {:induction false} CourseAppend(r: Races, p: seq<Event>, q: seq<Event>)
    ensures Course(r, p + q) == Course(Course(r, p), q)
    decreases |p|
  {
    hide Happen;
    if p == [] {
      assert p + q == q;
    } else {
      assert (p + q)[1..] == p[1..] + q;
      CourseAppend(Happen(r, p[0]), p[1..], q);
    }
  }

  lemma {:induction false} OneEvent(r: Races, e: Event)
    ensures Course(r, [e]) == Happen(r, e)
  {
    hide Happen;
    assert [e][1..] == [];
  }

  /** The first timer pushed on a new manager, which is then scheduled. */
  lemma {:induction false} FirstPushed(r: Races, a: Timer)
    requires r == Start(r.t.now) && a.claim.Free?
    ensures Course(r, [Push(0, a, [0]), Other(Schedule), TURN])
         == Races(r.t.(timers := map[][0 := a], heap := [0], run := true, sched := Entering), map[][0 := Pushed], false, {0}, true)
  {
    assert [] + [0] == [0];
    assert CanPush(r, 0, a, [0]);
    hide CanPush;
    ThreeEvents(r, [Push(0, a, [0]), Other(Schedule), TURN]);
    assert {} + {0} == {0};
  }

  /** A timer on top that is not due is measured and waited for. */
  lemma {:induction false} TopAwaited(r: Races)
    requires r.t.sched.Entering? && !r.held && r.t.run && r.t.heap != [] && r.t.heap[0] in r.t.timers
    requires r.t.timers[r.t.heap[0]].delay == 0 && r.t.timers[r.t.heap[0]].LeftTime(r.t.now) > 0
    ensures var s, tmp := r.t, r.t.heap[0];
            Course(r, [TURN, TURN, TURN])
              == r.(t := s.(sched := TimedWait(tmp, s.now + s.timers[tmp].LeftTime(s.now), false)), since := {})
  {
    hide Arranges;
    var s, tmp := r.t, r.t.heap[0];
    var left := s.timers[tmp].LeftTime(s.now);
    assert s.timers[tmp := s.timers[tmp]] == s.timers;
    assert MoveRace(r, []) == r.(t := s.(sched := Ready));
    assert Measure(s.(sched := Ready)) == s.(sched := Measured(tmp, left));
    ThreeEvents(r, [TURN, TURN, TURN]);
  }

  lemma {:induction false} SecondFits(a: Timer, b: Timer)
    requires b.Key() < a.Key()
    ensures Leaves(true, [1, 0], [0] + [1], map[][0 := a][1 := b]) && Sifted([1, 0], [0], 1, map[][0 := a][1 := b])
    ensures Leaves(true, [0], [1, 0][1..], map[][0 := a][1 := b])
  {
    assert multiset([1, 0]) == multiset{0, 1};
    assert [0] + [1] == [0, 1] && [1, 0][1..] == [0];
  }

  /** While the scheduler waits for timer 0, a timer due before it is pushed, and the wait
      times out before the addition is on record. */
  lemma {:induction false} SecondUnseen(r: Races, a: Timer, b: Timer, d: nat)
    requires r.t.sched.TimedWait? && r.t.sched.tmp == 0 && !r.t.sched.notified && r.t.now + d >= r.t.sched.deadline
    requires !r.held && r.intact && !r.t.added && r.t.heap == [0] && r.t.timers == map[][0 := a] && r.since == {}
    requires b.claim.Free? && b.Key() < a.Key()
    ensures Course(r, [Push(1, b, [1, 0]), Other(Tick(d)), TURN])
         == Races(r.t.(now := r.t.now + d, timers := map[][0 := a][1 := b], heap := [1, 0], sched := Expired(0, false)),
                  r.adders[1 := Pushed], false, {1}, true)
  {
    SecondFits(a, b);
    hide Leaves, Sifted;
    var s1 := r.t.(timers := map[][0 := a][1 := b], heap := [1, 0]);
    assert CanPush(r, 1, b, [1, 0]);
    hide CanPush;
    assert {} + {1} == {1};
    assert Happen(r, Push(1, b, [1, 0])) == Races(s1, r.adders[1 := Pushed], false, {1}, true);
    ThreeEvents(r, [Push(1, b, [1, 0]), Other(Tick(d)), TURN]);
  }

  /** The timer pushed second is popped in place of the one measured. */
  lemma {:induction false} SecondPopped(r: Races, a: Timer, b: Timer)
    requires r.t.sched == Expired(0, false) && !r.held && r.intact && r.t.run
    requires r.t.heap == [1, 0] && r.t.timers == map[][0 := a][1 := b] && b.Key() < a.Key()
    ensures var r' := Course(r, [Other(Moves([0]))]);
            !r'.intact && Gone(r', 1) && r'.t.timers == r.t.timers
  {
    SecondFits(a, b);
    hide Leaves;
    OneEvent(r, Other(Moves([0])));
  }

  lemma {:induction false} FourCourses(r: Races, p: seq<Event>, q: seq<Event>, t: seq<Event>, u: seq<Event>)
    ensures Course(r, p + q + t + u) == Course(Course(Course(Course(r, p), q), t), u)
  {
    hide Course;
    CourseAppend(r, p, q);
    CourseAppend(r, p + q, t);
    CourseAppend(r, p + q + t, u);
  }

  /** A timer can be lost. While the scheduler waits for a timer, another thread pushes one
      that is due before it, and has yet to set the wake-up state when the wait times out:
      the new timer is popped, the old one run. */
  lemma {:induction false} TimerCanBeLost(now: nat, a: Timer, b: Timer)
    requires a.claim.Free? && b.claim.Free? && b.Key() < a.Key() && a.delay == 0 && a.LeftTime(now) > 0
    ensures exists events ::
              var r := Course(Start(now), events);
              !r.intact && Gone(r, 1) && r.t.timers[1] == b
  {
    var r, late := Start(now), a.LeftTime(now);
    var p, q := [Push(0, a, [0]), Other(Schedule), TURN], [TURN, TURN, TURN];
    var t, u := [Push(1, b, [1, 0]), Other(Tick(late)), TURN], [Other(Moves([0]))];
    hide Course, Gone;
    FirstPushed(r, a);
    var r1 := Course(r, p);
    TopAwaited(r1);
    var r2 := Course(r1, q);
    SecondUnseen(r2, a, b, late);
    SecondPopped(Course(r2, t), a, b);
    FourCourses(r, p, q, t, u);
    assert Gone(Course(r, p + q + t + u), 1);
  }

  /** A loop timer that is due on top is run. */
  lemma {:induction false} DueLoopRuns(r: Races)
    requires r.t.sched.Entering? && !r.held && r.t.run && r.t.heap == [0] && 0 in r.t.timers
    requires r.t.timers[0].delay == 0 && r.t.timers[0].LeftTime(r.t.now) <= 0
    requires r.t.timers[0].kind.Loop? && r.t.timers[0].callback
    ensures Course(r, [TURN, TURN, TURN] + [TURN, TURN])
         == r.(t := r.t.(heap := [], sched := Called(0),
                         fired := r.t.fired + [Firing(0, r.t.now, r.t.timers[0].Key(), false)]), since := {})
  {
    hide Arranges, Course, Fire;
    var s, r3 := r.t, r.(t := r.t.(heap := [], sched := Popped(0, false)), since := {});
    DueIsPopped(r);
    FiresAsItIs(s.(heap := [], sched := Popped(0, false)), 0);
    TwoEvents(r3, TURN, TURN);
    CourseAppend(r, [TURN, TURN, TURN], [TURN, TURN]);
  }

  lemma {:induction false} FiresAsItIs(s: State, tmp: Id)
    requires tmp in s.timers && s.timers[tmp].kind.Loop? && s.timers[tmp].callback
    ensures Fire(s, tmp, false)
         == s.(sched := Calling(tmp), fired := s.fired + [Firing(tmp, s.now, s.timers[tmp].Key(), false)])
  {
    assert s.timers[tmp := s.timers[tmp]] == s.timers;
  }

  lemma {:induction false} DueIsPopped(r: Races)
    requires r.t.sched.Entering? && !r.held && r.t.run && r.t.heap == [0] && 0 in r.t.timers
    requires r.t.timers[0].delay == 0 && r.t.timers[0].LeftTime(r.t.now) <= 0
    ensures Course(r, [TURN, TURN, TURN]) == r.(t := r.t.(heap := [], sched := Popped(0, false)), since := {})
  {
    var s := r.t;
    assert [0][1..] == [] && s.timers[0 := s.timers[0]] == s.timers;
    assert Leaves(r.intact, [], [0][1..], s.timers);
    hide Leaves, Arranges, Course;
    var r2 := r.(t := s.(sched := Expired(0, false)), since := {});
    assert MoveRace(r.(t := s.(sched := Ready)), []) == r2;
    assert MoveRace(r2, []) == r2.(t := s.(heap := [], sched := Popped(0, false)));
    ThreeEvents(r, [TURN, TURN, TURN]);
  }

  lemma {:induction false} TwoEvents(r: Races, d: Event, e: Event)
    ensures Course(r, [d, e]) == Happen(Happen(r, d), e)
  {
    hide Happen;
    OneEvent(Happen(r, d), e);
    assert [d, e][1..] == [e];
  }

  /** ... starts anew, and is queued again; the additions on record are forgotten. */
  lemma {:induction false} LoopIsBack(r: Races)
    requires r.t.sched == Called(0) && !r.held && r.t.run && r.t.heap == [] && 0 in r.t.timers
    requires r.t.timers[0].kind.Loop? && r.t.timers[0].callback
    ensures Course(r, [TURN, Other(Moves([0])), TURN] + [TURN])
         == r.(t := r.t.(heap := [0], added := false, sched := Entering,
                         timers := r.t.timers[0 := r.t.timers[0].(start := r.t.now)]))
  {
    var s := r.t.(timers := r.t.timers[0 := r.t.timers[0].(start := r.t.now)]);
    assert [] + [0] == [0];
    assert Leaves(r.intact, [0], [] + [0], s.timers);
    hide Leaves, Arranges, Course;
    assert MoveRace(r, []) == r.(t := s.(sched := PushBack(0)));
    var r2 := r.(t := s.(sched := Test, heap := [0]), held := true);
    assert MoveRace(r.(t := s.(sched := PushBack(0))), [0]) == r2;
    ThreeEvents(r, [TURN, Other(Moves([0])), TURN]);
    OneEvent(r.(t := s.(sched := Test, heap := [0], added := false)), TURN);
    CourseAppend(r, [TURN, Other(Moves([0])), TURN], [TURN]);
  }

  predicate WithoutSpuriousWakes(events: seq<Event>) {
    forall i | 0 <= i < |events| :: events[i] != Other(SpuriousWake)
  }

  /** One turn of a loop timer that is due, and alone: then it is waited for. */
  lemma {:induction false} LoopTurns(r: Races, a: Timer) returns (events: seq<Event>)
    requires r.t.sched.Entering? && !r.held && r.t.run && r.t.heap == [0] && 0 in r.t.timers && r.t.timers[0] == a
    requires a.delay == 0 && a.Key() <= r.t.now && 0 < a.last && a.kind.Loop? && a.callback
    ensures WithoutSpuriousWakes(events)
    ensures var r' := Course(r, events);
            && r'.t.sched == TimedWait(0, r.t.now + a.last, false) && r'.t.now == r.t.now && r'.t.run && !r'.t.added
            && 0 in r'.t.timers && r'.t.timers[0] == a.(start := r.t.now) && r'.adders == r.adders && !r'.held
  {
    var t, u := [TURN, TURN, TURN] + [TURN, TURN], [TURN, Other(Moves([0])), TURN] + [TURN];
    hide Course, Arranges, Leaves;
    DueLoopRuns(r);
    var r1 := Course(r, t);
    LoopIsBack(r1);
    TopAwaited(Course(r1, u));
    CourseAppend(r, t, u);
    CourseAppend(r, t + u, [TURN, TURN, TURN]);
    events := t + u + [TURN, TURN, TURN];
  }

  /** Without a spurious wake-up: a slow adder notifies when its addition has been forgotten,
      and the scheduler is by then waiting for the timer's next turn. */
  lemma {:induction false} LateNotification(r: Races, a: Timer) returns (events: seq<Event>)
    requires r == Start(r.t.now) && a.claim.Free?
    requires a.delay == 0 && a.Key() <= r.t.now && 0 < a.last && a.kind.Loop? && a.callback
    ensures WithoutSpuriousWakes(events)
    ensures var s := Course(r, events).t;
            && s.sched == TimedWait(0, r.t.now + a.last, true) && s.now == r.t.now && s.run && !s.added
            && 0 in s.timers && s.timers[0] == a.(start := r.t.now)
  {
    var p, q := [Push(0, a, [0]), Other(Schedule), TURN], [Store(0)];
    hide Course, Arranges, Do, Move, MoveRace, WakeRace, CanPush;
    FirstPushed(r, a);
    var r1 := Course(r, p);
    OneEvent(r1, Store(0));
    var r2 := Course(r1, q);
    assert r2 == r1.(t := r1.t.(added := true), adders := r1.adders[0 := Stored]);
    var t := LoopTurns(r2, a);
    OneEvent(Course(r2, t), NotifyOne(0));
    FourCourses(r, p, q, t, [NotifyOne(0)]);
    events := p + q + t + [NotifyOne(0)];
  }

  /** So a timer can fire early although no wait ends spuriously: any loop timer already due
      when it is pushed can, on its second turn. */
  lemma {:induction false} EarlyWithoutSpuriousWakes(now: nat, a: Timer)
    requires a.claim.Free? && a.delay == 0 && a.Key() <= now && 0 < a.last && a.kind.Loop? && a.callback
    ensures exists events ::
              && WithoutSpuriousWakes(events)
              && var fired := Course(Start(now), events).t.fired;
                 fired != [] && fired[|fired| - 1].time < fired[|fired| - 1].due
  {
    var p := LateNotification(Start(now), a);
    EveryCourseIsSound(now, p);
    var r := Course(Start(now), p);
    CutWaitIsEarlyIff(r, false);
    var order :| TimerTheorems.FiredEarly(r.t, AfterCut(r, false, order).t);
    var q := [TURN, Other(Moves(order)), TURN];
    CourseAppend(Start(now), p, q);
    hide Course, Sound;
    assert Course(Start(now), p + q) == AfterCut(r, false, order);
    assert WithoutSpuriousWakes(p + q);
  }

  /** An addition can go unheard: all three of its steps fall between the scheduler's finding
      the queue empty and its falling asleep, for the default wait. */
  lemma {:induction false} AdditionCanGoUnheard(now: nat, timer: Timer)
    requires timer.claim.Free?
    ensures exists events ::
              var r := Course(Start(now), events);
              && r.adders == map[] && r.t.heap == [0] && 0 in r.t.timers && r.t.timers[0] == timer
              && !r.held && r.t.sched == IdleWait(now + DEFAULT_WAIT, false)
  {
    var r := Start(now);
    var p := [Other(Schedule), TURN, TURN];
    ThreeEvents(r, p);
    var r1 := r.(t := r.t.(run := true, sched := IdleWait(now + DEFAULT_WAIT, false)), held := true);
    assert Happen(r, Other(Schedule)) == r.(t := r.t.(run := true, sched := Test));
    assert Course(r, p) == r1;
    hide Course;
    var q := LostOnTheDeaf(r1, timer);
    OneEvent(Course(r1, q), TURN);
    CourseAppend(r, p, q);
    CourseAppend(r, p + q, [TURN]);
    assert Course(r, p + q + [TURN]) == Release(Course(r1, q));
  }

  lemma {:induction false} LostOnTheDeaf(r: Races, timer: Timer) returns (events: seq<Event>)
    requires r.held && r.t.sched.IdleWait? && r.t.heap == [] && r.t.timers == map[] && r.adders == map[]
    requires timer.claim.Free?
    ensures Course(r, events)
         == r.(t := r.t.(timers := map[][0 := timer], heap := [0], added := true), since := r.since + {0})
  {
    assert [] + [0] == [0];
    assert CanPush(r, 0, timer, [0]);
    hide CanPush;
    events := [Push(0, timer, [0]), Store(0), NotifyOne(0)];
    ThreeEvents(r, events);
    assert map[][0 := Pushed][0 := Stored] - {0} == map[];
  }
}
