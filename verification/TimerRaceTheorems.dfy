/**
  More about additions in three steps: which of them the scheduler does not hear of, what
  holds after a close, and what becomes of a cancelled loop timer.
 */
module TimerRaceTheorems {
  import opened TimerScheduler
  import opened TimerRaces
  import TimerTheorems

  // ---------------------------------------------------------------- additions that go unheard

  /** The scheduler has looked at the queue and is about to sleep: a notification is lost. */
  predicate Gap(r: Races) { (r.held && r.t.sched.IdleWait?) || r.t.sched.Measured? }

  /** The additions that have notified in the latest gap, after one more event. */
  function MissedNext(r: Races, e: Event, missed: set<Id>): set<Id> {
    if !Gap(r) && Gap(Happen(r, e)) then {}
    else if Gap(r) && e.NotifyOne? && e.id in r.adders && r.adders[e.id].Stored? then missed + {e.id}
    else missed
  }

  function Missed(r: Races, events: seq<Event>, missed: set<Id>): set<Id>
    decreases |events|
  {
    if events == [] then missed else Missed(Happen(r, events[0]), events[1..], MissedNext(r, events[0], missed))
  }

  /** Of these timers, those whose addition is over have been missed. */
  ghost predicate Account(r: Races, ids: set<Id>, missed: set<Id>) {
    forall id | id in ids :: id !in r.adders <==> id in missed
  }

  function QueuedIds(s: State): set<Id> { set id | id in s.heap }

  /** In a gap, and asleep un-notified, the account covers every timer pushed since the
      scheduler has looked at the queue, which are all there are if it was empty. */
  ghost predicate Hearing(r: Races, missed: set<Id>) {
    && (forall id | id in missed || id in r.adders :: id in r.t.timers)
    && (r.held && r.t.sched.IdleWait? ==> !r.t.sched.notified)
    && match r.t.sched
       case IdleWait(_, notified) => !notified ==> Account(r, QueuedIds(r.t), missed)
       case Measured(_, _) => Account(r, r.since, missed)
       case TimedWait(_, _, notified) => !notified ==> Account(r, r.since, missed)
       case _ => true
  }

  lemma {:induction false} PushHeard(r: Races, id: Id, timer: Timer, order: seq<Id>, missed: set<Id>)
    requires Sound(r) && Hearing(r, missed)
    ensures Hearing(Happen(r, Push(id, timer, order)), MissedNext(r, Push(id, timer, order), missed))
  {
    hide Sound, Leaves, Sifted;
    LeavesContent(r.intact, order, r.t.heap + [id], r.t.timers[id := timer]);
  }

  lemma {:induction false} AdderHeard(r: Races, e: Event, missed: set<Id>)
    requires Sound(r) && Hearing(r, missed) && (e.Store? || e.NotifyOne?)
    ensures Hearing(Happen(r, e), MissedNext(r, e, missed))
  {
    hide Queued, Watch, Logged;
  }

  lemma {:induction false} OtherHeard(r: Races, step: Step, missed: set<Id>)
    requires Hearing(r, missed) && !step.Moves?
    ensures Hearing(Happen(r, Other(step)), MissedNext(r, Other(step), missed))
  {
    hide Move, MoveRace, Arranges;
  }

  /** Finding the queue empty, falling asleep and waking. */
  lemma {:induction false} IdleMoveHeard(r: Races, order: seq<Id>, missed: set<Id>)
    requires Sound(r) && Hearing(r, missed)
    requires r.held || r.t.sched.Entering? || r.t.sched.IdleWait?
    ensures Hearing(MoveRace(r, order), MissedNext(r, Other(Moves(order)), missed))
  {
    hide Logged, Queued, Watch, Arranges, Leaves, Fire, Measure, EndWait, PopRace, PushBackRace;
  }

  /** Measuring the top, falling asleep and waking. */
  lemma {:induction false} TimedMoveHeard(r: Races, order: seq<Id>, missed: set<Id>)
    requires Sound(r) && Hearing(r, missed)
    requires !r.held && (r.t.sched.Ready? || r.t.sched.Measured? || r.t.sched.TimedWait?)
    ensures Hearing(MoveRace(r, order), MissedNext(r, Other(Moves(order)), missed))
  {
    hide Logged, Queued, Watch, Arranges, Leaves, Fire, PopRace, PushBackRace, QueuedIds;
  }

  /** The other moves end in no gap and in no sleep. */
  lemma {:induction false} AwakeMoveHeard(r: Races, order: seq<Id>, missed: set<Id>)
    requires Sound(r) && Hearing(r, missed)
    requires var c := r.t.sched;
             !r.held && !c.Entering? && !c.Ready? && !c.Measured? && !c.IdleWait? && !c.TimedWait?
    ensures Hearing(MoveRace(r, order), MissedNext(r, Other(Moves(order)), missed))
  {
    hide Logged, Queued, Account, Arranges, Leaves, Fire, Move, PopRace, PushBackRace;
    var s := r.t;
    if s.sched.Popped? {
      FireChangesLittle(s, s.sched.tmp, s.sched.spurious);
      assert MoveRace(r, order) == r.(t := Fire(s, s.sched.tmp, s.sched.spurious)) by { MoveFires(r, order); }
    } else if s.sched.Expired? || s.sched.PushBack? {
      ReorderEndsAwake(r, order);
    } else {
      PlainMoveAwake(s);
    }
  }

  lemma {:induction false} MoveFires(r: Races, order: seq<Id>)
    requires r.t.sched.Popped? && r.t.sched.tmp in r.t.timers && !r.held
    ensures MoveRace(r, order) == r.(t := Fire(r.t, r.t.sched.tmp, r.t.sched.spurious))
  {
    hide Fire;
  }

  lemma {:induction false} ReorderEndsAwake(r: Races, order: seq<Id>)
    requires (r.t.sched.Expired? || r.t.sched.PushBack?) && !r.held
    ensures var r' := MoveRace(r, order);
            && r'.t.timers == r.t.timers && r'.adders == r.adders
            && !Gap(r') && !r'.t.sched.IdleWait? && !r'.t.sched.TimedWait?
  {
    hide Leaves;
  }

  lemma {:induction false} PlainMoveAwake(s: State)
    requires s.sched.Off? || s.sched.Test? || s.sched.Calling? || s.sched.Called? || s.sched.Exited?
    ensures var s' := Move(s, []);
            s'.timers.Keys == s.timers.Keys && !s'.sched.Waits() && !s'.sched.Measured?
  {
    hide Arranges, Fire, Measure, EndWait;
  }

  lemma {:induction false} MoveHeard(r: Races, order: seq<Id>, missed: set<Id>)
    requires Sound(r) && Hearing(r, missed)
    ensures Hearing(MoveRace(r, order), MissedNext(r, Other(Moves(order)), missed))
  {
    hide *;
    if r.held || r.t.sched.Entering? || r.t.sched.IdleWait? {
      IdleMoveHeard(r, order, missed);
    } else if r.t.sched.Ready? || r.t.sched.Measured? || r.t.sched.TimedWait? {
      TimedMoveHeard(r, order, missed);
    } else {
      AwakeMoveHeard(r, order, missed);
    }
  }

  lemma {:induction false} HappenHeard(r: Races, e: Event, missed: set<Id>)
    requires Sound(r) && Hearing(r, missed)
    ensures Hearing(Happen(r, e), MissedNext(r, e, missed))
  {
    hide Sound, Hearing, MissedNext, MoveRace;
    match e
    case Push(id, timer, order) => PushHeard(r, id, timer, order, missed);
    case Other(step) =>
      if step.Moves? {
        MoveHeard(r, step.order, missed);
      } else {
        OtherHeard(r, step, missed);
      }
    case _ => AdderHeard(r, e, missed);
  }

  lemma {:induction false} CourseHeard(r: Races, events: seq<Event>, missed: set<Id>)
    requires Sound(r) && Hearing(r, missed)
    ensures Hearing(Course(r, events), Missed(r, events, missed))
    decreases |events|
  {
    hide Sound, Hearing, MissedNext, Happen;
    if events != [] {
      HappenSound(r, events[0]);
      HappenHeard(r, events[0], missed);
      CourseHeard(Happen(r, events[0]), events[1..], MissedNext(r, events[0], missed));
    }
  }

  /** In every interleaving: the scheduler is asleep un-notified although an addition is over,
      be it on the empty queue it found or on the timer it measured, if and only if that
      addition notified in the gap between looking at the queue and falling asleep. */
  lemma {:induction false} AdditionUnheardIff(now: nat, events: seq<Event>, id: Id)
    ensures var r, missed := Course(Start(now), events), Missed(Start(now), events, {});
            && (r.t.sched.IdleWait? && !r.held && !r.t.sched.notified && id in r.t.heap ==>
                  (id !in r.adders <==> id in missed))
            && (r.t.sched.TimedWait? && !r.t.sched.notified && id in r.since ==>
                  (id !in r.adders <==> id in missed))
  {
    assert Sound(Start(now)) && Hearing(Start(now), {});
    CourseHeard(Start(now), events, {});
    hide Course, Missed, Start;
  }

  /** So while nothing is lost and the scheduler sleeps un-notified, a timer due before the
      one it waits for has been fully added if and only if its notification was missed. */
  lemma {:induction false} SleepsBeyondIff(now: nat, events: seq<Event>, id: Id)
    ensures var r, missed := Course(Start(now), events), Missed(Start(now), events, {});
            var s := r.t;
            r.intact && s.sched.TimedWait? && !s.sched.notified && id in s.heap ==>
              && id in s.timers && s.sched.tmp in s.timers
              && (s.timers[id].Key() < s.timers[s.sched.tmp].Key() ==> (id !in r.adders <==> id in missed))
  {
    AdditionUnheardIff(now, events, id);
    EveryCourseIsInOrder(now, events);
    hide Course, Missed, Start, FateInv, Logged;
  }

  lemma {:induction false} UnheardSteps(r: Races, a: Timer, b: Timer)
    requires r.t.sched.Measured? && !r.held && r.intact && r.t.heap == [0] && r.t.timers == map[][0 := a]
    requires b.claim.Free? && b.Key() < a.Key() && 1 !in r.adders
    ensures Course(r, [Push(1, b, [1, 0]), Store(1), NotifyOne(1)] + [TURN])
         == r.(t := r.t.(timers := map[][0 := a][1 := b], heap := [1, 0], added := true,
                         sched := TimedWait(r.t.sched.tmp, r.t.now + r.t.sched.left, false)),
               since := r.since + {1})
  {
    SecondFits(a, b);
    hide Leaves, Sifted, Course;
    assert CanPush(r, 1, b, [1, 0]);
    hide CanPush;
    var s1 := r.t.(timers := map[][0 := a][1 := b], heap := [1, 0]);
    var r3 := r.(t := s1.(added := true), since := r.since + {1});
    assert r.adders[1 := Pushed][1 := Stored] - {1} == r.adders;
    ThreeEvents(r, [Push(1, b, [1, 0]), Store(1), NotifyOne(1)]);
    OneEvent(r3, TURN);
    CourseAppend(r, [Push(1, b, [1, 0]), Store(1), NotifyOne(1)], [TURN]);
  }

  /** A timer on top that is not due is measured. */
  lemma {:induction false} TopIsMeasured(r: Races)
    requires r.t.sched.Entering? && !r.held && r.t.run && r.t.heap != [] && r.t.heap[0] in r.t.timers
    requires r.t.timers[r.t.heap[0]].delay == 0 && r.t.timers[r.t.heap[0]].LeftTime(r.t.now) > 0
    ensures var s, tmp := r.t, r.t.heap[0];
            Course(r, [TURN, TURN]) == r.(t := s.(sched := Measured(tmp, s.timers[tmp].LeftTime(s.now))), since := {})
  {
    hide Arranges;
    var s, tmp := r.t, r.t.heap[0];
    assert s.timers[tmp := s.timers[tmp]] == s.timers;
    assert MoveRace(r, []) == r.(t := s.(sched := Ready));
    TwoEvents(r, TURN, TURN);
  }

  /** The wait for a timer can be slept through as well: all three steps of adding a timer due
      before it fall between measuring and falling asleep, and the scheduler sleeps on for
      the whole of the time measured. */
  lemma {:induction false} EarlierTimerCanGoUnheard(now: nat, a: Timer, b: Timer)
    requires a.claim.Free? && b.claim.Free? && b.Key() < a.Key() && a.delay == 0 && a.LeftTime(now) > 0
    ensures exists events ::
              var r := Course(Start(now), events);
              && r.t.heap == [1, 0] && 1 in r.t.timers && r.t.timers[1] == b && 1 !in r.adders && !r.held
              && r.t.sched == TimedWait(0, now + a.LeftTime(now), false)
  {
    var r := Start(now);
    var p, q := [Push(0, a, [0]), Other(Schedule), TURN], [TURN, TURN];
    var t := [Push(1, b, [1, 0]), Store(1), NotifyOne(1)] + [TURN];
    hide Course;
    FirstPushed(r, a);
    var r1 := Course(r, p);
    TopIsMeasured(r1);
    var r2 := Course(r1, q);
    UnheardSteps(r2, a, b);
    CourseAppend(r, p, q);
    CourseAppend(r, p + q, t);
    assert Course(r, p + q + t) == Course(r2, t);
  }

  // ---------------------------------------------------------------- closing

  /** The scheduler has been told to stop since it began. */
  ghost predicate Closed(r: Races) {
    var c := r.t.sched;
    && !r.t.run
    && (if r.held then c.IdleWait?
        else c.Test? || c.Entering? || c.IdleWait? || c.Ready? || c.Exited? || (c.TimedWait? && c.notified && r.t.added))
  }

  /** The moves the scheduler may still take; they do not reach beyond one `timer_run`. */
  function MovesLeft(r: Races): nat {
    match r.t.sched
    case Exited => 0
    case Entering => 4
    case IdleWait(_, _) => if r.held then 3 else 2
    case TimedWait(_, _, _) => 2
    case _ => 1
  }

  /** The moves the scheduler gets to take in a course when it does not sleep. */
  function Effective(r: Races, events: seq<Event>): nat
    decreases |events|
  {
    if events == [] then 0
    else
      (if events[0].Other? && events[0].step.Moves? && (r.held || !TimerTheorems.Sleeps(r.t)) then 1 else 0)
      + Effective(Happen(r, events[0]), events[1..])
  }

  lemma {:induction false} ClosedStep(r: Races, e: Event)
    requires Closed(r)
    ensures Closed(Happen(r, e)) && Happen(r, e).t.fired == r.t.fired && MovesLeft(Happen(r, e)) <= MovesLeft(r)
    ensures e.Other? && e.step.Moves? && (r.held || !TimerTheorems.Sleeps(r.t)) ==>
              MovesLeft(Happen(r, e)) < MovesLeft(r) || r.t.sched.Exited?
  {
    hide Leaves, Sifted, Move, MoveRace, WakeRace, Closed, MovesLeft, TimerTheorems.Sleeps;
    match e
    case Other(step) =>
      if step.Moves? {
        ClosedMove(r, step.order);
      } else {
        ClosedOther(r, step);
      }
    case _ => ClosedAdder(r, e);
  }

  lemma {:induction false} ClosedMove(r: Races, order: seq<Id>)
    requires Closed(r)
    ensures var r' := MoveRace(r, order);
            && Closed(r') && r'.t.fired == r.t.fired && MovesLeft(r') <= MovesLeft(r)
            && (r.held || !TimerTheorems.Sleeps(r.t) ==> MovesLeft(r') < MovesLeft(r) || r.t.sched.Exited?)
  {
    hide Arranges, Fire, PopRace, PushBackRace;
  }

  lemma {:induction false} ClosedOther(r: Races, step: Step)
    requires Closed(r) && !step.Moves?
    ensures var r' := Happen(r, Other(step));
            Closed(r') && r'.t.fired == r.t.fired && MovesLeft(r') <= MovesLeft(r)
  {
    hide Arranges, Move, MoveRace;
  }

  lemma {:induction false} ClosedAdder(r: Races, e: Event)
    requires Closed(r) && !e.Other?
    ensures var r' := Happen(r, e);
            Closed(r') && r'.t.fired == r.t.fired && MovesLeft(r') <= MovesLeft(r)
  {
    hide Leaves, Sifted;
  }

  lemma {:induction false} ClosedCourse(r: Races, events: seq<Event>)
    requires Closed(r)
    ensures Closed(Course(r, events)) && Course(r, events).t.fired == r.t.fired
    ensures MovesLeft(Course(r, events)) <= MovesLeft(r)
    decreases |events|
  {
    if events != [] {
      ClosedStep(r, events[0]);
      hide Closed, Happen, MovesLeft;
      ClosedCourse(Happen(r, events[0]), events[1..]);
    }
  }

  lemma {:induction false} ClosedExits(r: Races, events: seq<Event>)
    requires Closed(r)
    ensures Effective(r, events) >= MovesLeft(r) ==> Course(r, events).t.sched.Exited?
    decreases |events|
  {
    if r.t.sched.Exited? {
      ClosedCourse(r, events);
    } else if events != [] {
      ClosedStep(r, events[0]);
      hide Closed, Happen, TimerTheorems.Sleeps;
      ClosedExits(Happen(r, events[0]), events[1..]);
    }
  }

  /** With additions in three steps too: once a close has taken effect no callback starts, the
      scheduler stays told to stop, and it has exited when it has taken four moves awake. */
  lemma {:induction false} NothingFiresAfterClose(r: Races, events: seq<Event>)
    requires r.t.sched.LockFree() && !r.t.sched.Off? && !r.held
    ensures var c := Happen(r, Other(Close));
            && Course(c, events).t.fired == r.t.fired && !Course(c, events).t.run
            && (Effective(c, events) >= 4 ==> Course(c, events).t.sched.Exited?)
  {
    var c := Happen(r, Other(Close));
    assert Closed(c) && c.t.fired == r.t.fired;
    ClosedCourse(c, events);
    ClosedExits(c, events);
  }

  // ---------------------------------------------------------------- a cancelled loop timer

  lemma {:induction false} TimersEvolve(r: Races, e: Event)
    requires Sound(r)
    ensures forall id | id in r.t.timers ::
              id in Happen(r, e).t.timers && Evolves(r.t.timers[id], Happen(r, e).t.timers[id])
  {
    hide Queued, Logged, Leaves, Sifted, Arranges, Fire, Move, MoveRace, WakeRace;
    match e
    case Other(step) =>
      if step.Moves? {
        MoveEvolves(r, step.order);
      } else if step.SpuriousWake? {
        WakeSpent(r);
      }
    case _ =>
  }

  lemma {:induction false} MoveEvolves(r: Races, order: seq<Id>)
    requires Sound(r)
    ensures forall id | id in r.t.timers ::
              id in MoveRace(r, order).t.timers && Evolves(r.t.timers[id], MoveRace(r, order).t.timers[id])
  {
    hide Queued, Logged, PopRace, PushBackRace, Fire;
    if r.t.sched.Popped? {
      FireChangesLittle(r.t, r.t.sched.tmp, r.t.sched.spurious);
    } else if r.t.sched.Expired? || r.t.sched.PushBack? {
      ReorderKeepsTimers(r, order);
    }
  }

  /** Every firing of a timer is due an interval after some moment or later, and so will the
      next one be. */
  ghost predicate DueFrom(s: State, id: Id, from: nat, interval: nat) {
    && from <= s.now
    && (id in s.timers ==> s.timers[id].last == interval && from <= s.timers[id].start)
    && (forall i | 0 <= i < |s.fired| && s.fired[i].id == id :: from + interval <= s.fired[i].due)
  }

  lemma {:induction false} DueStep(r: Races, e: Event, id: Id, from: nat, interval: nat)
    requires Sound(r) && DueFrom(r.t, id, from, interval)
    requires e.Push? && e.id == id ==> e.timer.last == interval && from <= e.timer.start
    ensures DueFrom(Happen(r, e).t, id, from, interval)
  {
    hide Sound, CanPush, MoveRace, WakeRace, Do;
    if e.Other? && e.step.Moves? {
      hide DueFrom;
      MoveDue(r, e.step.order, id, from, interval);
    } else if e.Other? && !e.step.SpuriousWake? && !e.step.Add? {
      hide DueFrom;
      PlainDue(r.t, e.step, id, from, interval);
    } else {
      WakeSpent(r);
      WakeKeepsTime(r);
    }
  }

  lemma {:induction false} PlainDue(s: State, step: Step, id: Id, from: nat, interval: nat)
    requires DueFrom(s, id, from, interval) && (step.Cancel? || step.Tick? || step.Close? || step.Schedule?)
    ensures DueFrom(Do(s, step), id, from, interval)
  {
    hide Arranges, Move;
  }

  lemma {:induction false} WakeKeepsTime(r: Races)
    ensures WakeRace(r).t.now == r.t.now
  {
  }

  lemma {:induction false} MoveDue(r: Races, order: seq<Id>, id: Id, from: nat, interval: nat)
    requires Sound(r) && DueFrom(r.t, id, from, interval)
    ensures DueFrom(MoveRace(r, order).t, id, from, interval)
  {
    hide Queued, Logged, PopRace, PushBackRace, Fire, Arranges;
    assert r.t.sched.Popped? ==> r.t.sched.tmp in r.t.timers && !r.held;
    hide Sound;
    if r.t.sched.Popped? {
      FireDue(r.t, id, from, interval);
    } else if r.t.sched.Expired? || r.t.sched.PushBack? {
      ReorderKeepsTimers(r, order);
      ReorderKeepsTime(r, order);
    }
  }

  lemma {:induction false} TimeGoesOn(r: Races, e: Event)
    requires Sound(r)
    ensures r.t.now <= Happen(r, e).t.now
  {
    hide Queued, Logged, Leaves, Sifted, Arranges, MoveRace, WakeRace;
    match e
    case Other(step) =>
      if step.Moves? {
        MoveKeepsTime(r, step.order);
      } else if step.SpuriousWake? {
        WakeKeepsTime(r);
      }
    case _ =>
  }

  lemma {:induction false} MoveKeepsTime(r: Races, order: seq<Id>)
    requires Sound(r)
    ensures MoveRace(r, order).t.now == r.t.now
  {
    hide Queued, Logged, PopRace, PushBackRace, Arranges;
    if r.t.sched.Expired? || r.t.sched.PushBack? {
      ReorderKeepsTime(r, order);
    }
  }

  lemma {:induction false} ReorderKeepsTime(r: Races, order: seq<Id>)
    ensures r.t.sched.Expired? ==> PopRace(r, order).t.now == r.t.now
    ensures r.t.sched.PushBack? ==> PushBackRace(r, order).t.now == r.t.now
  {
    hide Leaves;
  }

  lemma {:induction false} FireDue(s: State, id: Id, from: nat, interval: nat)
    requires s.sched.Popped? && s.sched.tmp in s.timers && DueFrom(s, id, from, interval)
    ensures DueFrom(Fire(s, s.sched.tmp, s.sched.spurious), id, from, interval)
  {
  }

  lemma {:induction false} CancelledStep(r: Races, e: Event, id: Id)
    requires Sound(r) && TimerTheorems.Cancelled(r.t, id)
    ensures TimerTheorems.Cancelled(Happen(r, e).t, id)
  {
    hide Sound, Happen;
    TimersEvolve(r, e);
  }

  lemma {:induction false} OffStep(r: Races, e: Event, id: Id)
    requires Sound(r) && TimerTheorems.Cancelled(r.t, id) && id !in r.t.heap
    ensures id !in Happen(r, e).t.heap
  {
    hide Queued, Logged, Arranges, Leaves, Sifted, Fire, Move, MoveRace, WakeRace;
    match e
    case Push(x, timer, order) => LeavesContent(r.intact, order, r.t.heap + [x], r.t.timers[x := timer]);
    case Other(step) =>
      if step.Moves? {
        MoveKeepsOff(r, step.order, id);
      } else if step.SpuriousWake? {
        WakeKeepsHeap(r);
      }
    case _ =>
  }

  lemma {:induction false} WakeKeepsHeap(r: Races)
    ensures WakeRace(r).t.heap == r.t.heap
  {
  }

  lemma {:induction false} MoveKeepsOff(r: Races, order: seq<Id>, id: Id)
    requires Sound(r) && TimerTheorems.Cancelled(r.t, id) && id !in r.t.heap
    ensures id !in MoveRace(r, order).t.heap
  {
    hide Queued, Logged, Arranges, Leaves, Fire;
    var s := r.t;
    if s.sched.Expired? && s.heap != [] {
      LeavesContent(r.intact, order, s.heap[1..], s.timers);
    } else if s.sched.PushBack? {
      LeavesContent(r.intact, order, s.heap + [s.sched.tmp], s.timers);
    } else if s.sched.Popped? {
      FireChangesLittle(s, s.sched.tmp, s.sched.spurious);
    }
  }

  lemma {:induction false} StaysOff(r: Races, events: seq<Event>, id: Id)
    requires Sound(r) && TimerTheorems.Cancelled(r.t, id)
    ensures Sound(Course(r, events)) && TimerTheorems.Cancelled(Course(r, events).t, id)
    ensures id !in r.t.heap ==> id !in Course(r, events).t.heap
    decreases |events|
  {
    if events != [] {
      hide Sound, Happen, TimerTheorems.Cancelled;
      HappenSound(r, events[0]);
      CancelledStep(r, events[0], id);
      if id !in r.t.heap {
        OffStep(r, events[0], id);
      }
      StaysOff(Happen(r, events[0]), events[1..], id);
    }
  }

  /** However a course goes on after a loop timer is cancelled, even if timers get lost, the
      timer starts no more, and once off the queue it is never queued again. While nothing is
      lost, its next turn takes it off. */
  lemma {:induction false} CancelledLoopIsDropped(now: nat, before: seq<Event>, id: Id, p: seq<Event>, q: seq<Event>)
    ensures var r := Course(Start(now), before);
            var c := Course(Happen(r, Other(Cancel(id))), p);
            id in r.t.timers && r.t.timers[id].kind.Loop? && r.t.timers[id].claim.Free? ==>
              && (id !in c.t.heap || (c.intact && id in Hand(c.t.sched)) ==> id !in Course(c, q).t.heap)
              && Firings(Course(c, q).t.fired, id) == Firings(r.t.fired, id)
  {
    EveryCourseIsInOrder(now, before);
    var r := Course(Start(now), before);
    if id in r.t.timers && r.t.timers[id].kind.Loop? && r.t.timers[id].claim.Free? {
      DropAfterCancel(r, id, p, q);
    }
  }

  lemma {:induction false} DropAfterCancel(r: Races, id: Id, p: seq<Event>, q: seq<Event>)
    requires Sound(r) && InOrder(r) && id in r.t.timers && r.t.timers[id].kind.Loop? && r.t.timers[id].claim.Free?
    ensures var c := Course(Happen(r, Other(Cancel(id))), p);
            && (id !in c.t.heap || (c.intact && id in Hand(c.t.sched)) ==> id !in Course(c, q).t.heap)
            && Firings(Course(c, q).t.fired, id) == Firings(r.t.fired, id)
  {
    var c0 := Happen(r, Other(Cancel(id)));
    assert TimerTheorems.Cancelled(c0.t, id) && TimerTheorems.Spent(c0.t, id) && c0.t.fired == r.t.fired;
    hide Sound, InOrder, Happen, Course, Firings, TimerTheorems.Cancelled, TimerTheorems.Spent;
    HappenSound(r, Other(Cancel(id)));
    HappenInOrder(r, Other(Cancel(id)));
    CourseInOrder(c0, p);
    StaysOff(c0, p, id);
    var c := Course(c0, p);
    if c.intact {
      HandIsOff(c);
    }
    StaysOff(c, q, id);
    CourseAppend(c0, p, q);
    SpentNeverFires(c0, p + q, id);
  }

  // ---------------------------------------------------------------- going on

  /** Is the scheduler in a wait that nothing has ended? */
  predicate Asleep(r: Races) {
    r.t.sched.Waits() && !r.held && !r.t.sched.notified && r.t.now < r.t.sched.deadline
  }

  /** Even when timers get lost the scheduler has a move wherever it does not sleep; and a
      spurious wake-up ends a sleep. */
  lemma {:induction false} NeverStuck(now: nat, events: seq<Event>)
    ensures var r := Course(Start(now), events);
            && ((exists order :: MoveRace(r, order) != r) <==> r.held || !(r.t.sched.Off? || r.t.sched.Exited? || Asleep(r)))
            && (Asleep(r) ==> !Happen(r, Other(SpuriousWake)).t.sched.Waits())
  {
    var r := Course(Start(now), events);
    EveryCourseIsSound(now, events);
    hide Logged, Leaves;
    if !r.held && (r.t.sched.Expired? || r.t.sched.PushBack?) {
      ReorderMoves(r);
    } else {
      hide Queued, Sound;
      assert r.t.sched.Popped? ==> r.t.sched.tmp in r.t.timers;
      assert r.t.sched.Ready? ==> r.t.heap == [] || r.t.heap[0] in r.t.timers by {
        SoundTop(r);
      }
      PlainMoves(r);
    }
  }

  lemma {:induction false} SoundTop(r: Races)
    requires Sound(r)
    ensures r.t.heap == [] || r.t.heap[0] in r.t.timers
  {
  }

  lemma {:induction false} PlainMoves(r: Races)
    requires r.held ==> r.t.sched.Test? || r.t.sched.IdleWait?
    requires r.held || (!r.t.sched.Expired? && !r.t.sched.PushBack?)
    requires r.t.sched.Popped? ==> r.t.sched.tmp in r.t.timers
    requires r.t.sched.Ready? ==> r.t.heap == [] || r.t.heap[0] in r.t.timers
    ensures (exists order :: MoveRace(r, order) != r) <==> r.held || !(r.t.sched.Off? || r.t.sched.Exited? || Asleep(r))
  {
    hide TimerScheduler.Arranges, Leaves, Fire, PopRace, PushBackRace;
    if r.t.sched.Popped? {
      FireChangesLittle(r.t, r.t.sched.tmp, r.t.sched.spurious);
    }
    var moved := MoveRace(r, []);
    assert forall order :: MoveRace(r, order) == moved;
  }

  lemma {:induction false} ReorderMoves(r: Races)
    requires Queued(r.t) && Watch(r.t) && !r.held && (r.t.sched.Expired? || r.t.sched.PushBack?)
    ensures exists order :: MoveRace(r, order) != r
  {
    hide TimerScheduler.Arranges;
    var s := r.t;
    var content := if s.sched.Expired? then s.heap[1..] else s.heap + [s.sched.tmp];
    var order := TimerTheorems.SomeArrangement(content, s.timers);
    TimerTheorems.OrderHolds(order, content, s.timers);
    assert MoveRace(r, order).t.sched != s.sched;
  }

  /** On an empty queue the scheduler sleeps for five minutes, counted from when it gives up
      `mtx`, unless it is notified or wakes spuriously: whatever time passes and whatever it
      tries before, it sleeps on, and as soon as they are over its next move takes it on. */
  lemma {:induction false} IdleWaitLasts(r: Races, order: seq<Id>, events: seq<Event>)
    requires Sound(r) && r.held && r.t.sched.IdleWait?
    requires forall i | 0 <= i < |events| :: events[i].Other? && (events[i].step.Moves? || events[i].step.Tick?)
    ensures var asleep, c := Happen(r, Other(Moves(order))), Course(Happen(r, Other(Moves(order))), events);
            && (c.t.now < r.t.now + 300_000_000_000 ==> Asleep(c) && c == asleep.(t := asleep.t.(now := c.t.now)))
            && (Asleep(c) && c.t.now < r.t.now + 300_000_000_000 ==>
                  var late := Happen(c, Other(Tick(r.t.now + 300_000_000_000 - c.t.now)));
                  Happen(late, Other(Moves(order))).t.sched.Ready?)
  {
    HappenSound(r, Other(Moves(order)));
    SleepsUntil(Happen(r, Other(Moves(order))), events);
  }

  lemma {:induction false} TimePasses(r: Races, events: seq<Event>)
    requires Sound(r)
    ensures r.t.now <= Course(r, events).t.now
    decreases |events|
  {
    hide Sound, Happen;
    if events != [] {
      TimeGoesOn(r, events[0]);
      HappenSound(r, events[0]);
      TimePasses(Happen(r, events[0]), events[1..]);
    }
  }

  lemma {:induction false} SleepsUntil(r: Races, events: seq<Event>)
    requires Sound(r) && !r.held && r.t.sched.IdleWait? && !r.t.sched.notified
    requires forall i | 0 <= i < |events| :: events[i].Other? && (events[i].step.Moves? || events[i].step.Tick?)
    ensures Course(r, events).t.now < r.t.sched.deadline ==> Course(r, events) == r.(t := r.t.(now := Course(r, events).t.now))
    decreases |events|
  {
    TimePasses(r, events);
    if events != [] && Course(r, events).t.now < r.t.sched.deadline {
      var r' := Happen(r, events[0]);
      HappenSound(r, events[0]);
      TimePasses(r', events[1..]);
      assert r'.t.sched == r.t.sched && r' == r.(t := r.t.(now := r'.t.now)) by {
        SleepStep(r, events[0]);
      }
      SleepsUntil(r', events[1..]);
    }
  }

  lemma {:induction false} SleepStep(r: Races, e: Event)
    requires !r.held && r.t.sched.IdleWait? && !r.t.sched.notified && r.t.now < r.t.sched.deadline
    requires e.Other? && (e.step.Moves? || e.step.Tick?)
    ensures Happen(r, e) == r.(t := r.t.(now := Happen(r, e).t.now))
  {
  }

  /** In every interleaving the loop ends only if it has been told to, by a close. */
  lemma {:induction false} ExitsOnlyIfTold(now: nat, events: seq<Event>)
    ensures var s := Course(Start(now), events).t;
            s.sched.Exited? ==> !s.run && Other(Close) in events
  {
    StaysIfNotTold(Start(now), events);
  }

  /** Not told to stop, and not stopped. */
  predicate Untold(s: State) { !s.sched.Exited? && (s.sched.Off? || s.run) }

  lemma {:induction false} StaysIfNotTold(r: Races, events: seq<Event>)
    requires r.t.sched.Exited? ==> !r.t.run
    ensures var s := Course(r, events).t;
            (s.sched.Exited? ==> !s.run) && (Untold(r.t) && Other(Close) !in events ==> Untold(s))
    decreases |events|
  {
    if events != [] {
      StepIfNotTold(r, events[0]);
      hide Happen, Untold;
      StaysIfNotTold(Happen(r, events[0]), events[1..]);
    }
  }

  lemma {:induction false} StepIfNotTold(r: Races, e: Event)
    requires r.t.sched.Exited? ==> !r.t.run
    ensures var s := Happen(r, e).t;
            (s.sched.Exited? ==> !s.run) && (Untold(r.t) && e != Other(Close) ==> Untold(s))
  {
    hide TimerScheduler.Arranges, Leaves, Sifted, MoveRace;
    if e.Other? && e.step.Moves? {
      MoveIfNotTold(r, e.step.order);
    }
  }

  lemma {:induction false} MoveIfNotTold(r: Races, order: seq<Id>)
    requires r.t.sched.Exited? ==> !r.t.run
    ensures var s := MoveRace(r, order).t;
            (s.sched.Exited? ==> !s.run) && (Untold(r.t) ==> Untold(s))
  {
    hide TimerScheduler.Arranges, Leaves, Fire, Measure, Move, PopRace, PushBackRace;
    TimerTheorems.StepIfNotTold(r.t, Moves([]));
    OwnMoveIfNotTold(r, order);
  }

  lemma {:induction false} OwnMoveIfNotTold(r: Races, order: seq<Id>)
    ensures r.t.sched.Ready? ==> (Measure(r.t).sched.Exited? ==> !Measure(r.t).run) && (Untold(r.t) ==> Untold(Measure(r.t)))
    ensures r.t.sched.Expired? ==>
              var s := PopRace(r, order).t;
              (s.sched.Exited? ==> !s.run) && (Untold(r.t) ==> Untold(s))
    ensures r.t.sched.PushBack? ==>
              var s := PushBackRace(r, order).t;
              (s.sched.Exited? ==> !s.run) && (Untold(r.t) ==> Untold(s))
  {
    hide TimerScheduler.Arranges, Leaves;
  }
}
