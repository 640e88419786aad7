/**
  Progress of the timer scheduler: a timer that is due and has the right to run is run,
  within a bounded number of moves that the scheduler takes awake.
 */
module TimerProgress {
  import opened TimerScheduler
  import TimerTheorems

  /** Overdue, with the right to run, and due before every other timer that is queued or about
      to be; the scheduler has begun and goes on. */
  ghost predicate Foremost(s: State, id: Id) {
    && s.run && !s.sched.Off? && !s.sched.Exited?
    && id in s.timers && s.timers[id].Runs() && s.timers[id].Key() < s.now
    && (s.sched.PushBack? && s.sched.tmp in s.timers && s.timers[s.sched.tmp].kind.Loop? ==>
          s.timers[id].Key() < s.timers[s.sched.tmp].Key())
    && (AtItsTurn(s, id) || (id in s.heap && First(s, id)))
  }

  /** Popped, and about to be run. */
  predicate AtItsTurn(s: State, id: Id) { s.sched.Popped? && s.sched.tmp == id }

  ghost predicate First(s: State, id: Id)
    requires id in s.timers
  {
    forall x | x in s.heap && x in s.timers && x != id :: s.timers[id].Key() < s.timers[x].Key()
  }

  /** Nothing in the schedule stops the scheduler, cancels the timer or goes before it. */
  predicate Lets(step: Step, id: Id, key: nat) {
    match step
    case Add(_, timer, _) => key < timer.Key()
    case Cancel(x) => x != id
    case Close => false
    case _ => true
  }

  predicate AllLet(schedule: seq<Step>, id: Id, key: nat) {
    forall i | 0 <= i < |schedule| :: Lets(schedule[i], id, key)
  }

  /** The moves still to take until the foremost timer is run, if its delay is used up. */
  function MovesOn(c: Scheduler, id: Id): nat {
    match c
    case Popped(tmp, _) => if tmp == id then 1 else 9
    case Expired(_, _) => 2
    case Ready => 3
    case Entering => 4
    case IdleWait(_, _) => 4
    case Test => 5
    case PushBack(_) => 6
    case TimedWait(_, _, _) => 6
    case Called(_) => 7
    case Measured(_, _) => 7
    case Calling(_) => 8
    case _ => 0
  }

  /** A timer with an initial delay may be measured and waited for once more. */
  function MovesToRun(s: State, id: Id): nat
    requires id in s.timers
  {
    MovesOn(s.sched, id) + if s.timers[id].delay > 0 && !AtItsTurn(s, id) then 5 else 0
  }

  /** The moves of a schedule that get the scheduler anywhere: not those it takes asleep, nor
      those that would leave the queue out of order. */
  function Effective(s: State, schedule: seq<Step>): nat
    decreases |schedule|
  {
    if schedule == [] then 0
    else
      (if schedule[0].Moves? && Do(s, schedule[0]) != s then 1 else 0) + Effective(Do(s, schedule[0]), schedule[1..])
  }

  lemma {:induction false} FirstIsTop(s: State, id: Id)
    requires Inv(s) && id in s.timers && id in s.heap && First(s, id)
    ensures s.heap[0] == id
  {
    hide FateInv, FiredInv, OnceInv, LogInv, SchedulerInv;
    assert s.heap[0] in s.heap;
  }

  /** Its turn come, the timer is run by the next move. */
  lemma {:induction false} TurnFires(s: State, order: seq<Id>, id: Id)
    requires Foremost(s, id) && AtItsTurn(s, id)
    ensures Firings(Move(s, order).fired, id) == Firings(s.fired, id) + 1
  {
    hide Firings, First;
    FiringsAppend(s.fired, Firing(id, s.now, s.timers[id].Key(), s.sched.spurious), id);
  }

  /** Testing, measuring and waiting for the first timer. */
  lemma {:induction false} WaitAdvances(s: State, order: seq<Id>, id: Id)
    requires Inv(s) && TimerTheorems.SleepsOnTop(s) && TimerTheorems.DelayUsedUp(s) && Foremost(s, id) && s.heap != [] && s.heap[0] == id
    requires s.sched.Test? || s.sched.Entering? || s.sched.Ready? || s.sched.Measured? || s.sched.Waits()
    ensures var s' := Move(s, order);
            && Foremost(s', id) && s'.timers[id].Key() == s.timers[id].Key()
            && (s' != s ==> MovesToRun(s', id) < MovesToRun(s, id))
  {
    hide HeapInv, FateInv, FiredInv, OnceInv, LogInv, Arranges, Fire;
  }

  /** The first timer is popped, if the queue is left in order. */
  lemma {:induction false} PopAdvances(s: State, order: seq<Id>, id: Id)
    requires Inv(s) && TimerTheorems.DelayUsedUp(s) && Foremost(s, id) && s.heap != [] && s.heap[0] == id && s.sched.Expired?
    ensures var s' := Move(s, order);
            && Foremost(s', id) && s'.timers[id].Key() == s.timers[id].Key()
            && (s' != s ==> MovesToRun(s', id) < MovesToRun(s, id))
  {
    hide HeapInv, FateInv, FiredInv, OnceInv, LogInv, Arranges, First;
  }

  /** Another timer's turn up to its end. */
  lemma {:induction false} RunAdvances(s: State, order: seq<Id>, id: Id)
    requires Inv(s) && Foremost(s, id) && s.sched.Popped? && s.sched.tmp != id
    ensures var s' := Move(s, order);
            && Foremost(s', id) && s'.timers[id].Key() == s.timers[id].Key()
            && (s' != s ==> MovesToRun(s', id) < MovesToRun(s, id))
  {
    hide HeapInv, FateInv, FiredInv, OnceInv, LogInv;
  }

  lemma {:induction false} CallAdvances(s: State, order: seq<Id>, id: Id)
    requires Inv(s) && Foremost(s, id) && (s.sched.Calling? || s.sched.Called?)
    ensures var s' := Move(s, order);
            && Foremost(s', id) && s'.timers[id].Key() == s.timers[id].Key()
            && (s' != s ==> MovesToRun(s', id) < MovesToRun(s, id))
  {
    hide FateInv, FiredInv, OnceInv, LogInv, Arranges, Fire;
    assert s.sched.tmp !in s.heap;
  }

  lemma {:induction false} PushBackAdvances(s: State, order: seq<Id>, id: Id)
    requires Inv(s) && Foremost(s, id) && s.sched.PushBack?
    ensures var s' := Move(s, order);
            && Foremost(s', id) && s'.timers[id].Key() == s.timers[id].Key()
            && (s' != s ==> MovesToRun(s', id) < MovesToRun(s, id))
  {
    hide FateInv, FiredInv, OnceInv, LogInv;
    if Arranges(order, s.heap + [s.sched.tmp], s.timers) {
      Rearranged(order, s.heap + [s.sched.tmp], s.timers);
    }
  }

  /** Before that every effective move brings it nearer. */
  lemma {:induction false} MoveAdvances(s: State, order: seq<Id>, id: Id)
    requires Inv(s) && TimerTheorems.SleepsOnTop(s) && TimerTheorems.DelayUsedUp(s) && Foremost(s, id) && !AtItsTurn(s, id)
    ensures var s' := Move(s, order);
            && Foremost(s', id) && s'.timers[id].Key() == s.timers[id].Key()
            && (s' != s ==> MovesToRun(s', id) < MovesToRun(s, id))
  {
    FirstIsTop(s, id);
    match s.sched
    case Expired(_, _) => PopAdvances(s, order, id);
    case Popped(_, _) => RunAdvances(s, order, id);
    case Calling(_) => CallAdvances(s, order, id);
    case Called(_) => CallAdvances(s, order, id);
    case PushBack(_) => PushBackAdvances(s, order, id);
    case _ => WaitAdvances(s, order, id);
  }

  /** What others do, and spurious wake-ups, do not set it back. */
  lemma {:induction false} OthersLet(s: State, step: Step, id: Id)
    requires Inv(s) && TimerTheorems.SleepsOnTop(s) && TimerTheorems.DelayUsedUp(s) && Foremost(s, id)
    requires !step.Moves? && Lets(step, id, s.timers[id].Key())
    ensures var s' := Do(s, step);
            && Foremost(s', id) && s'.timers[id].Key() == s.timers[id].Key() && s'.fired == s.fired
            && MovesToRun(s', id) <= MovesToRun(s, id)
  {
    hide FateInv, FiredInv, OnceInv, LogInv, Move, Fire;
    match step
    case Add(x, timer, order) => AddLets(s, x, timer, order, id);
    case _ => hide Arranges;
  }

  lemma {:induction false} AddLets(s: State, x: Id, timer: Timer, order: seq<Id>, id: Id)
    requires Foremost(s, id) && s.timers[id].Key() < timer.Key()
    ensures var s' := Do(s, Add(x, timer, order));
            && Foremost(s', id) && s'.timers[id].Key() == s.timers[id].Key() && s'.fired == s.fired
            && MovesToRun(s', id) <= MovesToRun(s, id)
  {
    var timers := s.timers[x := timer];
    if Arranges(order, s.heap + [x], timers) {
      Rearranged(order, s.heap + [x], timers);
    }
    hide Arranges;
  }

  lemma {:induction false} FiringsGrow(s: State, schedule: seq<Step>, id: Id)
    requires Inv(s)
    ensures Firings(Run(s, schedule).fired, id) >= Firings(s.fired, id)
    decreases |schedule|
  {
    hide Inv, Do, Firings;
    if schedule != [] {
      DoSafe(s, schedule[0]);
      FiringsStep(s, schedule[0], id);
      FiringsGrow(Do(s, schedule[0]), schedule[1..], id);
    }
  }

  lemma {:induction false} FiringsStep(s: State, step: Step, id: Id)
    ensures Firings(Do(s, step).fired, id) >= Firings(s.fired, id)
  {
    hide Arranges, Fire, Firings, Measure, EndWait;
    if step.Moves? && s.sched.Popped? && s.sched.tmp in s.timers {
      FireChangesLittle(s, s.sched.tmp, s.sched.spurious);
      FiringsAppend(s.fired, Firing(s.sched.tmp, s.now, s.timers[s.sched.tmp].Key(), s.sched.spurious), id);
    } else {
      NothingFires(s, step);
    }
  }

  lemma {:induction false} NothingFires(s: State, step: Step)
    requires !(step.Moves? && s.sched.Popped? && s.sched.tmp in s.timers)
    ensures Do(s, step).fired == s.fired
  {
    hide Arranges, Fire;
  }

  /** An overdue timer that is due before all others is run: whatever else happens, once the
      scheduler has taken the moves that were left, unless it is told to stop, the timer is
      cancelled, or another that is due no later is added. At most fourteen moves are left. */
  lemma {:induction false} ForemostIsRun(s: State, schedule: seq<Step>, id: Id)
    requires Inv(s) && TimerTheorems.SleepsOnTop(s) && TimerTheorems.DelayUsedUp(s) && Foremost(s, id)
    requires AllLet(schedule, id, s.timers[id].Key()) && Effective(s, schedule) >= MovesToRun(s, id)
    ensures Firings(Run(s, schedule).fired, id) > Firings(s.fired, id)
    ensures MovesToRun(s, id) <= 14
    decreases |schedule|
  {
    hide Inv, Foremost, Move, Firings, MovesToRun, TimerTheorems.SleepsOnTop, TimerTheorems.DelayUsedUp;
    MovesAreLeft(s, id);
    if schedule != [] {
      var step, rest := schedule[0], schedule[1..];
      var s' := Do(s, step);
      DoSafe(s, step);
      TimerTheorems.OnTopStep(s, step);
      TimerTheorems.DelayStep(s, step);
      if step.Moves? && AtItsTurn(s, id) {
        TurnFires(s, step.order, id);
        FiringsGrow(s', rest, id);
      } else {
        if step.Moves? {
          MoveAdvances(s, step.order, id);
          FiringsStep(s, step, id);
        } else {
          OthersLet(s, step, id);
        }
        hide Do;
        ForemostIsRun(s', rest, id);
      }
    }
  }

  lemma {:induction false} MovesAreLeft(s: State, id: Id)
    requires Foremost(s, id)
    ensures id in s.timers && 1 <= MovesToRun(s, id) <= 14
  {
  }
}
