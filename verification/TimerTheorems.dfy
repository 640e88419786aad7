/** The main results about the timer scheduler. */
module TimerTheorems {
  import opened TimerScheduler

  lemma {:induction false} RunSafe(s: State, schedule: seq<Step>)
    requires Inv(s)
    ensures Inv(Run(s, schedule))
    decreases |schedule|
  {
    hide Inv, Do;
    if schedule != [] {
      DoSafe(s, schedule[0]);
      RunSafe(Do(s, schedule[0]), schedule[1..]);
    }
  }

  lemma {:induction false} Reachable(now: nat, schedule: seq<Step>)
    ensures Inv(Run(Initial(now), schedule))
  {
    assert Inv(Initial(now));
    RunSafe(Initial(now), schedule);
  }

  // ---------------------------------------------------------------- the right timer

  /** When `timer_run` is about to pop, the top is the timer it measured, and no pending
      timer has a smaller key; what it runs afterwards is that timer, no longer queued. */
  lemma {:induction false} PopsTheTimerMeasured(now: nat, schedule: seq<Step>, order: seq<Id>)
    ensures var s := Run(Initial(now), schedule);
            s.sched.Expired? ==>
              && s.heap != [] && s.heap[0] == s.sched.tmp && s.sched.tmp in s.timers
              && (forall id | id in s.heap :: id in s.timers && s.timers[s.sched.tmp].Key() <= s.timers[id].Key())
              && (Move(s, order).sched.Popped? ==>
                    && Move(s, order).sched.tmp == s.sched.tmp
                    && multiset(s.heap) == multiset(Move(s, order).heap) + multiset{s.sched.tmp})
  {
    Reachable(now, schedule);
    var s := Run(Initial(now), schedule);
    hide FateInv, FiredInv, OnceInv, LogInv;
    if s.sched.Expired? {
      assert s.heap == [s.heap[0]] + s.heap[1..];
    }
  }

  /** No step changes the key of a timer that is queued before and after it. */
  lemma {:induction false} QueuedKeysAreFixed(s: State, step: Step, id: Id)
    requires Inv(s) && id in s.heap && id in Do(s, step).heap
    ensures id in s.timers && id in Do(s, step).timers
    ensures Do(s, step).timers[id].Key() == s.timers[id].Key()
  {
    hide FateInv, FiredInv, OnceInv, LogInv, SchedulerInv, Arranges, Fire;
    if step.Moves? && s.sched.Popped? {
      FireChangesLittle(s, s.sched.tmp, s.sched.spurious);
    }
  }

  // ---------------------------------------------------------------- fates

  /** Every timer ever added is in exactly one place: queued once, in the hand of the
      scheduler, or over. A one-shot timer that is over has fired exactly once, or a cancel
      won its claim and it has never fired, or it had no callback; a loop timer that is over
      has no callback left. */
  lemma {:induction false} EveryTimerHasAFate(now: nat, schedule: seq<Step>, id: Id)
    ensures var s := Run(Initial(now), schedule);
            id in s.timers ==>
              && (multiset(s.heap)[id] == 1 || id in Hand(s.sched) || Over(s, id))
              && !(id in s.heap && id in Hand(s.sched)) && !(id in s.heap && Over(s, id)) && !(id in Hand(s.sched) && Over(s, id))
              && (s.timers[id].kind.Once? ==> Firings(s.fired, id) == if s.timers[id].claim == ByTurn(true) then 1 else 0)
              && (Over(s, id) ==> if s.timers[id].kind.Once? then !s.timers[id].claim.Free? else !s.timers[id].callback)
  {
    hide SchedulerInv, FiredInv, Firings;
    Reachable(now, schedule);
  }

  /** Neither queued nor in the hand of the scheduler. */
  predicate Over(s: State, id: Id) { id !in s.heap && id !in Hand(s.sched) }

  /** Can the timer start a callback no more? */
  predicate Spent(s: State, id: Id) { id in s.timers && !s.timers[id].Runs() }

  lemma {:induction false} SpentStep(s: State, step: Step, id: Id)
    requires Inv(s) && Spent(s, id)
    ensures Spent(Do(s, step), id) && Firings(Do(s, step).fired, id) == Firings(s.fired, id)
  {
    hide HeapInv, FateInv, FiredInv, OnceInv, LogInv, SchedulerInv, Arranges, Firings;
    if step.Moves? && s.sched.Popped? && s.sched.tmp in s.timers {
      FiringsAppend(s.fired, Firing(s.sched.tmp, s.now, s.timers[s.sched.tmp].Key(), s.sched.spurious), id);
    }
  }

  /** A timer without the right to run never starts again, whatever happens. */
  lemma {:induction false} SpentNeverFires(s: State, schedule: seq<Step>, id: Id)
    requires Inv(s) && Spent(s, id)
    ensures Firings(Run(s, schedule).fired, id) == Firings(s.fired, id)
    decreases |schedule|
  {
    hide Inv, Spent, Do, Firings;
    if schedule != [] {
      DoSafe(s, schedule[0]);
      SpentStep(s, schedule[0], id);
      SpentNeverFires(Do(s, schedule[0]), schedule[1..], id);
    }
  }

  /** Once a cancel has taken effect the timer never starts again; a one-shot timer whose
      claim the cancel won has never fired at all. */
  lemma {:induction false} CancelIsFinal(s: State, id: Id, schedule: seq<Step>)
    requires Inv(s) && id in s.timers && s.timers[id].claim.Free?
    ensures var r := Run(Do(s, Cancel(id)), schedule);
            && Firings(r.fired, id) == Firings(s.fired, id)
            && (s.timers[id].kind.Once? ==> Firings(r.fired, id) == 0)
  {
    hide Firings;
    DoSafe(s, Cancel(id));
    SpentNeverFires(Do(s, Cancel(id)), schedule, id);
  }

  /** Off the queue, and not to be pushed back when its turn is over. */
  predicate OffForGood(s: State, id: Id) {
    && id in s.timers && id !in s.heap
    && (id in Hand(s.sched) ==> s.timers[id].kind.Once? || !s.timers[id].callback)
  }

  /** A loop timer that has lost its callback. */
  predicate Cancelled(s: State, id: Id) { id in s.timers && s.timers[id].kind.Loop? && !s.timers[id].callback }

  /** No step but an addition makes a timer, and none brings back what is used up. */
  lemma {:induction false} TimersEvolve(s: State, step: Step)
    ensures forall id | id in s.timers :: id in Do(s, step).timers && Evolves(s.timers[id], Do(s, step).timers[id])
  {
    hide Arranges, Fire;
    if step.Moves? && s.sched.Popped? && s.sched.tmp in s.timers {
      FireChangesLittle(s, s.sched.tmp, s.sched.spurious);
    }
  }

  lemma {:induction false} CancelledStep(s: State, step: Step, id: Id)
    requires Cancelled(s, id)
    ensures Cancelled(Do(s, step), id)
  {
    hide Do;
    TimersEvolve(s, step);
  }

  lemma {:induction false} CancelledRun(s: State, schedule: seq<Step>, id: Id)
    requires Inv(s) && Cancelled(s, id)
    ensures Inv(Run(s, schedule)) && Cancelled(Run(s, schedule), id)
    decreases |schedule|
  {
    hide Inv, Cancelled, Do;
    if schedule != [] {
      DoSafe(s, schedule[0]);
      CancelledStep(s, schedule[0], id);
      CancelledRun(Do(s, schedule[0]), schedule[1..], id);
    }
  }

  /** However a run goes on after a loop timer is cancelled, the timer starts no more; and
      once its turn has taken it off the queue, or it was off when it was cancelled, it is
      never queued again. */
  lemma {:induction false} CancelledLoopIsDropped(s: State, id: Id, p: seq<Step>, q: seq<Step>)
    requires Inv(s) && id in s.timers && s.timers[id].kind.Loop? && s.timers[id].claim.Free?
    ensures var c := Run(Do(s, Cancel(id)), p);
            && (id in Hand(c.sched) || id !in c.heap ==> id !in Run(c, q).heap)
            && Firings(Run(c, q).fired, id) == Firings(s.fired, id)
  {
    var c0 := Do(s, Cancel(id));
    assert Cancelled(c0, id) && Spent(c0, id) && c0.fired == s.fired;
    DoSafe(s, Cancel(id));
    hide Do, Inv, Run, Firings;
    CancelledRun(c0, p, id);
    var c := Run(c0, p);
    SpentNeverFires(c0, p, id);
    SpentNeverFires(c, q, id);
    HandIsOffQueue(c);
    if id !in c.heap {
      OffQueueForGood(c, id, q);
    }
  }

  lemma {:induction false} HandIsOffQueue(s: State)
    requires Inv(s)
    ensures forall id | id in Hand(s.sched) :: id !in s.heap
  {
  }

  lemma {:induction false} OffQueueForGood(s: State, id: Id, schedule: seq<Step>)
    requires Inv(s) && OffForGood(s, id)
    ensures OffForGood(Run(s, schedule), id)
    decreases |schedule|
  {
    hide Inv, Do, OffForGood;
    if schedule != [] {
      OffStep(s, schedule[0], id);
      DoSafe(s, schedule[0]);
      OffQueueForGood(Do(s, schedule[0]), id, schedule[1..]);
    }
  }

  lemma {:induction false} OffStep(s: State, step: Step, id: Id)
    requires Inv(s) && OffForGood(s, id)
    ensures OffForGood(Do(s, step), id)
  {
    hide FateInv, FiredInv, OnceInv, LogInv, Move;
    match step
    case Add(x, timer, order) => ArrangedIn(order, s.heap + [x], s.timers[x := timer], id);
    case Moves(order) =>
      hide SchedulerInv, HeapInv, OffForGood;
      MoveKeepsOff(s, order, id);
    case _ =>
  }

  lemma {:induction false} MoveKeepsOff(s: State, order: seq<Id>, id: Id)
    requires Inv(s) && OffForGood(s, id)
    ensures OffForGood(Move(s, order), id)
  {
    hide FateInv, FiredInv, OnceInv, LogInv, HeapInv, Fire, Arranges;
    match s.sched
    case Expired(_, _) =>
      if s.heap != [] {
        ArrangedIn(order, s.heap[1..], s.timers, id);
      }
    case PushBack(tmp) => ArrangedIn(order, s.heap + [tmp], s.timers, id);
    case Popped(tmp, spurious) => FireChangesLittle(s, tmp, spurious);
    case _ =>
  }

  lemma {:induction false} ArrangedIn(order: seq<Id>, content: seq<Id>, timers: map<Id, Timer>, id: Id)
    ensures Arranges(order, content, timers) && id in order ==> id in content
  {
    assert id in order ==> id in multiset(order);
  }

  // ---------------------------------------------------------------- additions are heard

  /** Asleep un-notified the scheduler sleeps on an empty queue, or on the timer that is on
      top of it; and it is on its way to such a sleep when it has measured the top. */
  predicate SleepsOnTop(s: State) {
    match s.sched
    case IdleWait(_, notified) => !notified ==> s.heap == []
    case Measured(tmp, _) => s.heap != [] && s.heap[0] == tmp
    case TimedWait(tmp, _, notified) => !notified ==> s.heap != [] && s.heap[0] == tmp
    case _ => true
  }

  /** In no interleaving does the scheduler sleep through an addition made with `mtx` held:
      un-notified it waits on an empty queue, or for a timer that no other is due before. */
  lemma {:induction false} NoAdditionGoesUnheard(now: nat, schedule: seq<Step>)
    ensures var s := Run(Initial(now), schedule);
            && (s.sched.IdleWait? && !s.sched.notified ==> s.heap == [])
            && (s.sched.TimedWait? && !s.sched.notified ==>
                  && s.heap != [] && s.heap[0] == s.sched.tmp && s.sched.tmp in s.timers
                  && forall id | id in s.heap :: id in s.timers && s.timers[s.sched.tmp].Key() <= s.timers[id].Key())
  {
    Reachable(now, schedule);
    StaysOnTop(Initial(now), schedule);
    hide SchedulerInv, FateInv, FiredInv, OnceInv, LogInv;
  }

  lemma {:induction false} StaysOnTop(s: State, schedule: seq<Step>)
    requires SleepsOnTop(s)
    ensures SleepsOnTop(Run(s, schedule))
    decreases |schedule|
  {
    if schedule != [] {
      OnTopStep(s, schedule[0]);
      hide Do, SleepsOnTop;
      StaysOnTop(Do(s, schedule[0]), schedule[1..]);
    }
  }

  lemma {:induction false} OnTopStep(s: State, step: Step)
    requires SleepsOnTop(s)
    ensures SleepsOnTop(Do(s, step))
  {
    hide Arranges, Fire;
    if step.Moves? && s.sched.Popped? && s.sched.tmp in s.timers {
      FireChangesLittle(s, s.sched.tmp, s.sched.spurious);
    }
  }

  // ---------------------------------------------------------------- the initial delay

  /** The timer that the scheduler has measured has no delay left. */
  predicate DelayUsedUp(s: State) {
    match s.sched
    case Measured(tmp, _) => tmp in s.timers && s.timers[tmp].delay == 0
    case TimedWait(tmp, _, _) => tmp in s.timers && s.timers[tmp].delay == 0
    case Expired(tmp, _) => tmp in s.timers && s.timers[tmp].delay == 0
    case _ => true
  }

  /** The initial delay counts once. In every run the timer measured has none left from then
      on, so that it is measured by its key the next time; the first time it is waited for as
      long as its key and its delay together are ahead. */
  lemma {:induction false} DelayCountsOnce(now: nat, schedule: seq<Step>, next: Step, id: Id)
    ensures var s := Run(Initial(now), schedule);
            && (s.sched.Measured? || s.sched.TimedWait? || s.sched.Expired? ==>
                  s.sched.tmp in s.timers && s.timers[s.sched.tmp].delay == 0)
            && (id in s.timers ==>
                  && id in Do(s, next).timers
                  && (Do(s, next).timers[id].delay == s.timers[id].delay || Do(s, next).timers[id].delay == 0))
            && (s.sched.Ready? && s.run && s.heap != [] && s.heap[0] in s.timers ==>
                  var due, s' := s.timers[s.heap[0]].Key() + s.timers[s.heap[0]].delay, Do(s, Moves([]));
                  if due > s.now then s'.sched == Measured(s.heap[0], due - s.now) else s'.sched == Expired(s.heap[0], false))
  {
    StaysUsedUp(Initial(now), schedule);
    DelayStep(Run(Initial(now), schedule), next);
  }

  lemma {:induction false} StaysUsedUp(s: State, schedule: seq<Step>)
    requires DelayUsedUp(s)
    ensures DelayUsedUp(Run(s, schedule))
    decreases |schedule|
  {
    if schedule != [] {
      DelayStep(s, schedule[0]);
      hide Do, DelayUsedUp;
      StaysUsedUp(Do(s, schedule[0]), schedule[1..]);
    }
  }

  lemma {:induction false} DelayStep(s: State, step: Step)
    requires DelayUsedUp(s)
    ensures DelayUsedUp(Do(s, step))
    ensures forall id | id in s.timers ::
              && id in Do(s, step).timers
              && (Do(s, step).timers[id].delay == s.timers[id].delay || Do(s, step).timers[id].delay == 0)
  {
    hide Arranges, Move, DelayUsedUp;
    if step.Moves? {
      MoveDelay(s, step.order);
    } else {
      OtherDelay(s, step);
    }
  }

  lemma {:induction false} OtherDelay(s: State, step: Step)
    requires DelayUsedUp(s) && !step.Moves?
    ensures DelayUsedUp(Do(s, step))
    ensures forall id | id in s.timers ::
              id in Do(s, step).timers && Do(s, step).timers[id].delay == s.timers[id].delay
  {
    hide Arranges, Move;
  }

  lemma {:induction false} MoveDelay(s: State, order: seq<Id>)
    requires DelayUsedUp(s)
    ensures DelayUsedUp(Move(s, order))
    ensures forall id | id in s.timers ::
              && id in Move(s, order).timers
              && (Move(s, order).timers[id].delay == s.timers[id].delay || Move(s, order).timers[id].delay == 0)
  {
    hide Arranges, Fire;
    if s.sched.Popped? && s.sched.tmp in s.timers {
      FireChangesLittle(s, s.sched.tmp, s.sched.spurious);
    }
  }

  // ---------------------------------------------------------------- going on

  /** Unless it sleeps un-notified, or has not begun or has ended, the scheduler has a move:
      there always is an order in which the queue can be left. A spurious wake-up ends a sleep. */
  lemma {:induction false} NeverStuck(now: nat, schedule: seq<Step>)
    ensures var s := Run(Initial(now), schedule);
            && ((exists order :: Move(s, order) != s)
                <==> !s.sched.Off? && !s.sched.Exited? && (s.sched.Waits() ==> s.sched.notified || s.now >= s.sched.deadline))
            && (s.sched.Waits() ==> !Do(s, SpuriousWake).sched.Waits())
  {
    var s := Run(Initial(now), schedule);
    Reachable(now, schedule);
    hide FateInv, FiredInv, OnceInv, LogInv;
    if s.sched.Expired? {
      PopMoves(s);
    } else if s.sched.PushBack? {
      PushBackMoves(s);
    } else {
      hide HeapInv, Arranges;
      OtherMoves(s);
    }
  }

  lemma {:induction false} OtherMoves(s: State)
    requires SchedulerInv(s) && HeapInv(s) && !s.sched.Expired? && !s.sched.PushBack?
    ensures (exists order :: Move(s, order) != s)
            <==> !s.sched.Off? && !s.sched.Exited? && (s.sched.Waits() ==> s.sched.notified || s.now >= s.sched.deadline)
  {
    hide Arranges, Fire;
    assert s.heap != [] ==> s.heap[0] in s.timers;
    hide HeapInv;
    if s.sched.Popped? {
      FireChangesLittle(s, s.sched.tmp, s.sched.spurious);
    }
    var moved := Move(s, []);
    assert forall order :: Move(s, order) == moved;
  }

  lemma {:induction false} PopMoves(s: State)
    requires HeapInv(s) && SchedulerInv(s) && s.sched.Expired?
    ensures exists order :: Move(s, order) != s
  {
    hide Arranges;
    var order := SomeArrangement(s.heap[1..], s.timers);
    assert Move(s, order).sched != s.sched;
  }

  lemma {:induction false} PushBackMoves(s: State)
    requires HeapInv(s) && SchedulerInv(s) && s.sched.PushBack?
    ensures exists order :: Move(s, order) != s
  {
    hide Arranges;
    var order := SomeArrangement(s.heap + [s.sched.tmp], s.timers);
    assert Move(s, order).sched != s.sched;
  }

  /** When a loop timer's call is over, its interval starts anew: from then on it is due an
      interval later, and goes back into the queue with that key. */
  lemma {:induction false} LoopStartsAnew(now: nat, schedule: seq<Step>)
    ensures var s := Run(Initial(now), schedule);
            s.sched.Called? && s.sched.tmp in s.timers && s.timers[s.sched.tmp].Runs() && s.timers[s.sched.tmp].kind.Loop? ==>
              exists order :: var r := Move(Move(s, []), order);
                && r.sched.Test? && !r.added && multiset(r.heap) == multiset(s.heap) + multiset{s.sched.tmp}
                && s.sched.tmp in r.timers && r.timers[s.sched.tmp].Key() == s.now + s.timers[s.sched.tmp].last
  {
    var s := Run(Initial(now), schedule);
    Reachable(now, schedule);
    hide FateInv, FiredInv, OnceInv, LogInv, Arranges;
    if s.sched.Called? && s.sched.tmp in s.timers && s.timers[s.sched.tmp].Runs() && s.timers[s.sched.tmp].kind.Loop? {
      var s1 := Move(s, []);
      var order := SomeArrangement(s.heap + [s.sched.tmp], s1.timers);
      var r := Move(s1, order);
      OrderHolds(order, s.heap + [s.sched.tmp], s1.timers);
      assert r.heap == order;
    }
  }

  lemma {:induction false} OrderHolds(order: seq<Id>, content: seq<Id>, timers: map<Id, Timer>)
    requires Arranges(order, content, timers)
    ensures multiset(order) == multiset(content)
  {
  }

  /** The loop ends only if it has been told to: by a close, and since it began. */
  lemma {:induction false} ExitsOnlyIfTold(now: nat, schedule: seq<Step>)
    ensures var s := Run(Initial(now), schedule);
            s.sched.Exited? ==> !s.run && Close in schedule
  {
    StaysIfNotTold(Initial(now), schedule);
  }

  lemma {:induction false} StaysIfNotTold(s: State, schedule: seq<Step>)
    requires s.sched.Exited? ==> !s.run
    ensures var r := Run(s, schedule);
            && (r.sched.Exited? ==> !r.run)
            && (!s.sched.Exited? && (s.sched.Off? || s.run) && Close !in schedule ==> !r.sched.Exited? && (r.sched.Off? || r.run))
    decreases |schedule|
  {
    if schedule != [] {
      var s' := Do(s, schedule[0]);
      StepIfNotTold(s, schedule[0]);
      hide Do;
      StaysIfNotTold(s', schedule[1..]);
    }
  }

  lemma {:induction false} StepIfNotTold(s: State, step: Step)
    requires s.sched.Exited? ==> !s.run
    ensures var r := Do(s, step);
            && (r.sched.Exited? ==> !r.run)
            && (!s.sched.Exited? && (s.sched.Off? || s.run) && step != Close ==> !r.sched.Exited? && (r.sched.Off? || r.run))
  {
    hide Arranges;
  }

  // ---------------------------------------------------------------- never early

  /** No timer fires before its start plus its interval unless the wait before it ended
      spuriously; consecutive firings of a loop timer are an interval apart. */
  lemma {:induction false} NeverEarly(now: nat, schedule: seq<Step>, i: nat, j: nat)
    ensures var s := Run(Initial(now), schedule);
            && (i < |s.fired| && !s.fired[i].spurious ==> s.fired[i].due <= s.fired[i].time)
            && (i < j < |s.fired| && s.fired[i].id == s.fired[j].id && !s.fired[j].spurious
                && s.fired[i].id in s.timers && s.timers[s.fired[i].id].kind.Loop? ==>
                  s.fired[i].time + s.timers[s.fired[i].id].last <= s.fired[j].time)
  {
    hide HeapInv, FateInv, OnceInv, LogInv, SchedulerInv;
    Reachable(now, schedule);
  }

  predicate WithoutSpuriousWakes(schedule: seq<Step>) {
    forall i | 0 <= i < |schedule| :: !schedule[i].SpuriousWake?
  }

  /** No wait of the run so far was cut short. */
  ghost predicate NothingSpurious(s: State) {
    && (s.sched.Expired? || s.sched.Popped? ==> !s.sched.spurious)
    && (forall i | 0 <= i < |s.fired| :: !s.fired[i].spurious)
  }

  lemma {:induction false} StaysUnspurious(s: State, schedule: seq<Step>)
    requires NothingSpurious(s) && WithoutSpuriousWakes(schedule)
    ensures NothingSpurious(Run(s, schedule))
    decreases |schedule|
  {
    if schedule != [] {
      UnspuriousStep(s, schedule[0]);
      hide Do, NothingSpurious;
      StaysUnspurious(Do(s, schedule[0]), schedule[1..]);
    }
  }

  lemma {:induction false} UnspuriousStep(s: State, step: Step)
    requires NothingSpurious(s) && !step.SpuriousWake?
    ensures NothingSpurious(Do(s, step))
  {
    hide Arranges, Fire;
    if step.Moves? && s.sched.Popped? && s.sched.tmp in s.timers {
      FireChangesLittle(s, s.sched.tmp, s.sched.spurious);
    }
  }

  /** So with waits that end only on notification or timeout nothing is ever early,
      whatever additions wake the scheduler. */
  lemma {:induction false} NeverEarlyWithoutSpuriousWakes(now: nat, schedule: seq<Step>)
    requires WithoutSpuriousWakes(schedule)
    ensures var s := Run(Initial(now), schedule);
            forall i | 0 <= i < |s.fired| :: s.fired[i].due <= s.fired[i].time
  {
    hide HeapInv, FateInv, OnceInv, LogInv, SchedulerInv, Do;
    Reachable(now, schedule);
    StaysUnspurious(Initial(now), schedule);
  }

  /** The queue can always be left in some order with a least key on top. */
  lemma {:induction false} SomeArrangement(content: seq<Id>, timers: map<Id, Timer>) returns (order: seq<Id>)
    requires forall id | id in content :: id in timers
    ensures Arranges(order, content, timers)
    decreases |content|
  {
    if content == [] {
      order := [];
    } else {
      var n := |content| - 1;
      var last := content[n];
      var rest := SomeArrangement(content[..n], timers);
      assert content == content[..n] + [last];
      assert forall id :: id in rest <==> id in multiset(rest);
      order := if rest != [] && timers[rest[0]].Key() <= timers[last].Key() then rest + [last] else [last] + rest;
    }
  }

  /** The last of the firings has just been added, and came before its time. */
  predicate FiredEarly(s: State, s': State) {
    |s'.fired| == |s.fired| + 1 && s'.fired[|s.fired|].time < s'.fired[|s.fired|].due
  }

  /** The condition cannot be dropped. When a timed wait no one has notified ends
      spuriously, the scheduler can go on to fire early if and only if no addition is on
      record, it has not been told to stop, the timer has the right to run and its key is
      still to come. */
  lemma {:induction false} SpuriousWakeIsEarlyIff(s: State)
    requires Inv(s) && s.sched.TimedWait? && !s.sched.notified
    ensures (exists order :: FiredEarly(s, AfterWake(s, order)))
       <==> !s.added && s.run && s.timers[s.sched.tmp].Runs() && s.now < s.timers[s.sched.tmp].Key()
  {
    hide HeapInv, FateInv, FiredInv, OnceInv, LogInv, Arranges, Run, Do, FiredEarly;
    forall order
      ensures FiredEarly(s, AfterWake(s, order)) <==>
                && !s.added && s.run && Arranges(order, s.heap[1..], s.timers)
                && s.timers[s.sched.tmp].Runs() && s.now < s.timers[s.sched.tmp].Key()
    {
      EarlyAfterWake(s, order);
    }
    if !s.added {
      QueueKnown(s);
      assert forall id | id in s.heap[1..] :: id in s.heap;
      var order := SomeArrangement(s.heap[1..], s.timers);
      assert FiredEarly(s, AfterWake(s, order)) <==>
               s.run && s.timers[s.sched.tmp].Runs() && s.now < s.timers[s.sched.tmp].Key();
    }
  }

  /** The spurious end of a wait and the two moves that pop and run a timer after it. */
  function AfterWake(s: State, order: seq<Id>): State { Run(s, [SpuriousWake, Moves(order), Moves([])]) }

  lemma {:induction false} EarlyAfterWake(s: State, order: seq<Id>)
    requires Inv(s) && s.sched.TimedWait? && !s.sched.notified
    ensures FiredEarly(s, AfterWake(s, order)) <==>
              && !s.added && s.run && Arranges(order, s.heap[1..], s.timers)
              && s.timers[s.sched.tmp].Runs() && s.now < s.timers[s.sched.tmp].Key()
  {
    hide HeapInv, FateInv, FiredInv, OnceInv, LogInv, Arranges, Run;
    ThreeSteps(s, [SpuriousWake, Moves(order), Moves([])]);
    if s.added || !s.run {
      StopsAfterWait(s, order);
    } else {
      FiresAfterWait(s, order);
    }
  }

  lemma {:induction false} QueueKnown(s: State)
    requires Inv(s)
    ensures forall id | id in s.heap :: id in s.timers
  {
  }

  /** With an addition on record, or told to stop, the wait leads to no firing at once. */
  lemma {:induction false} StopsAfterWait(s: State, order: seq<Id>)
    requires s.sched.TimedWait? && (s.added || !s.run)
    ensures Move(Move(Do(s, SpuriousWake), order), []).fired == s.fired
  {
    hide Arranges;
  }

  /** Otherwise the timer measured is run at once, whatever the time. */
  lemma {:induction false} FiresAfterWait(s: State, order: seq<Id>)
    requires Inv(s) && s.sched.TimedWait? && !s.sched.notified && !s.added && s.run
    ensures var tmp := s.sched.tmp;
            tmp in s.timers && Move(Move(Do(s, SpuriousWake), order), []).fired
              == if Arranges(order, s.heap[1..], s.timers) && s.timers[tmp].Runs()
                 then s.fired + [Firing(tmp, s.now, s.timers[tmp].Key(), s.now < s.sched.deadline)]
                 else s.fired
  {
    hide HeapInv, FateInv, FiredInv, OnceInv, LogInv, Arranges;
    var e := s.(sched := Expired(s.sched.tmp, s.now < s.sched.deadline));
    assert Do(s, SpuriousWake) == e;
    if Arranges(order, s.heap[1..], s.timers) {
      assert Move(e, order) == e.(heap := order, sched := Popped(e.sched.tmp, e.sched.spurious));
    }
  }

  // ... and such a state is reached, from any timer that is due and any that is not: the
  // first is run, which forgets their additions, and the second waits.

  const TURN := Moves([])

  /** A one-shot timer just made, of interval `last`. */
  function Made(now: nat, last: nat): Timer { Timer(now, last, 0, Once, true, Free) }

  lemma {:induction false} PairArranged(a: Timer, b: Timer)
    requires a.Key() <= b.Key()
    ensures Arranges([1], [] + [1], map[1 := a])
    ensures Arranges([1, 0], [1] + [0], map[1 := a][0 := b])
    ensures Arranges([0], [1, 0][1..], map[1 := a][0 := b])
  {
    assert [] + [1] == [1] && [1] + [0] == [1, 0] && [1, 0][1..] == [0];
    assert multiset([1, 0]) == multiset{1, 0};
  }

  lemma {:induction false} TwoAdded(s: State, a: Timer, b: Timer) returns (schedule: seq<Step>)
    requires s == Initial(s.now) && !a.claim.ByTurn? && !b.claim.ByTurn? && a.Key() <= b.Key()
    ensures var s' := Run(s, schedule);
            && s' == State(s.now, map[1 := a][0 := b], [1, 0], true, true, Test, [])
            && Arranges([0], s'.heap[1..], s'.timers)
  {
    hide Arranges;
    PairArranged(a, b);
    assert map[][1 := a] == map[1 := a];
    var s1 := s.(timers := map[1 := a], heap := [1], added := true);
    assert Do(s, Add(1, a, [1])) == s1;
    assert Do(s1, Add(0, b, [1, 0])) == s1.(timers := map[1 := a][0 := b], heap := [1, 0]);
    schedule := [Add(1, a, [1]), Add(0, b, [1, 0]), Schedule];
    ThreeSteps(s, schedule);
  }

  /** From the loop test to the top timer, whose delay is used up already. */
  lemma {:induction false} TopMeasured(s: State)
    requires s.sched.Test? && s.run && s.heap != [] && s.heap[0] in s.timers && s.timers[s.heap[0]].delay == 0
    ensures var left := s.timers[s.heap[0]].LeftTime(s.now);
            Run(s, [TURN, TURN, TURN])
              == s.(sched := if left > 0 then Measured(s.heap[0], left) else Expired(s.heap[0], false))
  {
    hide Arranges;
    var s2 := s.(sched := Ready);
    assert Move(s, []) == s.(sched := Entering) && Move(s.(sched := Entering), []) == s2;
    assert s2.timers[s.heap[0] := s2.timers[s.heap[0]]] == s2.timers;
    ThreeSteps(s, [TURN, TURN, TURN]);
  }

  /** The turn of a one-shot timer, up to where it is disposed of. */
  lemma {:induction false} OnceRuns(s: State, order: seq<Id>)
    requires s.sched.Expired? && s.run && s.heap != [] && Arranges(order, s.heap[1..], s.timers)
    requires s.sched.tmp in s.timers && s.timers[s.sched.tmp].kind.Once? && s.timers[s.sched.tmp].Runs()
    ensures var tmp := s.sched.tmp;
            Run(s, [Moves(order), TURN, TURN])
              == s.(heap := order, sched := Called(tmp), timers := s.timers[tmp := s.timers[tmp].Taken()],
                    fired := s.fired + [Firing(tmp, s.now, s.timers[tmp].Key(), s.sched.spurious)])
  {
    hide Arranges;
    var s1 := s.(heap := order, sched := Popped(s.sched.tmp, s.sched.spurious));
    assert Move(s, order) == s1;
    assert Move(s1, []) == Fire(s1, s.sched.tmp, s.sched.spurious);
    ThreeSteps(s, [Moves(order), TURN, TURN]);
  }

  /** ... and the two moves that return to the loop test. */
  lemma {:induction false} OnceDone(s: State)
    requires s.sched.Called? && s.sched.tmp in s.timers && s.timers[s.sched.tmp].kind.Once?
    ensures Run(s, [TURN, TURN]) == s.(added := false, sched := Test)
  {
    hide Arranges;
    assert Move(s, []) == s.(sched := PushBack(s.sched.tmp));
    TwoSteps(s, [TURN, TURN]);
  }

  lemma {:induction false} StartsWaiting(s: State)
    requires s.sched.Measured?
    ensures Run(s, [TURN]) == s.(sched := TimedWait(s.sched.tmp, s.now + s.sched.left, false))
  {
    hide Arranges;
    OneStep(s, TURN);
  }

  /** A due one-shot timer on top is run and forgotten, with the additions on record. */
  lemma {:induction false} TopRuns(s: State, order: seq<Id>) returns (p: seq<Step>)
    requires s.sched.Test? && s.run && s.heap != [] && Arranges(order, s.heap[1..], s.timers)
    requires var tmp := s.heap[0];
             && tmp in s.timers && s.timers[tmp].delay == 0 && s.timers[tmp].LeftTime(s.now) <= 0
             && s.timers[tmp].kind.Once? && s.timers[tmp].Runs()
    ensures var tmp := s.heap[0];
            Run(s, p) == s.(heap := order, added := false, timers := s.timers[tmp := s.timers[tmp].Taken()],
                            fired := s.fired + [Firing(tmp, s.now, s.timers[tmp].Key(), false)])
  {
    hide Run, Arranges;
    var tmp := s.heap[0];
    TopMeasured(s);
    var s1 := s.(sched := Expired(tmp, false));
    OnceRuns(s1, order);
    OnceDone(s1.(heap := order, sched := Called(tmp), timers := s.timers[tmp := s.timers[tmp].Taken()],
                 fired := s.fired + [Firing(tmp, s.now, s.timers[tmp].Key(), false)]));
    var p1 := [TURN, TURN, TURN] + [Moves(order), TURN, TURN];
    RunAppend(s, [TURN, TURN, TURN], [Moves(order), TURN, TURN]);
    RunAppend(s, p1, [TURN, TURN]);
    p := p1 + [TURN, TURN];
  }

  /** A timer on top that is not due is waited for. */
  lemma {:induction false} TopWaits(s: State)
    requires s.sched.Test? && s.run && s.heap != [] && s.heap[0] in s.timers
    requires s.timers[s.heap[0]].delay == 0 && s.timers[s.heap[0]].LeftTime(s.now) > 0
    ensures var tmp := s.heap[0];
            Run(s, [TURN, TURN, TURN] + [TURN])
              == s.(sched := TimedWait(tmp, s.now + s.timers[tmp].LeftTime(s.now), false))
  {
    hide Run;
    TopMeasured(s);
    StartsWaiting(s.(sched := Measured(s.heap[0], s.timers[s.heap[0]].LeftTime(s.now))));
    RunAppend(s, [TURN, TURN, TURN], [TURN]);
  }

  /** With one timer due and one not, a run from the start has fired the first, and sleeps
      on the second with no addition on record. */
  lemma {:induction false} SecondWaits(now: nat, last: nat) returns (schedule: seq<Step>)
    requires last > 0
    ensures var s := Run(Initial(now), schedule);
            && s.now == now && s.heap == [0] && s.run && !s.added && s.sched == TimedWait(0, now + last, false)
            && 0 in s.timers && s.timers[0] == Made(now, last) && s.fired == [Firing(1, now, now, false)]
  {
    hide Run, Arranges;
    var p := TwoAdded(Initial(now), Made(now, 0), Made(now, last));
    var s1 := Run(Initial(now), p);
    var q := TopRuns(s1, [0]);
    TopWaits(Run(s1, q));
    RunAppend(Initial(now), p, q);
    RunAppend(Initial(now), p + q, [TURN, TURN, TURN] + [TURN]);
    schedule := p + q + ([TURN, TURN, TURN] + [TURN]);
  }

  /** So for every interval there is a run from the start in which a timer of that interval
      fires at the moment it is made. */
  lemma {:induction false} EarlyFiringIsPossible(now: nat, last: nat)
    requires last > 0
    ensures exists schedule ::
              var s := Run(Initial(now), schedule);
              |s.fired| == 2 && s.fired[1] == Firing(0, now, now + last, true)
  {
    var p := SecondWaits(now, last);
    var s := Run(Initial(now), p);
    Reachable(now, p);
    assert s.heap[1..] == [];
    assert Arranges([], [], s.timers);
    FiresAfterWait(s, []);
    var q := [SpuriousWake, TURN, TURN];
    ThreeSteps(s, q);
    RunAppend(Initial(now), p, q);
    hide Run, Do, Move, Inv;
    assert |Run(Initial(now), p + q).fired| == 2;
  }

  lemma {:induction false} OneStep(s: State, step: Step)
    ensures Run(s, [step]) == Do(s, step)
  {
    assert [step][1..] == [];
  }

  lemma {:induction false} TwoSteps(s: State, p: seq<Step>)
    requires |p| == 2
    ensures Run(s, p) == Do(Do(s, p[0]), p[1])
  {
    hide Do;
    OneStep(Do(s, p[0]), p[1]);
    assert p[1..] == [p[1]];
  }

  lemma {:induction false} ThreeSteps(s: State, p: seq<Step>)
    requires |p| == 3
    ensures Run(s, p) == Do(Do(Do(s, p[0]), p[1]), p[2])
  {
    hide Do;
    var s1 := Do(s, p[0]);
    var s2 := Do(s1, p[1]);
    assert Run(s1, p[1..]) == Run(s2, p[1..][1..]);
    assert Run(s2, p[1..][1..]) == Run(Do(s2, p[2]), p[1..][1..][1..]);
    assert p[1..][1..][1..] == [];
  }

  lemma {:induction false} RunAppend(s: State, p: seq<Step>, q: seq<Step>)
    ensures Run(s, p + q) == Run(Run(s, p), q)
    decreases |p|
  {
    hide Do;
    if p == [] {
      assert p + q == q;
    } else {
      assert (p + q)[1..] == p[1..] + q;
      RunAppend(Do(s, p[0]), p[1..], q);
    }
  }

  // ---------------------------------------------------------------- a delay that is lost

  /** Asleep on the timer measured, for as long as its key and its delay were ahead. */
  predicate Delays(s: State) {
    s.sched.TimedWait? && !s.sched.notified && s.now < s.sched.deadline && s.run
  }

  /** The delay is kept while nobody adds, closes or wakes the scheduler spuriously: whatever
      else happens, no callback starts before the wait is over. */
  lemma {:induction false} DelayIsKeptAsleep(s: State, schedule: seq<Step>, i: nat)
    requires Delays(s) && forall step | step in schedule :: !step.Add? && !step.Close? && !step.SpuriousWake?
    ensures var r := Run(s, schedule);
            |s.fired| <= i < |r.fired| ==> s.sched.deadline <= r.fired[i].time
    decreases |schedule|
  {
    if schedule != [] {
      var s' := Do(s, schedule[0]);
      assert schedule[0] in schedule && forall step | step in schedule[1..] :: step in schedule;
      if s.sched.deadline <= s'.now {
        LaterFirings(s', schedule[1..], i);
      } else {
        DelayIsKeptAsleep(s', schedule[1..], i);
      }
    }
  }

  /** Callbacks start when they do. */
  lemma {:induction false} LaterFirings(s: State, schedule: seq<Step>, i: nat)
    ensures var r := Run(s, schedule);
            && |s.fired| <= |r.fired| && s.now <= r.now && (i < |s.fired| ==> r.fired[i] == s.fired[i])
            && (|s.fired| <= i < |r.fired| ==> s.now <= r.fired[i].time)
    decreases |schedule|
  {
    if schedule != [] {
      LaterStep(s, schedule[0]);
      hide Do;
      LaterFirings(Do(s, schedule[0]), schedule[1..], i);
    }
  }

  lemma {:induction false} LaterStep(s: State, step: Step)
    ensures var s' := Do(s, step);
            && s.now <= s'.now
            && (s'.fired == s.fired
                || (|s'.fired| == |s.fired| + 1 && s'.fired[..|s.fired|] == s.fired && s'.fired[|s.fired|].time == s.now))
  {
    hide Arranges;
  }

  /** But an addition ends the wait, and with it the delay: the timer waited for has its turn
      next, before the wait was to end, if and only if it is still on top and its interval is
      over. */
  lemma {:induction false} AdditionLosesDelayIff(s: State, id: Id, timer: Timer, order: seq<Id>)
    requires Inv(s) && DelayUsedUp(s) && Delays(s) && id in Do(s, Add(id, timer, order)).timers && id !in s.timers
    ensures var c := Do(s, Add(id, timer, order));
            var r := Run(c, [TURN] + [TURN, TURN, TURN]);
            && r.now == s.now
            && (r.sched == Expired(s.sched.tmp, false)
                <==> c.heap[0] == s.sched.tmp && s.timers[s.sched.tmp].Key() <= s.now)
  {
    var c := Do(s, Add(id, timer, order));
    DoSafe(s, Add(id, timer, order));
    AdditionWakes(s, id, timer, order);
    var m := Do(c, TURN);
    hide Run, Inv, Do, Arranges;
    RunAppend(c, [TURN], [TURN, TURN, TURN]);
    OneStep(c, TURN);
    ThreeSteps(m, [TURN, TURN, TURN]);
    TestToMeasure(m);
  }

  lemma {:induction false} AdditionWakes(s: State, id: Id, timer: Timer, order: seq<Id>)
    requires Inv(s) && DelayUsedUp(s) && Delays(s) && id in Do(s, Add(id, timer, order)).timers && id !in s.timers
    ensures var c := Do(s, Add(id, timer, order));
            && Do(c, TURN) == c.(sched := Test) && c.run && c.now == s.now && c.heap != [] && c.heap[0] in c.timers
            && s.sched.tmp in s.timers && s.sched.tmp in c.timers && c.timers[s.sched.tmp] == s.timers[s.sched.tmp]
            && c.timers[s.sched.tmp].delay == 0
  {
    hide FateInv, FiredInv, OnceInv, LogInv, SchedulerInv;
    var c := Do(s, Add(id, timer, order));
    ArrangedIn(order, s.heap + [id], c.timers, id);
    assert multiset(order) == multiset(s.heap + [id]);
    assert |order| == |multiset(order)| == |s.heap| + 1;
  }

  /** From the loop test to the top timer, whatever its delay. */
  lemma {:induction false} TestToMeasure(s: State)
    requires s.sched.Test? && s.run && s.heap != [] && s.heap[0] in s.timers
    ensures var r, top := Do(Do(Do(s, TURN), TURN), TURN), s.heap[0];
            && r.now == s.now
            && r.sched == if s.timers[top].LeftTime(s.now) > 0 then Measured(top, s.timers[top].LeftTime(s.now))
                          else Expired(top, false)
  {
    hide Arranges;
    assert Do(s, TURN) == s.(sched := Entering);
    assert Do(s.(sched := Entering), TURN) == s.(sched := Ready);
  }

  /** And so it happens: for every delay there is a run from the start in which a loop timer
      of that delay has its callback started as soon as its interval is over. */
  lemma {:induction false} DelayCanBeLost(now: nat, last: nat, delay: nat)
    requires delay > 0
    ensures exists schedule ::
              var s := Run(Initial(now), schedule);
              && s.fired == [Firing(0, now + last, now + last, false)]
              && Add(0, Timer(now, last, delay, Loop, true, Free), [0]) in schedule
  {
    hide Run, Do, Inv;
    var a := Timer(now, last, delay, Loop, true, Free);
    var p, q := [Add(0, a, [0]), Schedule, TURN], [TURN, TURN, TURN];
    var later := [Tick(last), Add(1, Made(now + last, 0), [0, 1])];
    var u, v := [TURN] + [TURN, TURN, TURN], [Moves([1]), TURN];
    var s := Run(Initial(now), p + q);
    DelaySetUp(now, last, delay, p, q);
    DelayCut(s, now, last, delay, later);
    var c := Run(s, later);
    LoopsTurn(c, now + last, u, v);
    RunAppend(Initial(now), p + q, later);
    RunAppend(Initial(now), p + q + later, u);
    RunAppend(Initial(now), p + q + later + u, v);
    assert p[0] in p + q + later + u + v;
  }

  lemma {:induction false} DelaySetUp(now: nat, last: nat, delay: nat, p: seq<Step>, q: seq<Step>)
    requires delay > 0
    requires p == [Add(0, Timer(now, last, delay, Loop, true, Free), [0]), Schedule, TURN] && q == [TURN, TURN, TURN]
    ensures Run(Initial(now), p + q)
         == State(now, map[0 := Timer(now, last, 0, Loop, true, Free)], [0], true, true, TimedWait(0, now + (last + delay), false), [])
  {
    hide Arranges;
    var a, b := Timer(now, last, delay, Loop, true, Free), Timer(now, last, 0, Loop, true, Free);
    var s1 := State(now, map[0 := a], [0], false, true, Off, []);
    assert Arranges([0], [] + [0], map[][0 := a]) && map[][0 := a] == map[0 := a] by {
      OneArranged(a);
    }
    assert Do(Initial(now), p[0]) == s1;
    var s3 := s1.(run := true, sched := Entering);
    ThreeSteps(Initial(now), p);
    assert Run(Initial(now), p) == s3;
    assert map[0 := a][0 := b] == map[0 := b] && a.LeftTime(now) == last + delay;
    assert Do(s3, TURN) == s3.(sched := Ready);
    assert Do(s3.(sched := Ready), TURN) == s3.(timers := map[0 := b], sched := Measured(0, last + delay));
    ThreeSteps(s3, q);
    RunAppend(Initial(now), p, q);
  }

  lemma {:induction false} OneArranged(a: Timer)
    ensures Arranges([0], [] + [0], map[][0 := a]) && map[][0 := a] == map[0 := a]
  {
    assert [] + [0] == [0];
  }

  /** The interval over, another timer is added and wakes the scheduler. */
  lemma {:induction false} DelayCut(s: State, now: nat, last: nat, delay: nat, later: seq<Step>)
    requires s == State(now, map[0 := Timer(now, last, 0, Loop, true, Free)], [0], true, true,
                        TimedWait(0, now + (last + delay), false), [])
    requires later == [Tick(last), Add(1, Made(now + last, 0), [0, 1])]
    ensures var r := Run(s, later);
            && r == State(now + last, map[0 := Timer(now, last, 0, Loop, true, Free), 1 := Made(now + last, 0)], [0, 1],
                          true, true, TimedWait(0, now + (last + delay), true), [])
            && Arranges([1], [0, 1][1..], r.timers)
  {
    hide Arranges;
    var a, b := Timer(now, last, 0, Loop, true, Free), Made(now + last, 0);
    assert Arranges([0, 1], [0] + [1], map[0 := a][1 := b]) && Arranges([1], [0, 1][1..], map[0 := a][1 := b]) by {
      TwoArranged(a, b);
    }
    assert map[0 := a][1 := b] == map[0 := a, 1 := b];
    TwoSteps(s, later);
  }

  lemma {:induction false} TwoArranged(a: Timer, b: Timer)
    requires a.Key() <= b.Key()
    ensures Arranges([0, 1], [0] + [1], map[0 := a][1 := b]) && Arranges([1], [0, 1][1..], map[0 := a][1 := b])
  {
    assert [0] + [1] == [0, 1] && [0, 1][1..] == [1];
  }

  /** The wait that has been notified ends, and the due loop timer on top is run. */
  lemma {:induction false} LoopsTurn(s: State, now: nat, u: seq<Step>, v: seq<Step>)
    requires s.now == now && s.run && s.added && s.sched.TimedWait? && s.sched.notified && s.fired == [] && s.heap == [0, 1]
    requires 0 in s.timers && s.timers[0].delay == 0 && s.timers[0].Key() == now && s.timers[0].kind.Loop? && s.timers[0].callback
    requires Arranges([1], [0, 1][1..], s.timers)
    requires u == [TURN] + [TURN, TURN, TURN] && v == [Moves([1]), TURN]
    ensures Run(Run(s, u), v).fired == [Firing(0, now, now, false)]
  {
    hide Run, Arranges;
    RunAppend(s, [TURN], [TURN, TURN, TURN]);
    OneStep(s, TURN);
    TopMeasured(s.(sched := Test));
    var e := s.(sched := Expired(0, false));
    TwoSteps(e, v);
    assert Do(e, Moves([1])) == e.(heap := [1], sched := Popped(0, false));
  }

  // ---------------------------------------------------------------- closing

  /** The scheduler has been told to stop since it began. */
  ghost predicate Closed(s: State) {
    && !s.run
    && (s.sched.Test? || s.sched.Entering? || s.sched.IdleWait? || s.sched.Ready? || s.sched.Exited?
        || (s.sched.TimedWait? && s.sched.notified && s.added))
  }

  /** The moves the scheduler may still take; they do not reach beyond one `timer_run`. */
  function MovesLeft(c: Scheduler): nat {
    match c
    case Exited => 0
    case Entering => 3
    case IdleWait(_, _) => 2
    case TimedWait(_, _, _) => 2
    case _ => 1
  }

  /** Asleep on an empty queue, with nobody having notified and the time not over. */
  predicate Sleeps(s: State) { s.sched.IdleWait? && !s.sched.notified && s.now < s.sched.deadline }

  /** The moves the scheduler gets to take in a run when it does not sleep. */
  function Effective(s: State, schedule: seq<Step>): nat
    decreases |schedule|
  {
    if schedule == [] then 0
    else (if schedule[0].Moves? && !Sleeps(s) then 1 else 0) + Effective(Do(s, schedule[0]), schedule[1..])
  }

  /** Does the step start another call of `timer_run`? */
  predicate Begins(s: State, step: Step) { s.sched.Test? && Do(s, step).sched.Entering? }

  /** How many calls of `timer_run` start in a run. */
  function Begun(s: State, schedule: seq<Step>): nat
    decreases |schedule|
  {
    if schedule == [] then 0
    else (if Begins(s, schedule[0]) then 1 else 0) + Begun(Do(s, schedule[0]), schedule[1..])
  }

  lemma {:induction false} BegunAppend(s: State, p: seq<Step>, q: seq<Step>)
    ensures Begun(s, p + q) == Begun(s, p) + Begun(Run(s, p), q)
    decreases |p|
  {
    hide Do, Begins;
    if p == [] {
      assert p + q == q;
    } else {
      assert (p + q)[1..] == p[1..] + q;
      BegunAppend(Do(s, p[0]), p[1..], q);
    }
  }

  lemma {:induction false} ClosedStep(s: State, step: Step)
    requires Closed(s)
    ensures Closed(Do(s, step)) && Do(s, step).fired == s.fired && MovesLeft(Do(s, step).sched) <= MovesLeft(s.sched)
    ensures !Begins(s, step)
    ensures step.Moves? && !Sleeps(s) ==> MovesLeft(Do(s, step).sched) < MovesLeft(s.sched) || s.sched.Exited?
  {
    hide Arranges;
  }

  /** Once a close has taken effect no call of `timer_run` starts any more, and whatever else
      happens the loop has exited when the scheduler has taken three moves awake: the call
      under way is the last. */
  lemma {:induction false} ExitsAfterClose(s: State, schedule: seq<Step>)
    requires s.sched.LockFree() && !s.sched.Off?
    ensures var c := Do(s, Close);
            && Begun(c, schedule) == 0
            && (Effective(c, schedule) >= 3 ==> Run(c, schedule).sched.Exited?)
  {
    assert Closed(Do(s, Close));
    ClosedRun(Do(s, Close), schedule);
    ClosedExits(Do(s, Close), schedule);
  }

  lemma {:induction false} ClosedExits(s: State, schedule: seq<Step>)
    requires Closed(s)
    ensures Effective(s, schedule) >= MovesLeft(s.sched) ==> Run(s, schedule).sched.Exited?
    decreases |schedule|
  {
    if s.sched.Exited? {
      ClosedRun(s, schedule);
    } else if schedule != [] {
      ClosedStep(s, schedule[0]);
      hide Closed, Do, Sleeps;
      ClosedExits(Do(s, schedule[0]), schedule[1..]);
    }
  }

  /** After a close no callback starts any more and the scheduler never runs again. */
  lemma {:induction false} NothingFiresAfterClose(s: State, schedule: seq<Step>)
    requires s.sched.LockFree() && !s.sched.Off?
    ensures var r := Run(Do(s, Close), schedule);
            r.fired == s.fired && !r.run
  {
    assert Closed(Do(s, Close));
    ClosedRun(Do(s, Close), schedule);
  }

  lemma {:induction false} ClosedRun(s: State, schedule: seq<Step>)
    requires Closed(s)
    ensures Closed(Run(s, schedule)) && Run(s, schedule).fired == s.fired && Begun(s, schedule) == 0
    ensures MovesLeft(Run(s, schedule).sched) <= MovesLeft(s.sched)
    decreases |schedule|
  {
    if schedule != [] {
      ClosedStep(s, schedule[0]);
      hide Closed, Do, MovesLeft, Begins;
      ClosedRun(Do(s, schedule[0]), schedule[1..]);
    }
  }

  predicate OnlyMoves(schedule: seq<Step>) { forall i | 0 <= i < |schedule| :: schedule[i].Moves? }

  /** Left to itself, with no time passing, the scheduler comes to its exit after a close
      unless it had tested the flag and was about to wait on an empty queue; and then it does
      not, for a close that comes at that point wakes nobody. */
  lemma {:induction false} CloseIsPromptUnlessEntering(s: State)
    requires s.sched.LockFree() && !s.sched.Off?
    ensures (exists schedule :: OnlyMoves(schedule) && Run(Do(s, Close), schedule).sched.Exited?)
       <==> !(s.sched.Entering? && s.heap == [])
  {
    var c := Do(s, Close);
    if s.sched.Entering? && s.heap == [] {
      forall schedule | OnlyMoves(schedule)
        ensures !Run(c, schedule).sched.Exited?
      {
        if schedule != [] {
          assert Sleeps(Do(c, schedule[0]));
          LateCloseWakesNobody(Do(c, schedule[0]), schedule[1..]);
        }
      }
    } else {
      ThreeMovesExit(s);
      ThreeSteps(c, [TURN, TURN, TURN]);
      assert OnlyMoves([TURN, TURN, TURN]);
    }
  }

  lemma {:induction false} ThreeMovesExit(s: State)
    requires s.sched.LockFree() && !s.sched.Off? && !(s.sched.Entering? && s.heap == [])
    ensures Move(Move(Move(Do(s, Close), []), []), []).sched.Exited?
  {
    var c := Do(s, Close);
    var m1 := Move(c, []);
    var m2 := Move(m1, []);
    assert s.sched.IdleWait? ==> m1.sched.Ready? && m2.sched.Exited?;
    assert s.sched.TimedWait? ==> m1.sched.Test? && m2.sched.Exited?;
    assert s.sched.Test? ==> m1.sched.Exited?;
    assert s.sched.Entering? ==> m1.sched.Ready? && m2.sched.Exited?;
  }

  /** ... and time out it does, within the default wait. */
  lemma {:induction false} LateCloseTakesEffectOnTimeout(s: State, d: nat)
    requires Closed(s) && s.sched.IdleWait? && s.now + d >= s.sched.deadline
    ensures Move(Move(Do(s, Tick(d)), []), []).sched.Exited?
  {
    var m1 := Move(Do(s, Tick(d)), []);
    assert m1.sched.Ready?;
  }

  /** Until then nothing but time, a notification or a spurious wake-up gets it to exit:
      while it sleeps its moves lead nowhere. */
  lemma {:induction false} LateCloseWakesNobody(s: State, schedule: seq<Step>)
    requires Sleeps(s) && forall i | 0 <= i < |schedule| :: schedule[i].Moves?
    ensures Run(s, schedule) == s
    decreases |schedule|
  {
    if schedule != [] {
      assert Do(s, schedule[0]) == s;
      LateCloseWakesNobody(s, schedule[1..]);
    }
  }

  /** A run from the start leads to such a close: the scheduler has begun, tested the flag
      and found it set, and has an empty queue before it. */
  lemma {:induction false} LateCloseIsPossible()
    ensures exists schedule ::
              var s := Run(Initial(0), schedule);
              && s.sched.Entering? && s.heap == []
              && Sleeps(Move(Do(s, Close), [])) && !Do(s, Close).run
              && Move(Do(s, Close), []).sched.deadline == 300_000_000_000
  {
    var schedule := [Schedule, Moves([])];
    assert schedule[1..] == [Moves([])];
    assert Run(Initial(0), schedule) == Do(Do(Initial(0), Schedule), Moves([]));
  }

  /** A close is lost if and only if `schedule` has not begun: only then can the scheduler
      be running again, which it is as soon as `schedule` has set the flag. */
  lemma {:induction false} CloseIsLostIffNotBegun(s: State)
    requires s.sched.LockFree()
    ensures (exists schedule :: Run(Do(s, Close), schedule).run) <==> s.sched.Off?
  {
    var c := Do(s, Close);
    if s.sched.Off? {
      OneStep(c, Schedule);
      assert Run(c, [Schedule]).run;
    } else {
      forall schedule
        ensures !Run(c, schedule).run
      {
        NothingFiresAfterClose(s, schedule);
      }
    }
  }
}
