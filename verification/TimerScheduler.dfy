/**
  The timer scheduler: a thread in `schedule`, threads that add and cancel timers, and
  threads that close the scheduler. Adders and closers hold `mtx`, which the scheduler
  gives up only between calls of `timer_run` and while it waits; cancelling needs no lock.
  Time is a number of nanoseconds and passes in between.
 */
module TimerScheduler {

  type Id = nat

  const DEFAULT_WAIT: nat := 300_000_000_000

  datatype Kind = Once | Loop

  /** Who has used up the once-flag: nobody, a cancel, or the timer's turn, which may have
      found a callback to run or none. */
  datatype Claim = Free | ByCancel | ByTurn(ran: bool)

  /** `callback` says whether there is one. */
  datatype Timer = Timer(start: nat, last: nat, delay: nat, kind: Kind, callback: bool, claim: Claim)
  {
    /** What the queue is ordered by. */
    function Key(): nat { start + last }

    /** Reading the time left uses up the initial delay. */
    function LeftTime(now: nat): int { last - (now - start) + delay }

    function Measured(): Timer { this.(delay := 0) }

    function Cancelled(): Timer {
      if claim.Free? then this.(claim := ByCancel, callback := false) else this
    }

    /** Is there a callback to run when the timer's turn comes? */
    predicate Runs() { callback && (kind.Loop? || claim.Free?) }

    /** A one-shot timer gives up its callback before running it. */
    function Taken(): Timer {
      if kind.Once? && claim.Free? then this.(claim := ByTurn(callback), callback := false) else this
    }
  }

  /** One start of a callback: when, the timer's key at that moment, and whether the wait
      before it ended without a notification and before its time. */
  datatype Firing = Firing(id: Id, time: nat, due: nat, spurious: bool)

  /** Where the scheduler thread is; `tmp` is the timer `timer_run` took from the top. */
  datatype Scheduler =
    | Off
    | Test
    | Entering
    | IdleWait(deadline: nat, notified: bool)
    | Ready
    | Measured(tmp: Id, left: nat)
    | TimedWait(tmp: Id, deadline: nat, notified: bool)
    | Expired(tmp: Id, spurious: bool)
    | Popped(tmp: Id, spurious: bool)
    | Calling(tmp: Id)
    | Called(tmp: Id)
    | PushBack(tmp: Id)
    | Exited
  {
    /** Is `mtx` free for adders and closers? */
    predicate LockFree() { Off? || Test? || Entering? || IdleWait? || TimedWait? || Exited? }

    predicate Waits() { IdleWait? || TimedWait? }
  }

  /** `heap` lists the queue, its top first. `added` is the wake-up state. */
  datatype State = State(
    now: nat, timers: map<Id, Timer>, heap: seq<Id>, run: bool, added: bool,
    sched: Scheduler, fired: seq<Firing>)

  /** Steps that change the queue carry the order in which it is left. */
  datatype Step =
    | Tick(d: nat)
    | Add(id: Id, timer: Timer, order: seq<Id>)
    | Cancel(id: Id)
    | Close
    | Schedule
    | Moves(order: seq<Id>)
    | SpuriousWake

  function Initial(now: nat): State { State(now, map[], [], false, false, Off, []) }

  /** The queue may be left in any order that has a least key on top. */
  predicate Arranges(order: seq<Id>, content: seq<Id>, timers: map<Id, Timer>) {
    && multiset(order) == multiset(content)
    && (forall id | id in order :: id in timers)
    && (forall id | id in order :: timers[order[0]].Key() <= timers[id].Key())
  }

  function Notify(c: Scheduler): Scheduler {
    if c.Waits() then c.(notified := true) else c
  }

  /** `timer_run` past its first wait, holding `mtx`. */
  function Measure(s: State): State {
    if !s.run then s.(sched := Exited)
    else if s.heap == [] then s.(sched := Test)
    else if s.heap[0] !in s.timers then s
    else
      var tmp := s.heap[0];
      var left := s.timers[tmp].LeftTime(s.now);
      s.(timers := s.timers[tmp := s.timers[tmp].Measured()],
         sched := if left > 0 then Measured(tmp, left) else Expired(tmp, false))
  }

  /** The wait for `tmp` is over and `mtx` is held again. */
  function EndWait(s: State, tmp: Id, spurious: bool): State {
    s.(sched := if s.added then Test else Expired(tmp, spurious))
  }

  /** The timer's turn: `operator()` up to the start of its callback. */
  function Fire(s: State, tmp: Id, spurious: bool): State
    requires tmp in s.timers
  {
    var t := s.timers[tmp];
    var s1 := s.(timers := s.timers[tmp := t.Taken()]);
    if t.Runs() then s1.(fired := s.fired + [Firing(tmp, s.now, t.Key(), spurious)], sched := Calling(tmp))
    else s1.(sched := Called(tmp))
  }

  /** Starting a timer changes no more than its claim and whether it has a callback. */
  lemma {:induction false} FireChangesLittle(s: State, tmp: Id, spurious: bool)
    requires tmp in s.timers
    ensures var s' := Fire(s, tmp, spurious);
            && s'.heap == s.heap && s'.timers.Keys == s.timers.Keys && (s'.sched == Calling(tmp) || s'.sched == Called(tmp))
            && (forall id | id in s.timers ::
                  && Evolves(s.timers[id], s'.timers[id]) && s'.timers[id].Key() == s.timers[id].Key()
                  && s'.timers[id].delay == s.timers[id].delay)
            && (s'.fired == s.fired
                || (s.timers[tmp].Runs() && s'.fired == s.fired + [Firing(tmp, s.now, s.timers[tmp].Key(), spurious)]))
  {
  }

  function Move(s: State, order: seq<Id>): State {
    match s.sched
    case Off => s
    case Test => s.(sched := if s.run then Entering else Exited)
    case Entering => s.(sched := if s.heap == [] then IdleWait(s.now + DEFAULT_WAIT, false) else Ready)
    case IdleWait(deadline, notified) => if notified || s.now >= deadline then s.(sched := Ready) else s
    case Ready => Measure(s)
    case Measured(tmp, left) => s.(sched := TimedWait(tmp, s.now + left, false))
    case TimedWait(tmp, deadline, notified) =>
      if notified || s.now >= deadline then EndWait(s, tmp, false) else s
    case Expired(tmp, spurious) =>
      if !s.run then s.(sched := Exited)
      else if s.heap != [] && Arranges(order, s.heap[1..], s.timers) then s.(heap := order, sched := Popped(tmp, spurious))
      else s
    case Popped(tmp, spurious) => if tmp in s.timers then Fire(s, tmp, spurious) else s
    case Calling(tmp) => s.(sched := Called(tmp))
    case Called(tmp) =>
      if tmp in s.timers && s.timers[tmp].kind.Loop?
      then s.(timers := s.timers[tmp := s.timers[tmp].(start := s.now)], sched := PushBack(tmp))
      else s.(sched := PushBack(tmp))
    case PushBack(tmp) =>
      if tmp in s.timers && s.timers[tmp].kind.Loop? && s.timers[tmp].callback then
        if Arranges(order, s.heap + [tmp], s.timers) then s.(heap := order, added := false, sched := Test) else s
      else s.(added := false, sched := Test)
    case Exited => s
  }

  function Do(s: State, step: Step): State {
    match step
    case Tick(d) => s.(now := s.now + d)
    case Add(id, timer, order) =>
      var timers := s.timers[id := timer];
      if s.sched.LockFree() && id !in s.timers && !timer.claim.ByTurn? && Arranges(order, s.heap + [id], timers)
      then s.(timers := timers, heap := order, added := true, sched := Notify(s.sched))
      else s
    case Cancel(id) => if id in s.timers then s.(timers := s.timers[id := s.timers[id].Cancelled()]) else s
    case Close => if s.sched.LockFree() then s.(run := false, added := true, sched := Notify(s.sched)) else s
    case Schedule => if s.sched.Off? then s.(run := true, sched := Test) else s
    case Moves(order) => Move(s, order)
    case SpuriousWake =>
      match s.sched {
        case IdleWait(_, _) => s.(sched := Ready)
        case TimedWait(tmp, deadline, notified) => EndWait(s, tmp, !notified && s.now < deadline)
        case _ => s
      }
  }

  function Run(s: State, schedule: seq<Step>): State
    decreases |schedule|
  {
    if schedule == [] then s else Run(Do(s, schedule[0]), schedule[1..])
  }

  // ---------------------------------------------------------------- the invariant

  /** The timer popped and not yet disposed of. */
  function Hand(c: Scheduler): set<Id> {
    match c
    case Popped(tmp, _) => {tmp}
    case Calling(tmp) => {tmp}
    case Called(tmp) => {tmp}
    case PushBack(tmp) => {tmp}
    case _ => {}
  }

  /** Every queued timer is queued once, and the top has the least key. */
  ghost predicate HeapInv(s: State) {
    && (forall id | id in s.heap :: id in s.timers && multiset(s.heap)[id] == 1)
    && (forall id | id in s.heap :: s.timers[s.heap[0]].Key() <= s.timers[id].Key())
    && (forall id | id in Hand(s.sched) :: id in s.timers && id !in s.heap)
  }

  ghost predicate Top(s: State, tmp: Id) {
    s.heap != [] && s.heap[0] == tmp && tmp in s.timers
  }

  /** The timer measured stays on top until it is popped, unless an addition is on record;
      and it is not popped before its key unless a wait ended spuriously. */
  ghost predicate SchedulerInv(s: State) {
    match s.sched
    case Measured(tmp, left) => Top(s, tmp) && s.now + left >= s.timers[tmp].Key()
    case TimedWait(tmp, deadline, notified) =>
      && (notified ==> s.added)
      && (!s.added ==> Top(s, tmp) && deadline >= s.timers[tmp].Key())
    case Expired(tmp, spurious) => Top(s, tmp) && (!spurious ==> s.now >= s.timers[tmp].Key())
    case Popped(tmp, spurious) => tmp in s.timers && (!spurious ==> s.now >= s.timers[tmp].Key())
    case Calling(tmp) => tmp in s.timers && (s.timers[tmp].kind.Once? ==> !s.timers[tmp].claim.Free?)
    case Called(tmp) => tmp in s.timers && (s.timers[tmp].kind.Once? ==> !s.timers[tmp].claim.Free?)
    case PushBack(tmp) => tmp in s.timers && (s.timers[tmp].kind.Once? ==> !s.timers[tmp].claim.Free?)
    case _ => true
  }

  /** A timer neither queued nor in hand is over: claimed, or a loop without callback. */
  ghost predicate FateInv(s: State) {
    forall id | id in s.timers && id !in s.heap && id !in Hand(s.sched) ::
      if s.timers[id].kind.Once? then !s.timers[id].claim.Free? else !s.timers[id].callback
  }

  function Firings(fired: seq<Firing>, id: Id): nat {
    if fired == [] then 0
    else Firings(fired[..|fired| - 1], id) + if fired[|fired| - 1].id == id then 1 else 0
  }

  /** No firing was before its key, spurious waits apart, and none is yet to come; a loop
      timer that is not being run has started anew since it last fired. */
  ghost predicate EachFiring(s: State) {
    forall i | 0 <= i < |s.fired| ::
      && s.fired[i].id in s.timers
      && (!s.fired[i].spurious ==> s.fired[i].due <= s.fired[i].time)
      && s.fired[i].time <= s.now
      && (s.timers[s.fired[i].id].kind.Loop? && s.sched != Calling(s.fired[i].id) && s.sched != Called(s.fired[i].id) ==>
            s.fired[i].time <= s.timers[s.fired[i].id].start)
  }

  /** Each firing of a loop timer falls due an interval after every earlier one. */
  ghost predicate LoopSpacing(s: State) {
    forall i, j | 0 <= i < j < |s.fired| && s.fired[i].id == s.fired[j].id
                  && s.fired[i].id in s.timers && s.timers[s.fired[i].id].kind.Loop? ::
      s.fired[i].time + s.timers[s.fired[i].id].last <= s.fired[j].due
  }

  /** What the log of firings says. */
  ghost predicate FiredInv(s: State) { EachFiring(s) && LoopSpacing(s) }

  /** A one-shot timer has fired once if it found its callback when its turn came, and not
      otherwise. */
  ghost predicate OnceInv(s: State) {
    forall id | id in s.timers && s.timers[id].kind.Once? ::
      Firings(s.fired, id) == if s.timers[id].claim == ByTurn(true) then 1 else 0
  }

  ghost predicate LogInv(s: State) {
    forall id | Firings(s.fired, id) > 0 :: id in s.timers
  }

  ghost predicate Inv(s: State) {
    HeapInv(s) && SchedulerInv(s) && FateInv(s) && FiredInv(s) && OnceInv(s) && LogInv(s)
  }

  /** A timer keeps its identity, and what is used up stays used up. */
  predicate Evolves(t: Timer, t': Timer) {
    && t'.kind == t.kind && t'.last == t.last
    && (!t.claim.Free? ==> t'.claim == t.claim) && (t'.callback ==> t.callback)
  }

  // ---------------------------------------------------------------- every step keeps it

  lemma {:induction false} FiringsAppend(fired: seq<Firing>, f: Firing, id: Id)
    ensures Firings(fired + [f], id) == Firings(fired, id) + if f.id == id then 1 else 0
  {
    assert (fired + [f])[..|fired|] == fired;
  }

  /** A step that fires nothing keeps what the log says; new timers have not fired. */
  lemma {:induction false} LogUnaffected(s: State, s': State)
    requires FiredInv(s) && OnceInv(s) && LogInv(s)
    requires s'.fired == s.fired && s.now <= s'.now
    requires forall id | id in s.timers :: id in s'.timers && Evolves(s.timers[id], s'.timers[id])
    requires forall id | id in s'.timers :: s'.timers[id].claim == ByTurn(true) ==> id in s.timers && s.timers[id].claim == ByTurn(true)
    requires forall id | id in s.timers ::
               || s.now <= s'.timers[id].start
               || (s.timers[id].start == s'.timers[id].start
                   && (s.timers[id].kind.Loop? && (s.sched == Calling(id) || s.sched == Called(id)) ==>
                         s'.sched == Calling(id) || s'.sched == Called(id)))
    ensures FiredInv(s') && OnceInv(s') && LogInv(s')
  {
    hide Firings;
  }

  /** A step that leaves the queue and its keys alone keeps its order and every fate. */
  lemma {:induction false} QueueUnaffected(s: State, s': State)
    requires HeapInv(s) && FateInv(s)
    requires s'.heap == s.heap && Hand(s'.sched) == Hand(s.sched) && s'.timers.Keys == s.timers.Keys
    requires forall id | id in s.timers :: Evolves(s.timers[id], s'.timers[id])
    requires forall id | id in s.heap && id in s.timers :: s'.timers[id].Key() == s.timers[id].Key()
    ensures HeapInv(s') && FateInv(s')
  {
  }

  /** The queue after a push or a pop. */
  lemma {:induction false} Rearranged(order: seq<Id>, content: seq<Id>, timers: map<Id, Timer>)
    requires Arranges(order, content, timers)
    ensures forall id :: id in order <==> id in content
    ensures forall id | id in order :: multiset(order)[id] == multiset(content)[id]
  {
    forall id
      ensures id in order <==> id in content
    {
      assert id in order <==> id in multiset(order);
      assert id in content <==> id in multiset(content);
    }
  }

  /** Pushing a timer that is not queued. */
  lemma {:induction false} PushKeepsQueue(s: State, s': State, id: Id)
    requires HeapInv(s) && FateInv(s) && id !in s.heap
    requires s'.timers.Keys == s.timers.Keys + {id} && Arranges(s'.heap, s.heap + [id], s'.timers)
    requires forall x | x in s.timers && x != id :: s'.timers[x] == s.timers[x]
    requires Hand(s'.sched) == Hand(s.sched) - {id}
    ensures HeapInv(s') && FateInv(s')
  {
    Rearranged(s'.heap, s.heap + [id], s'.timers);
  }

  lemma {:induction false} AddSafe(s: State, id: Id, timer: Timer, order: seq<Id>)
    requires Inv(s) && id !in s.timers && s.sched.LockFree() && !timer.claim.ByTurn?
    requires Arranges(order, s.heap + [id], s.timers[id := timer])
    ensures Inv(Do(s, Add(id, timer, order)))
  {
    hide Firings, FiredInv, OnceInv, LogInv, FateInv, Arranges;
    var s' := Do(s, Add(id, timer, order));
    assert id !in s.heap && SchedulerInv(s');
    hide HeapInv;
    PushKeepsQueue(s, s', id);
    LogUnaffected(s, s');
  }

  lemma {:induction false} CancelSafe(s: State, id: Id)
    requires Inv(s)
    ensures Inv(Do(s, Cancel(id)))
  {
    hide HeapInv, FateInv, FiredInv, OnceInv, LogInv;
    var s' := Do(s, Cancel(id));
    assert SchedulerInv(s');
    hide SchedulerInv;
    QueueUnaffected(s, s');
    LogUnaffected(s, s');
  }

  lemma {:induction false} TickSafe(s: State, d: nat)
    requires Inv(s)
    ensures Inv(Do(s, Tick(d)))
  {
    hide HeapInv, FateInv, FiredInv, OnceInv, LogInv;
    QueueUnaffected(s, Do(s, Tick(d)));
    LogUnaffected(s, Do(s, Tick(d)));
  }

  /** The steps that change no timer: starting, testing, waiting, closing. */
  lemma {:induction false} ControlSafe(s: State, s': State)
    requires Inv(s) && s'.timers == s.timers && s'.heap == s.heap && s'.fired == s.fired && s'.now == s.now
    requires Hand(s.sched) == Hand(s'.sched) == {} && SchedulerInv(s')
    ensures Inv(s')
  {
    hide HeapInv, FateInv, FiredInv, OnceInv, LogInv, SchedulerInv;
    QueueUnaffected(s, s');
    LogUnaffected(s, s');
  }

  lemma {:induction false} MeasureSafe(s: State)
    requires Inv(s) && s.sched.Ready?
    ensures Inv(Measure(s))
  {
    hide FateInv, FiredInv, OnceInv, LogInv;
    var s' := Measure(s);
    assert SchedulerInv(s');
    hide HeapInv, SchedulerInv;
    QueueUnaffected(s, s');
    LogUnaffected(s, s');
  }

  /** Popping takes the top off, into the hand of the scheduler. */
  lemma {:induction false} PopKeepsQueue(s: State, s': State)
    requires HeapInv(s) && FateInv(s) && s.heap != [] && Arranges(s'.heap, s.heap[1..], s.timers)
    requires s'.timers == s.timers && Hand(s.sched) == {} && Hand(s'.sched) == {s.heap[0]}
    ensures HeapInv(s') && FateInv(s')
  {
    assert s.heap == [s.heap[0]] + s.heap[1..];
    Rearranged(s'.heap, s.heap[1..], s.timers);
  }

  lemma {:induction false} PopSafe(s: State, order: seq<Id>)
    requires Inv(s) && s.sched.Expired?
    ensures Inv(Move(s, order))
  {
    hide HeapInv, FateInv, FiredInv, OnceInv, LogInv, Arranges;
    var s' := Move(s, order);
    if s'.sched.Popped? {
      PopKeepsQueue(s, s');
    } else {
      QueueUnaffected(s, s');
    }
    LogUnaffected(s, s');
  }

  /** A new firing is not early unless its wait was cut short, ... */
  lemma {:induction false} FireKeepsEach(s: State)
    requires EachFiring(s) && SchedulerInv(s) && s.sched.Popped?
    ensures EachFiring(Fire(s, s.sched.tmp, s.sched.spurious))
  {
  }

  /** ... and follows the previous one of a loop by its interval. */
  lemma {:induction false} FireKeepsSpacing(s: State)
    requires EachFiring(s) && LoopSpacing(s) && SchedulerInv(s) && s.sched.Popped?
    ensures LoopSpacing(Fire(s, s.sched.tmp, s.sched.spurious))
  {
  }

  /** A one-shot timer fires once at most. */
  lemma {:induction false} FireKeepsOnce(s: State)
    requires OnceInv(s) && LogInv(s) && SchedulerInv(s) && s.sched.Popped?
    ensures var s' := Fire(s, s.sched.tmp, s.sched.spurious);
            OnceInv(s') && LogInv(s')
  {
    hide Firings;
    var tmp := s.sched.tmp;
    var f := Firing(tmp, s.now, s.timers[tmp].Key(), s.sched.spurious);
    forall id
      ensures Firings(s.fired + [f], id) == Firings(s.fired, id) + if f.id == id then 1 else 0
    {
      FiringsAppend(s.fired, f, id);
    }
  }

  lemma {:induction false} FireShape(s: State)
    requires Inv(s) && s.sched.Popped?
    ensures var s' := Fire(s, s.sched.tmp, s.sched.spurious);
            && s'.heap == s.heap && Hand(s'.sched) == Hand(s.sched) && s'.timers.Keys == s.timers.Keys
            && (forall id | id in s.timers ::
                  Evolves(s.timers[id], s'.timers[id]) && s'.timers[id].Key() == s.timers[id].Key())
            && SchedulerInv(s')
  {
    hide HeapInv, FateInv, FiredInv, OnceInv, LogInv;
  }

  lemma {:induction false} FireSafe(s: State, order: seq<Id>)
    requires Inv(s) && s.sched.Popped?
    ensures Inv(Move(s, order))
  {
    assert Move(s, order) == Fire(s, s.sched.tmp, s.sched.spurious);
    hide Move, Fire, HeapInv, FateInv, EachFiring, LoopSpacing, OnceInv, LogInv, Evolves;
    FireShape(s);
    QueueUnaffected(s, Move(s, order));
    FireKeepsEach(s);
    FireKeepsSpacing(s);
    FireKeepsOnce(s);
  }

  lemma {:induction false} AfterCallSafe(s: State, order: seq<Id>)
    requires Inv(s) && (s.sched.Calling? || s.sched.Called?)
    ensures Inv(Move(s, order))
  {
    hide FateInv, FiredInv, OnceInv, LogInv;
    var s' := Move(s, order);
    assert s.sched.tmp !in s.heap && SchedulerInv(s');
    hide HeapInv, SchedulerInv;
    QueueUnaffected(s, s');
    LogUnaffected(s, s');
  }

  lemma {:induction false} PushBackSafe(s: State, order: seq<Id>)
    requires Inv(s) && s.sched.PushBack?
    ensures Inv(Move(s, order))
  {
    hide Firings, FiredInv, OnceInv, LogInv, Arranges;
    var s' := Move(s, order);
    var t := s.timers[s.sched.tmp];
    if t.kind.Loop? && t.callback && s'.sched.Test? {
      assert s.timers.Keys == s.timers.Keys + {s.sched.tmp};
      PushKeepsQueue(s, s', s.sched.tmp);
    }
    LogUnaffected(s, s');
  }

  lemma {:induction false} DoSafe(s: State, step: Step)
    requires Inv(s)
    ensures Inv(Do(s, step))
  {
    hide HeapInv, FateInv, FiredInv, OnceInv, LogInv;
    match step
    case Tick(d) => TickSafe(s, d);
    case Add(id, timer, order) =>
      if s.sched.LockFree() && id !in s.timers && !timer.claim.ByTurn? && Arranges(order, s.heap + [id], s.timers[id := timer]) {
        AddSafe(s, id, timer, order);
      }
    case Cancel(id) => CancelSafe(s, id);
    case Close => CloseSafe(s);
    case Schedule =>
      if s.sched.Off? {
        ControlSafe(s, Do(s, step));
      }
    case SpuriousWake => SpuriousSafe(s);
    case Moves(order) =>
      match s.sched {
        case Ready => MeasureSafe(s);
        case Expired(_, _) => PopSafe(s, order);
        case Popped(_, _) => FireSafe(s, order);
        case Calling(_) => AfterCallSafe(s, order);
        case Called(_) => AfterCallSafe(s, order);
        case PushBack(_) => PushBackSafe(s, order);
        case _ => ControlSafe(s, Do(s, step));
      }
  }

  lemma {:induction false} CloseSafe(s: State)
    requires Inv(s)
    ensures Inv(Do(s, Close))
  {
    hide HeapInv, FateInv, FiredInv, OnceInv, LogInv;
    if s.sched.LockFree() {
      ControlSafe(s, Do(s, Close));
    }
  }

  lemma {:induction false} SpuriousSafe(s: State)
    requires Inv(s)
    ensures Inv(Do(s, SpuriousWake))
  {
    hide HeapInv, FateInv, FiredInv, OnceInv, LogInv;
    if s.sched.Waits() {
      ControlSafe(s, Do(s, SpuriousWake));
    }
  }
}
