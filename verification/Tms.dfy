/**
  Delayed and repeated messages to logic threads: clients of the timer scheduler. Adding a
  message draws an index, adds a timer under that index, which takes the three steps of
  TimerRaces, and then records the index; others run between all of these. The timer's
  callback puts the message and, for a delayed message, then forgets the index.
 */
module Tms {
  import T = TimerScheduler
  import R = TimerRaces
  import TimerTheorems
  import TimerRaceTheorems

  type Id = nat
  type LogicId = nat

  /** How far the adding of a message has got. When its index was drawn is only recorded: the
      timer made later starts no earlier. */
  datatype Pending = Drawn(at: nat, delay: nat, interval: nat, kind: T.Kind) | Started

  /** `index` holds the recorded indices, `owner` the logic thread a message is for,
      `hasPut` says whether the callback running has put its message, and `kept` is the timer
      whose turn was last, which `timer_run` keeps until it returns. */
  datatype State = State(
    t: R.Races, logics: set<LogicId>, nextIndex: nat, pending: map<Id, Pending>,
    index: set<Id>, owner: map<Id, LogicId>, hasPut: bool, puts: seq<(LogicId, Id)>, kept: set<Id>)

  datatype Step =
    | AddMessage(logic: LogicId, interval: nat)
    | AddMessageLoop(logic: LogicId, delay: nat, interval: nat)
    | StartTimer(id: Id, start: nat, order: seq<Id>)
    | StoreFlag(id: Id)
    | NotifyTimer(id: Id)
    | RecordIndex(id: Id)
    | CloseTimer(id: Id)
    | Tick(d: nat)
    | CloseScheduler
    | Schedule
    | Moves(order: seq<Id>)
    | SpuriousWake

  function Initial(now: nat, logics: set<LogicId>): State {
    State(R.Start(now), logics, 0, map[], {}, map[], false, [], {})
  }

  /** The index returned by adding a message: -1 when there is no such logic thread. */
  function AddedIndex(s: State, logic: LogicId): int {
    if logic in s.logics then s.nextIndex else -1
  }

  function Draw(s: State, logic: LogicId, p: Pending): State {
    if logic !in s.logics then s
    else s.(nextIndex := s.nextIndex + 1, pending := s.pending[s.nextIndex := p], owner := s.owner[s.nextIndex := logic])
  }

  /** The weak pointer to a timer has expired once nobody holds the timer. */
  predicate Expired(s: State, id: Id) { TimerTheorems.Over(s.t.t, id) && !(TurnEnding(s) && id in s.kept) }

  /** Has the scheduler released the queue after a turn and not yet returned from it? */
  predicate TurnEnding(s: State) { s.t.held && s.t.t.sched.Test? }

  function Do(s: State, step: Step): State {
    match step
    case AddMessage(logic, interval) => Draw(s, logic, Drawn(s.t.t.now, 0, interval, T.Once))
    case AddMessageLoop(logic, delay, interval) => Draw(s, logic, Drawn(s.t.t.now, delay, interval, T.Loop))
    case StartTimer(id, start, order) =>
      if id in s.pending && s.pending[id].Drawn? && s.pending[id].at <= start <= s.t.t.now then
        var t' := R.Happen(s.t, R.Push(id, TimerOf(s.pending[id], start), order));
        if id in t'.t.timers then s.(t := t', pending := s.pending[id := Started]) else s
      else s
    case StoreFlag(id) => s.(t := R.Happen(s.t, R.Store(id)))
    case NotifyTimer(id) => s.(t := R.Happen(s.t, R.NotifyOne(id)))
    case RecordIndex(id) =>
      if id in s.pending && s.pending[id].Started? && id !in s.t.adders
      then s.(index := s.index + {id}, pending := s.pending - {id})
      else s
    case CloseTimer(id) =>
      if id in s.index && !Expired(s, id) then s.(t := R.Happen(s.t, R.Other(T.Cancel(id))), index := s.index - {id}) else s
    case Tick(d) => s.(t := R.Happen(s.t, R.Other(T.Tick(d))))
    case CloseScheduler => s.(t := R.Happen(s.t, R.Other(T.Close)))
    case Schedule => s.(t := R.Happen(s.t, R.Other(T.Schedule)))
    case SpuriousWake => s.(t := R.Happen(s.t, R.Other(T.SpuriousWake)))
    case Moves(order) =>
      var sched := s.t.t.sched;
      if sched.Calling? && sched.tmp in s.owner && sched.tmp in s.t.t.timers then
        var tmp := sched.tmp;
        if !s.hasPut then s.(hasPut := true, puts := s.puts + [(s.owner[tmp], tmp)])
        else s.(t := R.Happen(s.t, R.Other(T.Moves(order))), hasPut := false,
                index := if s.t.t.timers[tmp].kind.Once? then s.index - {tmp} else s.index)
      else s.(t := R.Happen(s.t, R.Other(T.Moves(order))), kept := if sched.PushBack? then {sched.tmp} else s.kept)
  }

  /** The timer made for a message, when the clock shows `start`. */
  function TimerOf(p: Pending, start: nat): T.Timer
    requires p.Drawn?
  {
    T.Timer(start, p.interval, p.delay, p.kind, true, T.Free)
  }

  function Run(s: State, schedule: seq<Step>): State
    decreases |schedule|
  {
    if schedule == [] then s else Run(Do(s, schedule[0]), schedule[1..])
  }

  /** How often the message of a timer has been put. */
  function PutsOf(puts: seq<(LogicId, Id)>, id: Id): nat {
    if puts == [] then 0
    else PutsOf(puts[..|puts| - 1], id) + if puts[|puts| - 1].1 == id then 1 else 0
  }

  // ---------------------------------------------------------------- the invariant

  /** Indices are drawn once; a timer exists from its start on; recorded timers exist. */
  ghost predicate IndexInv(s: State) {
    && (forall id | id in s.t.t.timers :: id in s.owner)
    && (forall id | id in s.owner :: id < s.nextIndex && s.owner[id] in s.logics)
    && (forall id | id in s.pending :: id in s.owner && (s.pending[id].Drawn? <==> id !in s.t.t.timers))
    && (forall id | id in s.pending && s.pending[id].Drawn? :: s.pending[id].at <= s.t.t.now)
    && (forall id | id in s.index :: id in s.t.t.timers && id !in s.pending)
  }

  /** Once the adding of a message is over the call that adds the timer has returned, and the
      index is recorded for as long as the timer's claim is free. */
  ghost predicate RecordInv(s: State) {
    forall id | id in s.owner && id !in s.pending ::
      id in s.t.t.timers && id !in s.t.adders && (s.t.t.timers[id].claim.Free? ==> id in s.index)
  }

  /** Is a callback running that has yet to put its message? */
  predicate AboutToPut(s: State) { s.t.t.sched.Calling? && !s.hasPut }

  /** The puts are the firings, in order and to the right threads, but for a message about
      to be put. */
  ghost predicate PutInv(s: State) {
    var t := s.t.t;
    && (s.hasPut ==> t.sched.Calling?)
    && (t.sched.Calling? ==> t.fired != [] && t.fired[|t.fired| - 1].id == t.sched.tmp)
    && |s.puts| + (if AboutToPut(s) then 1 else 0) == |t.fired|
    && (forall i | 0 <= i < |s.puts| ::
          s.puts[i].1 == t.fired[i].id && s.puts[i].1 in s.owner && s.puts[i].0 == s.owner[s.puts[i].1])
  }

  ghost predicate Inv(s: State) { R.Sound(s.t) && IndexInv(s) && PutInv(s) && RecordInv(s) }

  /** No callback has started. */
  predicate Quiet(t: T.State, t': T.State) {
    t'.fired == t.fired && (t'.sched.Calling? ==> t'.sched == t.sched)
  }

  /** The callback of one timer has started. */
  predicate Starts(t: T.State, t': T.State) {
    && t'.sched.Calling? && !t.sched.Calling?
    && |t'.fired| == |t.fired| + 1
    && t'.fired == t.fired + [t'.fired[|t.fired|]] && t'.fired[|t.fired|].id == t'.sched.tmp
  }

  lemma {:induction false} MoveShape(r: R.Races, order: seq<Id>)
    requires R.Sound(r)
    ensures var t, t' := r.t, R.MoveRace(r, order).t;
            && t'.timers.Keys == t.timers.Keys && (Quiet(t, t') || Starts(t, t'))
            && (t.sched.Calling? ==> !t'.sched.Calling?)
  {
    hide R.MoveRace, R.Queued, R.Logged, Quiet, Starts;
    if r.t.sched.Popped? {
      FiringMoveShape(r, order);
    } else {
      QuietMoveShape(r, order);
    }
  }

  lemma {:induction false} FiringMoveShape(r: R.Races, order: seq<Id>)
    requires r.t.sched.Popped? && r.t.sched.tmp in r.t.timers && !r.held
    ensures var t, t' := r.t, R.MoveRace(r, order).t;
            t'.timers.Keys == t.timers.Keys && (Quiet(t, t') || Starts(t, t'))
  {
    FireShape(r.t);
    hide T.Fire, Quiet, Starts;
  }

  lemma {:induction false} QuietMoveShape(r: R.Races, order: seq<Id>)
    requires !r.t.sched.Popped? && (r.held ==> !r.t.sched.Calling?)
    ensures var t, t' := r.t, R.MoveRace(r, order).t;
            && t'.timers.Keys == t.timers.Keys && Quiet(t, t')
            && (t.sched.Calling? ==> !t'.sched.Calling?)
  {
    hide R.PopRace, R.PushBackRace, R.Release, T.Move, T.Measure, T.EndWait;
    var t := r.t;
    if r.held {
      ReleaseShape(r);
    } else if t.sched.Ready? {
      MeasureShape(t);
    } else if t.sched.TimedWait? {
      EndShape(t);
    } else if t.sched.Expired? || t.sched.PushBack? {
      ReorderShape(r, order);
    } else {
      PlainMoveShape(t);
    }
  }

  lemma {:induction false} ReleaseShape(r: R.Races)
    requires !r.t.sched.Calling?
    ensures R.Release(r).t.timers == r.t.timers && Quiet(r.t, R.Release(r).t) && !R.Release(r).t.sched.Calling?
  {
  }

  lemma {:induction false} MeasureShape(t: T.State)
    requires t.sched.Ready?
    ensures T.Measure(t).timers.Keys == t.timers.Keys && Quiet(t, T.Measure(t))
  {
  }

  lemma {:induction false} EndShape(t: T.State)
    requires t.sched.TimedWait?
    ensures forall cut :: var t' := T.EndWait(t, t.sched.tmp, cut); t'.timers == t.timers && Quiet(t, t')
  {
  }

  lemma {:induction false} PlainMoveShape(t: T.State)
    requires var c := t.sched; !c.Ready? && !c.TimedWait? && !c.Expired? && !c.Popped? && !c.PushBack?
    ensures var t' := T.Move(t, []);
            t'.timers.Keys == t.timers.Keys && Quiet(t, t') && (t.sched.Calling? ==> !t'.sched.Calling?)
  {
    hide T.Arranges, T.Fire, T.Measure, T.EndWait;
  }

  lemma {:induction false} ReorderShape(r: R.Races, order: seq<Id>)
    ensures r.t.sched.Expired? ==>
              var t' := R.PopRace(r, order).t;
              t'.timers == r.t.timers && t'.fired == r.t.fired && !t'.sched.Calling?
    ensures r.t.sched.PushBack? ==>
              var t' := R.PushBackRace(r, order).t;
              t'.timers == r.t.timers && t'.fired == r.t.fired && !t'.sched.Calling?
  {
    hide R.Leaves;
  }

  lemma {:induction false} FireShape(t: T.State)
    requires t.sched.Popped? && t.sched.tmp in t.timers
    ensures var t' := T.Fire(t, t.sched.tmp, t.sched.spurious);
            t'.timers.Keys == t.timers.Keys && (Quiet(t, t') || Starts(t, t'))
  {
  }

  /** An event of the timer starts one callback or none; only its own moves end one. */
  lemma {:induction false} TimerStepShape(r: R.Races, e: R.Event)
    requires R.Sound(r) && !e.Push?
    ensures var t, t' := r.t, R.Happen(r, e).t;
            && t'.timers.Keys == t.timers.Keys && (Quiet(t, t') || Starts(t, t'))
            && (t.sched.Calling? ==> ((e.Other? && e.step.Moves?) <==> !t'.sched.Calling?))
  {
    hide R.Sound, R.MoveRace, Quiet, Starts;
    if e.Other? && e.step.Moves? {
      MoveShape(r, e.step.order);
    } else {
      IdleShape(r, e);
    }
  }

  lemma {:induction false} IdleShape(r: R.Races, e: R.Event)
    requires !e.Push? && !(e.Other? && e.step.Moves?)
    ensures var t, t' := r.t, R.Happen(r, e).t;
            && Quiet(t, t') && t'.timers.Keys == t.timers.Keys && (t.sched.Calling? ==> t'.sched.Calling?)
  {
    hide R.MoveRace, R.WakeRace, R.CanPush, T.Move, T.Arranges;
    if e.Other? && e.step.SpuriousWake? {
      WakeShape(r);
    }
  }

  lemma {:induction false} WakeShape(r: R.Races)
    ensures var t, t' := r.t, R.WakeRace(r).t;
            Quiet(t, t') && t'.timers == t.timers && (t.sched.Calling? ==> t'.sched.Calling?)
  {
  }

  /** Used-up claims stay used up, so no index is missed. */
  lemma {:induction false} RecordKept(s: State, s': State, e: R.Event)
    requires Inv(s) && s'.t == R.Happen(s.t, e) && s'.owner == s.owner
    requires forall id | id in s'.owner && id !in s'.pending :: id !in s.pending && !(e.Push? && e.id == id)
    requires forall id | id in s.index && id !in s'.index :: id in s'.t.t.timers && !s'.t.t.timers[id].claim.Free?
    ensures RecordInv(s')
  {
    TimerRaceTheorems.TimersEvolve(s.t, e);
    OnlyPushesAdd(s.t, e);
    hide R.Sound, R.Happen, IndexInv, PutInv;
  }

  lemma {:induction false} OnlyPushesAdd(r: R.Races, e: R.Event)
    ensures forall id | id in R.Happen(r, e).adders :: id in r.adders || (e.Push? && e.id == id)
  {
    hide R.CanPush, R.Leaves, T.Do, T.Move, T.Measure, T.EndWait;
  }

  /** A step that is the timer's alone. */
  lemma {:induction false} TimerStepSafe(s: State, e: R.Event, index: set<Id>)
    requires Inv(s) && !e.Push? && index <= s.index
    requires e.Other? && e.step.Moves? ==> (s.t.t.sched.Calling? <==> s.hasPut)
    requires var timers := R.Happen(s.t, e).t.timers;
             forall id | id in s.index && id !in index :: id in timers && !timers[id].claim.Free?
    ensures Inv(s.(t := R.Happen(s.t, e), index := index, hasPut := if e.Other? && e.step.Moves? then false else s.hasPut))
  {
    hide R.Sound, R.Happen, RecordInv;
    R.HappenSound(s.t, e);
    TimerStepShape(s.t, e);
    TimerRaceTheorems.TimeGoesOn(s.t, e);
    RecordKept(s, s.(t := R.Happen(s.t, e), index := index, hasPut := if e.Other? && e.step.Moves? then false else s.hasPut), e);
  }

  lemma {:induction false} StartSafe(s: State, id: Id, start: nat, order: seq<Id>)
    requires Inv(s)
    ensures Inv(Do(s, StartTimer(id, start, order)))
  {
    hide R.Sound, R.Happen, RecordInv;
    if id in s.pending && s.pending[id].Drawn? {
      var e := R.Push(id, TimerOf(s.pending[id], start), order);
      R.HappenSound(s.t, e);
      PushShape(s.t, e);
      TimerRaceTheorems.TimeGoesOn(s.t, e);
      RecordKept(s, s.(t := R.Happen(s.t, e), pending := s.pending[id := Started]), e);
    }
  }

  lemma {:induction false} PushShape(r: R.Races, e: R.Event)
    requires e.Push?
    ensures var t, t' := r.t, R.Happen(r, e).t;
            && t'.fired == t.fired && t'.sched == t.sched && (t.sched.Calling? ==> t' == t)
            && t'.timers.Keys == t.timers.Keys + if t' == t then {} else {e.id}
  {
    hide R.Leaves, R.Sifted;
  }

  lemma {:induction false} DoSafe(s: State, step: Step)
    requires Inv(s)
    ensures Inv(Do(s, step))
  {
    hide R.Sound, R.Happen, RecordInv, PutInv;
    match step
    case StartTimer(id, start, order) => StartSafe(s, id, start, order);
    case StoreFlag(id) => TimerStepSafe(s, R.Store(id), s.index);
    case NotifyTimer(id) => TimerStepSafe(s, R.NotifyOne(id), s.index);
    case CloseTimer(id) => CloseTimerSafe(s, id);
    case Tick(d) => TimerStepSafe(s, R.Other(T.Tick(d)), s.index);
    case CloseScheduler => TimerStepSafe(s, R.Other(T.Close), s.index);
    case Schedule => TimerStepSafe(s, R.Other(T.Schedule), s.index);
    case SpuriousWake => TimerStepSafe(s, R.Other(T.SpuriousWake), s.index);
    case Moves(order) => MovesSafe(s, order);
    case _ => BookSafe(s, step);
  }

  lemma {:induction false} CloseTimerSafe(s: State, id: Id)
    requires Inv(s)
    ensures Inv(Do(s, CloseTimer(id)))
  {
    hide R.Sound, R.Happen, RecordInv, PutInv, Expired;
    if id in s.index && !Expired(s, id) {
      assert id in s.t.t.timers;
      hide IndexInv;
      CancelUsesUp(s.t, id);
      TimerStepSafe(s, R.Other(T.Cancel(id)), s.index - {id});
    }
  }

  lemma {:induction false} CancelUsesUp(r: R.Races, id: Id)
    requires id in r.t.timers
    ensures var timers := R.Happen(r, R.Other(T.Cancel(id))).t.timers;
            id in timers && !timers[id].claim.Free?
  {
    hide T.Move, T.Arranges;
  }

  /** The steps that are no timer's. */
  lemma {:induction false} BookSafe(s: State, step: Step)
    requires Inv(s) && (step.AddMessage? || step.AddMessageLoop? || step.RecordIndex?)
    ensures Inv(Do(s, step))
  {
    hide R.Sound, R.Happen, PutInv, RecordInv, IndexInv;
    BookKeepsIndex(s, step);
    BookKeepsPuts(s, step);
    BookKeepsRecord(s, step);
  }

  lemma {:induction false} BookKeepsIndex(s: State, step: Step)
    requires IndexInv(s) && (step.AddMessage? || step.AddMessageLoop? || step.RecordIndex?)
    ensures IndexInv(Do(s, step))
  {
  }

  lemma {:induction false} BookKeepsPuts(s: State, step: Step)
    requires PutInv(s) && IndexInv(s) && (step.AddMessage? || step.AddMessageLoop? || step.RecordIndex?)
    ensures PutInv(Do(s, step))
  {
  }

  lemma {:induction false} BookKeepsRecord(s: State, step: Step)
    requires IndexInv(s) && RecordInv(s) && (step.AddMessage? || step.AddMessageLoop? || step.RecordIndex?)
    ensures RecordInv(Do(s, step))
  {
  }

  lemma {:induction false} MovesSafe(s: State, order: seq<Id>)
    requires Inv(s)
    ensures Inv(Do(s, Moves(order)))
  {
    hide R.Sound, R.Happen, RecordInv;
    var sched, e := s.t.t.sched, R.Other(T.Moves(order));
    if sched.Calling? {
      CallingExists(s);
      TimerRaceTheorems.TimersEvolve(s.t, e);
    }
    if AboutToPut(s) {
      SameRecord(s, Do(s, Moves(order)));
    } else {
      var index := if sched.Calling? && s.t.t.timers[sched.tmp].kind.Once? then s.index - {sched.tmp} else s.index;
      TimerStepSafe(s, e, index);
      KeptIsAside(s.(t := R.Happen(s.t, e), index := index, hasPut := false), Do(s, Moves(order)).kept);
    }
  }

  lemma {:induction false} KeptIsAside(s: State, kept: set<Id>)
    requires Inv(s)
    ensures Inv(s.(kept := kept))
  {
    hide R.Sound;
  }

  lemma {:induction false} SameRecord(s: State, s': State)
    requires RecordInv(s) && s'.t == s.t && s'.owner == s.owner && s'.pending == s.pending && s'.index == s.index
    ensures RecordInv(s')
  {
  }

  lemma {:induction false} CallingExists(s: State)
    requires Inv(s) && s.t.t.sched.Calling?
    ensures s.t.t.sched.tmp in s.t.t.timers && s.t.t.sched.tmp in s.owner
    ensures s.t.t.timers[s.t.t.sched.tmp].kind.Once? ==> !s.t.t.timers[s.t.t.sched.tmp].claim.Free?
  {
    hide R.Logged, R.Queued, PutInv, RecordInv;
  }

  lemma {:induction false} RunSafe(s: State, schedule: seq<Step>)
    requires Inv(s)
    ensures Inv(Run(s, schedule))
    decreases |schedule|
  {
    hide Inv, Do;
    if schedule != [] {
      DoSafe(s, schedule[0]);
      RunSafe(Do(s, schedule[0]), schedule[1..]);
    }
  }

  lemma {:induction false} Reachable(now: nat, logics: set<LogicId>, schedule: seq<Step>)
    ensures Inv(Run(Initial(now, logics), schedule))
  {
    var s := Initial(now, logics);
    assert R.Sound(s.t);
    RunSafe(s, schedule);
  }

  // ---------------------------------------------------------------- the main results

  lemma {:induction false} CountsAgree(puts: seq<(LogicId, Id)>, fired: seq<T.Firing>, id: Id)
    requires |puts| <= |fired| && forall i | 0 <= i < |puts| :: puts[i].1 == fired[i].id
    ensures PutsOf(puts, id) == T.Firings(fired[..|puts|], id)
  {
    if puts != [] {
      CountsAgree(puts[..|puts| - 1], fired, id);
      assert fired[..|puts|][..|puts| - 1] == fired[..|puts| - 1];
    }
  }

  /** A message has been put as often as its timer has fired, but for one about to be put. */
  lemma {:induction false} PutsAreFirings(s: State, id: Id)
    requires Inv(s)
    ensures PutsOf(s.puts, id) + (if AboutToPut(s) && s.t.t.sched.tmp == id then 1 else 0) == T.Firings(s.t.t.fired, id)
  {
    hide R.Sound, IndexInv;
    var fired, n := s.t.t.fired, |s.puts|;
    CountsAgree(s.puts, fired, id);
    if AboutToPut(s) {
      assert fired[..n] + [fired[n]] == fired;
      T.FiringsAppend(fired[..n], fired[n], id);
    } else {
      assert fired[..n] == fired;
    }
  }

  /** In every interleaving a delayed message is put at most once, and exactly when its
      timer's turn came before any cancel; whatever is put goes to the thread it was added
      for. */
  lemma {:induction false} DelayedMessageIsPutOnce(now: nat, logics: set<LogicId>, schedule: seq<Step>, id: Id, i: nat)
    ensures var s := Run(Initial(now, logics), schedule);
            var t := s.t.t;
            && (id in t.timers && t.timers[id].kind.Once? ==>
                  PutsOf(s.puts, id)
                    == if t.timers[id].claim == T.ByTurn(true) && !(AboutToPut(s) && t.sched.tmp == id) then 1 else 0)
            && (i < |s.puts| ==> s.puts[i].1 in s.owner && s.puts[i].0 == s.owner[s.puts[i].1])
  {
    Reachable(now, logics, schedule);
    var s := Run(Initial(now, logics), schedule);
    PutsAreFirings(s, id);
    hide R.Queued, R.Watch, T.FiredInv, T.LogInv, IndexInv, T.Firings, PutsOf;
  }

  /** The event of the timer that a step of the system is, if any. */
  function Effect(s: State, step: Step): R.Event {
    match step
    case StartTimer(id, start, order) =>
      if id in s.pending && s.pending[id].Drawn? && s.pending[id].at <= start <= s.t.t.now
      then R.Push(id, TimerOf(s.pending[id], start), order)
      else R.Other(T.Tick(0))
    case StoreFlag(id) => R.Store(id)
    case NotifyTimer(id) => R.NotifyOne(id)
    case CloseTimer(id) => R.Other(if id in s.index && !Expired(s, id) then T.Cancel(id) else T.Tick(0))
    case Tick(d) => R.Other(T.Tick(d))
    case CloseScheduler => R.Other(T.Close)
    case Schedule => R.Other(T.Schedule)
    case SpuriousWake => R.Other(T.SpuriousWake)
    case Moves(order) => R.Other(if AboutToPut(s) then T.Tick(0) else T.Moves(order))
    case _ => R.Other(T.Tick(0))
  }

  lemma {:induction false} NoTick(r: R.Races)
    ensures R.Happen(r, R.Other(T.Tick(0))) == r
  {
  }

  lemma {:induction false} EffectIsExact(s: State, step: Step)
    requires Inv(s)
    ensures Do(s, step).t == R.Happen(s.t, Effect(s, step))
  {
    NoTick(s.t);
    match step
    case StartTimer(id, start, order) =>
      hide R.Sound, R.Leaves, R.Sifted;
    case _ =>
      hide R.Sound, R.Happen;
      if s.t.t.sched.Calling? {
        CallingExists(s);
      }
  }

  /** The system lets the scheduler do whatever its machine does, and time and closers what
      they do there; only between the start of a callback and its return a message is put. */
  lemma {:induction false} SchedulerActsFreely(s: State, act: T.Step)
    requires Inv(s) && !act.Add? && !act.Cancel? && (act.Moves? ==> !AboutToPut(s))
    ensures exists step :: Do(s, step).t == R.Happen(s.t, R.Other(act)) && Do(s, step).puts == s.puts
  {
    hide R.Sound, R.Happen;
    var step := match act
      case Tick(d) => Tick(d)
      case Close => CloseScheduler
      case Schedule => Schedule
      case SpuriousWake => SpuriousWake
      case Moves(order) => Moves(order);
    EffectIsExact(s, step);
    assert Do(s, step).t == R.Happen(s.t, R.Other(act)) && Do(s, step).puts == s.puts;
  }

  /** Can the timer start no callback any more, for want of a right to or because it has
      been lost? */
  predicate Silent(r: R.Races, id: Id) { TimerTheorems.Spent(r.t, id) || R.Gone(r, id) }

  lemma {:induction false} StaysSilent(s: State, schedule: seq<Step>, id: Id)
    requires Inv(s) && Silent(s.t, id)
    ensures T.Firings(Run(s, schedule).t.t.fired, id) == T.Firings(s.t.t.fired, id)
    decreases |schedule|
  {
    hide R.Sound, R.Happen, R.Gone, IndexInv, PutInv, Do, Effect, TimerTheorems.Spent, T.Firings;
    if schedule != [] {
      var e := Effect(s, schedule[0]);
      EffectIsExact(s, schedule[0]);
      if TimerTheorems.Spent(s.t.t, id) {
        R.SpentStep(s.t, e, id);
      } else {
        R.GoneStep(s.t, e, id);
      }
      DoSafe(s, schedule[0]);
      StaysSilent(Do(s, schedule[0]), schedule[1..], id);
    }
  }

  /** Closing a timer when its adding is over and its claim still free is final, even if the
      timer has been lost: a delayed message is never put, a repeated one only if its callback was already running. */
  lemma {:induction false} ClosedTimerPutsNoMore(s: State, id: Id, schedule: seq<Step>)
    requires Inv(s) && id in s.owner && id !in s.pending && s.t.t.timers[id].claim.Free?
    ensures var r := Run(Do(s, CloseTimer(id)), schedule);
            && PutsOf(r.puts, id) <= PutsOf(s.puts, id) + (if AboutToPut(s) && s.t.t.sched.tmp == id then 1 else 0)
            && (s.t.t.timers[id].kind.Once? ==> PutsOf(r.puts, id) == 0)
  {
    var s1 := Do(s, CloseTimer(id));
    ClosedIsSilent(s, id);
    DoSafe(s, CloseTimer(id));
    StaysSilent(s1, schedule, id);
    RunSafe(s1, schedule);
    PutsAreFirings(s, id);
    PutsAreFirings(Run(s1, schedule), id);
    hide R.Sound, IndexInv, PutInv, T.Firings, PutsOf;
  }

  /** Closing a timer that still exists gives its index up for good, also to those who close
      it a second time. */
  lemma {:induction false} ClosedTimerIsForgotten(s: State, id: Id, schedule: seq<Step>)
    requires Inv(s) && id in s.owner && id !in s.pending && !Expired(s, id)
    ensures var r := Run(Do(s, CloseTimer(id)), schedule);
            id !in r.index && Do(r, CloseTimer(id)) == r
  {
    hide R.Sound, R.Happen, PutInv, RecordInv;
    StaysUnrecorded(Do(s, CloseTimer(id)), schedule, id);
  }

  lemma {:induction false} StaysUnrecorded(s: State, schedule: seq<Step>, id: Id)
    requires id !in s.pending && id !in s.index && id < s.nextIndex
    ensures id !in Run(s, schedule).index
    decreases |schedule|
  {
    if schedule != [] {
      UnrecordedStep(s, schedule[0], id);
      hide Do;
      StaysUnrecorded(Do(s, schedule[0]), schedule[1..], id);
    }
  }

  lemma {:induction false} UnrecordedStep(s: State, step: Step, id: Id)
    requires id !in s.pending && id !in s.index && id < s.nextIndex
    ensures var s' := Do(s, step);
            id !in s'.pending && id !in s'.index && id < s'.nextIndex
  {
    hide R.Happen;
  }

  lemma {:induction false} ClosedIsSilent(s: State, id: Id)
    requires Inv(s) && id in s.index && s.t.t.timers[id].claim.Free?
    ensures Silent(Do(s, CloseTimer(id)).t, id) && Do(s, CloseTimer(id)).t.t.fired == s.t.t.fired
    ensures s.t.t.timers[id].kind.Once? ==> T.Firings(s.t.t.fired, id) == 0
  {
    hide R.Queued, T.FiredInv, T.LogInv, T.Firings, T.Move, R.MoveRace;
    if Expired(s, id) {
      assert R.Gone(s.t, id);
    } else {
      assert TimerTheorems.Spent(Do(s, CloseTimer(id)).t.t, id);
    }
  }

  // ---------------------------------------------------------------- what was asked for

  /** Message `k` is for `logic`, and its timer is, or is to be, the one asked for. */
  ghost predicate Asked(s: State, k: Id, logic: LogicId, at: nat, delay: nat, interval: nat, kind: T.Kind) {
    && k in s.owner && s.owner[k] == logic && k < s.nextIndex
    && (k in s.pending && s.pending[k].Drawn? ==> s.pending[k] == Drawn(at, delay, interval, kind))
    && (k in s.t.t.timers ==> s.t.t.timers[k].kind == kind && s.t.t.timers[k].last == interval)
    && (k !in s.t.t.timers ==> k in s.pending)
  }

  lemma {:induction false} AskedStep(s: State, step: Step, k: Id, logic: LogicId, at: nat, delay: nat, interval: nat, kind: T.Kind)
    requires Inv(s) && Asked(s, k, logic, at, delay, interval, kind)
    ensures Asked(Do(s, step), k, logic, at, delay, interval, kind)
    ensures k !in s.t.t.timers && k in Do(s, step).t.t.timers ==>
              var t := Do(s, step).t.t.timers[k];
              t == T.Timer(t.start, interval, delay, kind, true, T.Free) && at <= t.start <= s.t.t.now
  {
    if step.StartTimer? && step.id in s.pending && s.pending[step.id].Drawn? {
      AskedStart(s, step, k, logic, at, delay, interval, kind);
    } else {
      AskedOther(s, step, k, logic, at, delay, interval, kind);
    }
  }

  lemma {:induction false} AskedStart(s: State, step: Step, k: Id, logic: LogicId, at: nat, delay: nat, interval: nat, kind: T.Kind)
    requires Inv(s) && Asked(s, k, logic, at, delay, interval, kind)
    requires step.StartTimer? && step.id in s.pending && s.pending[step.id].Drawn?
    ensures Asked(Do(s, step), k, logic, at, delay, interval, kind)
    ensures k !in s.t.t.timers && k in Do(s, step).t.t.timers ==>
              var t := Do(s, step).t.t.timers[k];
              t == T.Timer(t.start, interval, delay, kind, true, T.Free) && at <= t.start <= s.t.t.now
  {
    var e := R.Push(step.id, TimerOf(s.pending[step.id], step.start), step.order);
    PushedAsMade(s.t, step.id, TimerOf(s.pending[step.id], step.start), step.order);
    PushShape(s.t, e);
    TimerRaceTheorems.TimersEvolve(s.t, e);
    hide R.Sound, R.Happen, PutInv, RecordInv;
  }

  lemma {:induction false} AskedOther(s: State, step: Step, k: Id, logic: LogicId, at: nat, delay: nat, interval: nat, kind: T.Kind)
    requires Inv(s) && Asked(s, k, logic, at, delay, interval, kind)
    requires !(step.StartTimer? && step.id in s.pending && s.pending[step.id].Drawn?)
    ensures Asked(Do(s, step), k, logic, at, delay, interval, kind)
    ensures k in Do(s, step).t.t.timers ==> k in s.t.t.timers
  {
    hide R.Sound, R.Happen, PutInv, RecordInv, Effect, Expired;
    EffectIsExact(s, step);
    TimerRaceTheorems.TimersEvolve(s.t, Effect(s, step));
    NoNewTimer(s, step);
    AskedBooks(s, step);
    hide Do;
  }

  /** What a step that starts no timer does to owners and pending additions. */
  lemma {:induction false} AskedBooks(s: State, step: Step)
    requires IndexInv(s) && !(step.StartTimer? && step.id in s.pending && s.pending[step.id].Drawn?)
    ensures var s' := Do(s, step);
            && s.nextIndex <= s'.nextIndex
            && (forall k | k in s.owner :: k in s'.owner && s'.owner[k] == s.owner[k])
            && (forall k | k in s.owner && k in s'.pending :: k in s.pending && s'.pending[k] == s.pending[k])
            && (forall k | k in s.pending && k !in s.t.t.timers :: k in s'.pending)
  {
    hide R.Happen;
  }

  lemma {:induction false} PushedAsMade(r: R.Races, id: Id, timer: T.Timer, order: seq<Id>)
    requires id !in r.t.timers
    ensures var timers := R.Happen(r, R.Push(id, timer, order)).t.timers;
            id in timers ==> timers[id] == timer
  {
    hide R.Leaves, R.Sifted;
  }

  lemma {:induction false} NoNewTimer(s: State, step: Step)
    requires Inv(s) && !(step.StartTimer? && step.id in s.pending && s.pending[step.id].Drawn?)
    ensures Do(s, step).t.t.timers.Keys == s.t.t.timers.Keys
  {
    EffectIsExact(s, step);
    TimerStepShape(s.t, Effect(s, step));
    hide R.Sound, R.Happen, Do;
  }

  /** No firing of its timer is due earlier than the interval after the message was added. */
  ghost predicate DueAsAsked(s: State, k: Id, at: nat, interval: nat) { TimerRaceTheorems.DueFrom(s.t.t, k, at, interval) }

  lemma {:induction false} DueStep(s: State, step: Step, k: Id, logic: LogicId, at: nat, delay: nat, interval: nat, kind: T.Kind)
    requires Inv(s) && Asked(s, k, logic, at, delay, interval, kind) && DueAsAsked(s, k, at, interval)
    ensures DueAsAsked(Do(s, step), k, at, interval)
  {
    var e := Effect(s, step);
    EffectIsExact(s, step);
    hide R.Sound, R.Happen, Do, TimerRaceTheorems.DueFrom, PutInv, RecordInv, IndexInv;
    TimerRaceTheorems.DueStep(s.t, e, k, at, interval);
  }

  lemma {:induction false} StaysAsked(s: State, schedule: seq<Step>, k: Id, logic: LogicId,
                                      at: nat, delay: nat, interval: nat, kind: T.Kind)
    requires Inv(s) && Asked(s, k, logic, at, delay, interval, kind) && DueAsAsked(s, k, at, interval)
    ensures Inv(Run(s, schedule)) && Asked(Run(s, schedule), k, logic, at, delay, interval, kind)
    ensures DueAsAsked(Run(s, schedule), k, at, interval)
    decreases |schedule|
  {
    hide Inv, Asked, DueAsAsked, Do;
    if schedule != [] {
      DoSafe(s, schedule[0]);
      DueStep(s, schedule[0], k, logic, at, delay, interval, kind);
      AskedStep(s, schedule[0], k, logic, at, delay, interval, kind);
      StaysAsked(Do(s, schedule[0]), schedule[1..], k, logic, at, delay, interval, kind);
    }
  }

  /** In every run after a delayed message has been added: it stays meant for the thread it was
      added for, its timer is a one-shot timer of the interval asked for, which starts without
      delay and with the right to run, and it is put at most once. */
  lemma {:induction false} AddedOnceAsAsked(s: State, logic: LogicId, interval: nat, schedule: seq<Step>, next: Step)
    requires Inv(s) && logic in s.logics
    ensures var k, r := s.nextIndex, Run(Do(s, AddMessage(logic, interval)), schedule);
            && k in r.owner && r.owner[k] == logic && PutsOf(r.puts, k) <= 1
            && (k in r.t.t.timers ==> r.t.t.timers[k].kind.Once? && r.t.t.timers[k].last == interval)
            && (k !in r.t.t.timers && k in Do(r, next).t.t.timers ==>
                  var t := Do(r, next).t.t.timers[k];
                  t == T.Timer(t.start, interval, 0, T.Once, true, T.Free) && s.t.t.now <= t.start <= r.t.t.now)
  {
    var k, s1 := s.nextIndex, Do(s, AddMessage(logic, interval));
    DoSafe(s, AddMessage(logic, interval));
    assert Asked(s1, k, logic, s.t.t.now, 0, interval, T.Once);
    StaysAsked(s1, schedule, k, logic, s.t.t.now, 0, interval, T.Once);
    var r := Run(s1, schedule);
    AskedStep(r, next, k, logic, s.t.t.now, 0, interval, T.Once);
    PutsAreFirings(r, k);
    OnceAtMost(r, k);
    hide Inv, Do, T.Firings, PutsOf;
  }

  lemma {:induction false} OnceAtMost(s: State, k: Id)
    requires Inv(s) && (k in s.t.t.timers ==> s.t.t.timers[k].kind.Once?)
    ensures T.Firings(s.t.t.fired, k) <= 1
  {
    hide R.Queued, R.Watch, T.FiredInv, PutInv, IndexInv, RecordInv, T.Firings;
  }

  /** Likewise a repeated message: its timer is a loop timer of the interval asked for, and
      starts with the delay asked for. */
  lemma {:induction false} AddedLoopAsAsked(s: State, logic: LogicId, delay: nat, interval: nat, schedule: seq<Step>, next: Step)
    requires Inv(s) && logic in s.logics
    ensures var k, r := s.nextIndex, Run(Do(s, AddMessageLoop(logic, delay, interval)), schedule);
            && k in r.owner && r.owner[k] == logic
            && (k in r.t.t.timers ==> r.t.t.timers[k].kind.Loop? && r.t.t.timers[k].last == interval)
            && (k !in r.t.t.timers && k in Do(r, next).t.t.timers ==>
                  var t := Do(r, next).t.t.timers[k];
                  t == T.Timer(t.start, interval, delay, T.Loop, true, T.Free) && s.t.t.now <= t.start <= r.t.t.now)
  {
    var k, s1 := s.nextIndex, Do(s, AddMessageLoop(logic, delay, interval));
    DoSafe(s, AddMessageLoop(logic, delay, interval));
    assert Asked(s1, k, logic, s.t.t.now, delay, interval, T.Loop);
    StaysAsked(s1, schedule, k, logic, s.t.t.now, delay, interval, T.Loop);
    AskedStep(Run(s1, schedule), next, k, logic, s.t.t.now, delay, interval, T.Loop);
    hide Inv, Do;
  }

  /** A message is not put before its time, counted from the moment its adding began: each
      callback of its timer is due an interval later or more, and starts no earlier unless the
      wait before it was cut short. */
  lemma {:induction false} AddedIsNotEarly(s: State, step: Step, schedule: seq<Step>, i: nat)
    requires Inv(s) && (step.AddMessage? || step.AddMessageLoop?) && step.logic in s.logics
    ensures var k, fired := s.nextIndex, Run(Do(s, step), schedule).t.t.fired;
            i < |fired| && fired[i].id == k ==>
              s.t.t.now + step.interval <= fired[i].due && (!fired[i].spurious ==> s.t.t.now + step.interval <= fired[i].time)
  {
    var k, s1 := s.nextIndex, Do(s, step);
    var delay, kind := if step.AddMessage? then 0 else step.delay, if step.AddMessage? then T.Once else T.Loop;
    DoSafe(s, step);
    assert Asked(s1, k, step.logic, s.t.t.now, delay, step.interval, kind);
    StaysAsked(s1, schedule, k, step.logic, s.t.t.now, delay, step.interval, kind);
    hide Do, Run, R.Queued, R.Watch, T.OnceInv, T.LogInv, IndexInv, PutInv, RecordInv;
  }

  lemma {:induction false} InOrderRun(s: State, schedule: seq<Step>)
    requires Inv(s) && R.InOrder(s.t)
    ensures Inv(Run(s, schedule)) && R.InOrder(Run(s, schedule).t)
    decreases |schedule|
  {
    hide R.Sound, R.InOrder, R.Happen, IndexInv, PutInv, RecordInv, Do, Effect;
    if schedule != [] {
      EffectIsExact(s, schedule[0]);
      R.HappenInOrder(s.t, Effect(s, schedule[0]));
      DoSafe(s, schedule[0]);
      InOrderRun(Do(s, schedule[0]), schedule[1..]);
    }
  }

  /** A place for a new timer in a queue that is in order. */
  lemma {:induction false} SomePlace(r: R.Races, id: Id, timer: T.Timer) returns (order: seq<Id>)
    requires R.Sound(r) && R.InOrder(r) && id !in r.t.timers && timer.claim.Free? && !R.QueueHeld(r.t.sched)
    ensures R.CanPush(r, id, timer, order)
  {
    hide R.Watch, R.Logged, T.FateInv, R.Window;
    var heap, timers := r.t.heap, r.t.timers[id := timer];
    order := if heap != [] && timers[heap[0]].Key() <= timer.Key() then heap + [id] else [id] + heap;
    assert multiset(order) == multiset(heap + [id]);
    forall x | x in order
      ensures x in timers && (r.intact ==> timers[order[0]].Key() <= timers[x].Key())
    {
      assert x in heap || x == id;
      assert x in heap ==> heap[0] in heap;
    }
  }

  /** In every run an addition can go on where it stands: a timer that is drawn can be started
      unless the scheduler holds the queue, and then be put on record, notified, and its index
      recorded. */
  lemma {:induction false} AdditionGoesOn(now: nat, logics: set<LogicId>, schedule: seq<Step>, id: Id)
    ensures var s := Run(Initial(now, logics), schedule);
            && (id in s.index ==> id in s.t.t.timers && id !in s.t.adders && id !in s.pending)
            && (id in s.pending ==>
              && (s.pending[id].Drawn? && !R.QueueHeld(s.t.t.sched) ==>
                    exists order :: id in Do(s, StartTimer(id, s.t.t.now, order)).t.adders
                                    && Do(s, StartTimer(id, s.t.t.now, order)).pending[id].Started?)
              && (s.pending[id].Started? && id in s.t.adders ==>
                    if s.t.adders[id].Pushed? then
                      Do(s, StoreFlag(id)).t.t.added && Do(s, StoreFlag(id)).t.adders == s.t.adders[id := R.Stored]
                    else Do(s, NotifyTimer(id)).t.adders == s.t.adders - {id})
              && (s.pending[id].Started? && id !in s.t.adders ==>
                    id in Do(s, RecordIndex(id)).index && id !in Do(s, RecordIndex(id)).pending))
  {
    Reachable(now, logics, []);
    assert R.InOrder(R.Start(now));
    InOrderRun(Initial(now, logics), schedule);
    var s := Run(Initial(now, logics), schedule);
    hide Run;
    hide R.InOrder, R.Sound, PutInv, Do;
    if id in s.pending {
      if s.pending[id].Started? {
        StartedGoesOn(s, id);
      } else if !R.QueueHeld(s.t.t.sched) {
        DrawnGoesOn(s, id);
      }
    }
  }

  lemma {:induction false} DrawnGoesOn(s: State, id: Id)
    requires Inv(s) && R.InOrder(s.t) && id in s.pending && s.pending[id].Drawn? && !R.QueueHeld(s.t.t.sched)
    ensures exists order :: id in Do(s, StartTimer(id, s.t.t.now, order)).t.adders
                            && Do(s, StartTimer(id, s.t.t.now, order)).pending[id].Started?
  {
    hide R.InOrder, R.Sound, PutInv, RecordInv, R.CanPush;
    var order := SomePlace(s.t, id, TimerOf(s.pending[id], s.t.t.now));
    assert id in Do(s, StartTimer(id, s.t.t.now, order)).t.adders;
  }

  lemma {:induction false} StartedGoesOn(s: State, id: Id)
    requires id in s.pending && s.pending[id].Started?
    ensures id in s.t.adders ==>
              if s.t.adders[id].Pushed? then
                Do(s, StoreFlag(id)).t.t.added && Do(s, StoreFlag(id)).t.adders == s.t.adders[id := R.Stored]
              else Do(s, NotifyTimer(id)).t.adders == s.t.adders - {id}
    ensures id !in s.t.adders ==>
              id in Do(s, RecordIndex(id)).index && id !in Do(s, RecordIndex(id)).pending
  {
  }

  /** A timer whose turn is over is still there, to be closed, until the scheduler returns from
      `timer_run`, whatever others do meanwhile. */
  lemma {:induction false} TurnKeepsTimer(s: State, order: seq<Id>, schedule: seq<Step>)
    requires Inv(s) && s.t.t.sched.PushBack? && Do(s, Moves(order)).t.t.sched.Test?
    requires forall i | 0 <= i < |schedule| :: !schedule[i].Moves?
    ensures var r, tmp := Run(Do(s, Moves(order)), schedule), s.t.t.sched.tmp;
            !Expired(r, tmp) && tmp !in Do(r, CloseTimer(tmp)).index
  {
    var s1, tmp := Do(s, Moves(order)), s.t.t.sched.tmp;
    NotHeldInTurn(s.t, order);
    assert TurnEnding(s1) && s1.kept == {tmp} by {
      hide R.MoveRace;
    }
    DoSafe(s, Moves(order));
    StaysInTurn(s1, schedule);
    CloseForgets(Run(s1, schedule), tmp);
  }

  lemma {:induction false} NotHeldInTurn(r: R.Races, order: seq<Id>)
    requires R.Sound(r) && r.t.sched.PushBack?
    ensures !r.held && (R.MoveRace(r, order).t.sched.Test? ==> R.MoveRace(r, order).held)
  {
    hide R.Queued, R.Logged, R.Watch, R.Leaves;
  }

  lemma {:induction false} StaysInTurn(s: State, schedule: seq<Step>)
    requires Inv(s) && TurnEnding(s) && forall i | 0 <= i < |schedule| :: !schedule[i].Moves?
    ensures TurnEnding(Run(s, schedule)) && Run(s, schedule).kept == s.kept
    decreases |schedule|
  {
    hide Inv;
    if schedule != [] {
      DoSafe(s, schedule[0]);
      InTurnStep(s, schedule[0]);
      hide Do;
      StaysInTurn(Do(s, schedule[0]), schedule[1..]);
    }
  }

  lemma {:induction false} InTurnStep(s: State, step: Step)
    requires Inv(s) && TurnEnding(s) && !step.Moves?
    ensures TurnEnding(Do(s, step)) && Do(s, step).kept == s.kept
  {
    EffectIsExact(s, step);
    InTurnEvent(s.t, Effect(s, step));
    hide R.Happen, R.Sound, IndexInv, PutInv, RecordInv;
  }

  lemma {:induction false} InTurnEvent(r: R.Races, e: R.Event)
    requires r.held && r.t.sched.Test? && !(e.Other? && e.step.Moves?)
    ensures R.Happen(r, e).held && R.Happen(r, e).t.sched.Test?
  {
    hide R.CanPush, T.Arranges;
  }

  // ---------------------------------------------------------------- an index that is leaked

  lemma {:induction false} LeakedStep(s: State, step: Step, id: Id)
    requires Inv(s) && id in s.index && Expired(s, id)
    ensures id in Do(s, step).index && Expired(Do(s, step), id)
  {
    hide R.Happen, R.Sound, PutInv, RecordInv;
    OverIsGone(s.t, id);
    EffectIsExact(s, step);
    R.GoneStep(s.t, Effect(s, step), id);
    TurnEndsOnce(s.t, Effect(s, step));
    hide IndexInv;
  }

  /** Only a turn of the scheduler gets it to where a turn is ending. */
  lemma {:induction false} TurnEndsOnce(r: R.Races, e: R.Event)
    requires R.Sound(r)
    ensures var r' := R.Happen(r, e);
            r'.held && r'.t.sched.Test? ==>
              (r.held && r.t.sched.Test?) || (e.Other? && e.step.Moves? && r.t.sched.PushBack?)
  {
    hide R.Queued, R.Watch, R.Logged, R.CanPush, R.Leaves, T.Arranges, T.Fire, T.Measure;
  }

  lemma {:induction false} StaysLeaked(s: State, schedule: seq<Step>, id: Id)
    requires Inv(s) && id in s.index && Expired(s, id)
    ensures id in Run(s, schedule).index
    decreases |schedule|
  {
    hide Inv, Do, Expired;
    if schedule != [] {
      DoSafe(s, schedule[0]);
      LeakedStep(s, schedule[0], id);
      StaysLeaked(Do(s, schedule[0]), schedule[1..], id);
    }
  }

  /** An index, once recorded, stays on record for good, whoever tries to close it, if and
      only if its timer is over before it is recorded. */
  lemma {:induction false} IndexIsLeakedIff(s: State, id: Id)
    requires Inv(s) && id in s.pending && s.pending[id].Started? && id !in s.t.adders
    ensures (forall schedule :: id in Run(Do(s, RecordIndex(id)), schedule).index) <==> Expired(s, id)
  {
    var r := Do(s, RecordIndex(id));
    DoSafe(s, RecordIndex(id));
    assert r.t == s.t && r.kept == s.kept && id in r.index;
    CloseForgets(r, id);
    hide Inv, Do, Run;
    if Expired(s, id) {
      forall schedule
        ensures id in Run(r, schedule).index
      {
        StaysLeaked(r, schedule, id);
      }
    } else {
      OneStep(r, CloseTimer(id));
      assert id !in Run(r, [CloseTimer(id)]).index;
    }
  }

  lemma {:induction false} CloseForgets(s: State, id: Id)
    ensures !Expired(s, id) ==> id !in Do(s, CloseTimer(id)).index
  {
    hide R.Happen;
  }

  lemma {:induction false} OverIsGone(r: R.Races, id: Id)
    requires R.Sound(r) && id in r.t.timers && TimerTheorems.Over(r.t, id)
    ensures R.Gone(r, id)
  {
    hide R.Queued, R.Logged;
  }

  lemma {:induction false} OneStep(s: State, step: Step)
    ensures Run(s, [step]) == Do(s, step)
  {
    hide Do;
    assert [step][1..] == [];
  }

  lemma {:induction false} ThreeSteps(s: State, p: seq<Step>)
    requires |p| == 3
    ensures Run(s, p) == Do(Do(Do(s, p[0]), p[1]), p[2])
  {
    hide Do;
    var s1 := Do(s, p[0]);
    var s2 := Do(s1, p[1]);
    assert Run(s1, p[1..]) == Run(s2, p[1..][1..]);
    assert Run(s2, p[1..][1..]) == Run(Do(s2, p[2]), p[1..][1..][1..]);
    assert p[1..][1..][1..] == [];
  }

  lemma {:induction false} RunAppend(s: State, p: seq<Step>, q: seq<Step>)
    ensures Run(s, p + q) == Run(Run(s, p), q)
    decreases |p|
  {
    hide Do;
    if p == [] {
      assert p + q == q;
    } else {
      assert (p + q)[1..] == p[1..] + q;
      RunAppend(Do(s, p[0]), p[1..], q);
    }
  }

  const TURN := Moves([])

  /** A delayed message whose timer has just been notified of. */
  function Announced(now: nat, logic: LogicId, interval: nat): State {
    var t := T.State(now, map[0 := T.Timer(now, interval, 0, T.Once, true, T.Free)], [0], false, true, T.Off, []);
    State(R.Races(t, map[], false, {0}, true), {logic}, 1, map[0 := Started], {}, map[0 := logic], false, [], {})
  }

  lemma {:induction false} MessageAnnounced(now: nat, logic: LogicId, interval: nat) returns (p: seq<Step>)
    ensures Run(Initial(now, {logic}), p) == Announced(now, logic, interval)
  {
    var s, timer := Initial(now, {logic}), T.Timer(now, interval, 0, T.Once, true, T.Free);
    var s1 := s.(nextIndex := 1, pending := map[0 := Drawn(now, 0, interval, T.Once)], owner := map[0 := logic]);
    var first := [AddMessage(logic, interval), StartTimer(0, now, [0]), StoreFlag(0)];
    var a := Announced(now, logic, interval);
    var s2 := a.(t := a.t.(adders := map[0 := R.Pushed], t := a.t.t.(added := false)));
    var s3 := a.(t := a.t.(adders := map[0 := R.Stored]));
    assert Do(s, first[0]) == s1 by {
      assert map[][0 := Drawn(now, 0, interval, T.Once)] == map[0 := Drawn(now, 0, interval, T.Once)];
      assert map[][0 := logic] == map[0 := logic];
    }
    FirstPush(s1.t, timer);
    assert Do(s1, first[1]) == s2 by {
      assert map[0 := Drawn(now, 0, interval, T.Once)][0 := Started] == map[0 := Started];
    }
    assert Do(s2, first[2]) == s3 by {
      assert map[0 := R.Pushed][0 := R.Stored] == map[0 := R.Stored];
    }
    ThreeSteps(s, first);
    assert Do(s3, NotifyTimer(0)) == a by {
      assert map[0 := R.Stored] - {0} == map[];
    }
    OneStep(s3, NotifyTimer(0));
    RunAppend(s, first, [NotifyTimer(0)]);
    p := first + [NotifyTimer(0)];
  }

  lemma {:induction false} FirstPush(r: R.Races, timer: T.Timer)
    requires r == R.Start(r.t.now) && timer.claim.Free?
    ensures R.Happen(r, R.Push(0, timer, [0]))
         == r.(t := r.t.(timers := map[0 := timer], heap := [0]), adders := map[0 := R.Pushed], since := {0})
  {
    assert [] + [0] == [0] && map[][0 := timer] == map[0 := timer] && map[][0 := R.Pushed] == map[0 := R.Pushed];
    assert r.since + {0} == {0};
  }

  /** The callback of the message runs as soon as its time is over. */
  lemma {:induction false} MessageRuns(now: nat, logic: LogicId, interval: nat) returns (p: seq<Step>)
    ensures var s := Run(Announced(now, logic, interval), p);
            && s.t.t.sched == T.Test && !s.t.held && s.t.t.heap == [] && s.t.adders == map[] && s.pending == map[0 := Started]
            && s.t.t.now == now + interval && s.puts == [(logic, 0)]
  {
    var s := Announced(now, logic, interval);
    var begin, turns := [Tick(interval), Schedule, TURN], [TURN, TURN, TURN];
    MessageBegins(s, begin, interval);
    var s1 := Run(s, begin);
    MessageDue(s1, turns);
    var s2 := Run(s1, turns);
    MessagePut(s2, turns);
    var s3 := Run(s2, turns);
    MessageDone(s3, turns);
    hide Run;
    RunAppend(s, begin, turns);
    RunAppend(s, begin + turns, turns);
    RunAppend(s, begin + turns + turns, turns);
    p := begin + turns + turns + turns;
  }

  lemma {:induction false} MessageBegins(s: State, p: seq<Step>, d: nat)
    requires s.t.t.sched.Off? && !s.t.held && s.t.t.heap != [] && p == [Tick(d), Schedule, TURN]
    ensures Run(s, p) == s.(t := s.t.(t := s.t.t.(now := s.t.t.now + d, run := true, sched := T.Entering)))
  {
    ThreeSteps(s, p);
  }

  /** With a due one-shot timer alone in the queue the scheduler looks at it and pops it. */
  lemma {:induction false} MessageDue(s: State, turns: seq<Step>)
    requires s.t.t.sched.Entering? && !s.t.held && s.t.t.run && s.t.intact && s.t.t.heap == [0] && turns == [TURN, TURN, TURN]
    requires 0 in s.t.t.timers && s.t.t.timers[0].delay == 0 && s.t.t.timers[0].LeftTime(s.t.t.now) <= 0
    ensures Run(s, turns) == s.(t := s.t.(since := {}, t := s.t.t.(heap := [], sched := T.Popped(0, false))))
  {
    var s1 := s.(t := s.t.(t := s.t.t.(sched := T.Ready)));
    var s2 := s.(t := s.t.(since := {}, t := s.t.t.(sched := T.Expired(0, false))));
    assert Do(s, TURN) == s1;
    assert s.t.t.timers[0 := s.t.t.timers[0].Measured()] == s.t.t.timers;
    assert Do(s1, TURN) == s2;
    assert R.Leaves(true, [], [0][1..], s.t.t.timers);
    ThreeSteps(s, turns);
  }

  /** Its callback starts, puts the message and returns. */
  lemma {:induction false} MessagePut(s: State, turns: seq<Step>)
    requires s.t.t.sched == T.Popped(0, false) && !s.t.held && !s.hasPut && turns == [TURN, TURN, TURN]
    requires 0 in s.owner && 0 in s.t.t.timers && s.t.t.timers[0].kind.Once? && s.t.t.timers[0].Runs()
    ensures var r, t := Run(s, turns), s.t.t;
            && r.puts == s.puts + [(s.owner[0], 0)] && !r.hasPut && r.pending == s.pending && !r.t.held
            && r.t.t.sched == T.Called(0) && r.t.t.heap == t.heap && r.t.t.now == t.now && r.t.adders == s.t.adders
            && 0 in r.t.t.timers && r.t.t.timers[0].kind.Once?
  {
    var s1 := s.(t := s.t.(t := T.Fire(s.t.t, 0, false)));
    assert Do(s, TURN) == s1;
    assert Do(s1, TURN) == s1.(hasPut := true, puts := s.puts + [(s.owner[0], 0)]);
    ThreeSteps(s, turns);
  }

  /** A one-shot timer is not queued again. */
  lemma {:induction false} MessageDone(s: State, turns: seq<Step>)
    requires s.t.t.sched == T.Called(0) && !s.t.held && turns == [TURN, TURN, TURN]
    requires 0 in s.t.t.timers && s.t.t.timers[0].kind.Once?
    ensures var r := Run(s, turns);
            && r.puts == s.puts && r.pending == s.pending && r.t.adders == s.t.adders
            && r.t.t.sched == T.Test && !r.t.held && r.t.t.heap == s.t.t.heap && r.t.t.now == s.t.t.now
  {
    var s1 := s.(t := s.t.(t := s.t.t.(sched := T.PushBack(0))));
    assert Do(s, TURN) == s1;
    assert Do(s1, TURN) == s.(t := s.t.(held := true, t := s.t.t.(sched := T.Test)), kept := {0});
    ThreeSteps(s, turns);
  }

  /** And so it comes to be, for every delayed message: the thread that adds it is so late to
      record the index that the message has been put before. */
  lemma {:induction false} IndexCanBeLeaked(now: nat, logic: LogicId, interval: nat)
    ensures exists schedule ::
              var s := Run(Initial(now, {logic}), schedule);
              && s.puts == [(logic, 0)] && s.t.t.now == now + interval
              && 0 in s.pending && s.pending[0].Started? && 0 !in s.t.adders && Expired(s, 0)
  {
    var p := MessageAnnounced(now, logic, interval);
    var q := MessageRuns(now, logic, interval);
    RunAppend(Initial(now, {logic}), p, q);
    hide Run;
    assert Expired(Run(Initial(now, {logic}), p + q), 0);
  }

  /** What a callback does: it puts its message, to the thread it is for, and a delayed message
      then forgets its index. */
  lemma {:induction false} CallbackPuts(s: State, order: seq<Id>)
    requires Inv(s) && s.t.t.sched.Calling?
    ensures s.t.t.sched.tmp in s.owner && s.t.t.sched.tmp in s.t.t.timers
    ensures var s', id := Do(s, Moves(order)), s.t.t.sched.tmp;
            if !s.hasPut then s'.puts == s.puts + [(s.owner[id], id)] && s'.t == s.t && s'.index == s.index && s'.hasPut
            else
              && s'.puts == s.puts && s'.t.t.sched == T.Called(id)
              && s'.index == if s.t.t.timers[id].kind.Once? then s.index - {id} else s.index
  {
    CallingExists(s);
    EffectIsExact(s, Moves(order));
    NotHeldInCall(s.t);
    hide R.Sound, IndexInv, PutInv, RecordInv;
  }

  lemma {:induction false} NotHeldInCall(r: R.Races)
    requires R.Sound(r) && r.t.sched.Calling?
    ensures !r.held && R.MoveRace(r, []).t.sched == T.Called(r.t.sched.tmp)
  {
    hide R.Queued, R.Logged, R.Watch, T.Arranges, T.Fire, T.Measure;
  }

  /** Once a close of the scheduler has taken effect nothing is put any more, whatever is
      added, closed or still under way. */
  lemma {:induction false} NothingPutAfterClose(s: State, schedule: seq<Step>)
    requires Inv(s) && s.t.t.sched.LockFree() && !s.t.t.sched.Off? && !s.t.held
    ensures Run(Do(s, CloseScheduler), schedule).puts == s.puts
  {
    DoSafe(s, CloseScheduler);
    var c := Do(s, CloseScheduler);
    assert TimerRaceTheorems.Closed(c.t) && c.puts == s.puts;
    StaysClosed(c, schedule);
  }

  lemma {:induction false} StaysClosed(s: State, schedule: seq<Step>)
    requires Inv(s) && TimerRaceTheorems.Closed(s.t)
    ensures Run(s, schedule).puts == s.puts
    decreases |schedule|
  {
    hide R.Sound, R.Happen, IndexInv, PutInv, Effect;
    if schedule != [] {
      EffectIsExact(s, schedule[0]);
      TimerRaceTheorems.ClosedStep(s.t, Effect(s, schedule[0]));
      DoSafe(s, schedule[0]);
      PutsOnlyInCallback(s, schedule[0]);
      hide Do, TimerRaceTheorems.Closed;
      StaysClosed(Do(s, schedule[0]), schedule[1..]);
    }
  }

  lemma {:induction false} PutsOnlyInCallback(s: State, step: Step)
    requires !s.t.t.sched.Calling?
    ensures Do(s, step).puts == s.puts
  {
    hide R.Happen;
  }

  /** An index returned is new: no message, timer or record has it, and no later adding
      returns it again. Adding to an unknown logic thread returns -1 and changes nothing. */
  lemma {:induction false} IndicesAreUnique(s: State, step: Step, schedule: seq<Step>)
    requires Inv(s) && (step.AddMessage? || step.AddMessageLoop?)
    ensures var k := AddedIndex(s, step.logic);
            if step.logic in s.logics then
              && k !in s.owner && k !in s.t.t.timers && k !in s.index && PutsOf(s.puts, k) == 0
              && k in Do(s, step).pending && k < Run(Do(s, step), schedule).nextIndex
            else k == -1 && Do(s, step) == s
  {
    if step.logic in s.logics {
      NotYetPut(s.puts, s.nextIndex);
      IndicesGrow(Do(s, step), schedule);
    }
  }

  lemma {:induction false} NotYetPut(puts: seq<(LogicId, Id)>, id: Id)
    requires forall i | 0 <= i < |puts| :: puts[i].1 != id
    ensures PutsOf(puts, id) == 0
  {
    if puts != [] {
      NotYetPut(puts[..|puts| - 1], id);
    }
  }

  lemma {:induction false} IndicesGrow(s: State, schedule: seq<Step>)
    ensures s.nextIndex <= Run(s, schedule).nextIndex
    decreases |schedule|
  {
    if schedule != [] {
      IndicesGrow(Do(s, schedule[0]), schedule[1..]);
    }
  }
}
