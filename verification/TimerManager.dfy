/**
  The timer manager as an object: `timer_run` in the form of its source, with whatever the
  other threads do while it waits. One call is a run of the step machine of
  TimerScheduler, so what is proved there of every run holds of it.
 */
module TimerManager {
  import opened TimerScheduler
  import opened TimerTheorems
  import opened Sequences

  datatype WhileState = Continue | Break

  /** What another thread does, or the passing of time. */
  datatype Act = AddTimer(id: Id, timer: Timer) | CancelTimer(id: Id) | CloseManager | Elapse(d: nat)

  /** The act of which a step of the machine is the effect. */
  function ActOf(step: Step): Option<Act> {
    match step
    case Add(id, timer, _) => Some(AddTimer(id, timer))
    case Cancel(id) => Some(CancelTimer(id))
    case Close => Some(CloseManager)
    case Tick(d) => Some(Elapse(d))
    case _ => None
  }

  /** What others do in a run, in order. */
  function Foreign(trace: seq<Step>): seq<Act> {
    if trace == [] then []
    else (if ActOf(trace[0]).Some? then [ActOf(trace[0]).value] else []) + Foreign(trace[1..])
  }

  lemma {:induction false} ForeignAppend(p: seq<Step>, q: seq<Step>)
    ensures Foreign(p + q) == Foreign(p) + Foreign(q)
    decreases |p|
  {
    hide ActOf;
    if p == [] {
      assert p + q == q;
    } else {
      assert (p + q)[0] == p[0] && (p + q)[1..] == p[1..] + q;
      ForeignAppend(p[1..], q);
      var first := if ActOf(p[0]).Some? then [ActOf(p[0]).value] else [];
      assert Foreign(p) == first + Foreign(p[1..]) && Foreign(p + q) == first + Foreign(p[1..] + q);
      assert first + (Foreign(p[1..]) + Foreign(q)) == first + Foreign(p[1..]) + Foreign(q);
    }
  }

  /** A run is made of the scheduler's own moves and what others do, and nothing else. */
  predicate MovesAndActs(trace: seq<Step>) {
    forall i | 0 <= i < |trace| :: trace[i].Moves? || ActOf(trace[i]).Some?
  }

  /** A run from `s` to `s'` within one call of `timer_run`, in which others do exactly these
      acts, in this order. */
  ghost predicate CallRuns(s: State, trace: seq<Step>, s': State, acts: seq<Act>) {
    Run(s, trace) == s' && Begun(s, trace) == 0 && MovesAndActs(trace) && Foreign(trace) == acts
  }

  lemma {:induction false} CallNothing(s: State)
    ensures CallRuns(s, [], s, [])
  {
  }

  lemma {:induction false} CallJoin(s: State, p: seq<Step>, s1: State, q: seq<Step>, s2: State,
                                    first: seq<Act>, second: seq<Act>)
    requires CallRuns(s, p, s1, first) && CallRuns(s1, q, s2, second)
    ensures CallRuns(s, p + q, s2, first + second)
  {
    hide Run, Begun, Foreign;
    RunAppend(s, p, q);
    BegunAppend(s, p, q);
    ForeignAppend(p, q);
  }

  /** A move of the scheduler; only one from the loop test would begin another call. */
  lemma {:induction false} CallMove(s: State, order: seq<Id>)
    requires !s.sched.Test?
    ensures CallRuns(s, [Moves(order)], Do(s, Moves(order)), [])
  {
    hide Do;
    var trace := [Moves(order)];
    OneStep(s, Moves(order));
    assert trace[1..] == [];
    assert Begun(Do(s, trace[0]), trace[1..]) == 0 && Foreign(trace[1..]) == [];
    assert !Begins(s, trace[0]);
  }

  lemma {:induction false} CallAct(s: State, step: Step)
    requires ActOf(step).Some?
    ensures CallRuns(s, [step], Do(s, step), [ActOf(step).value])
  {
    var trace := [step];
    OneStep(s, step);
    assert trace[1..] == [];
    assert Begun(Do(s, trace[0]), trace[1..]) == 0 && Foreign(trace[1..]) == [];
    assert !Begins(s, trace[0]) by { ActsBeginNothing(s, step); }
  }

  lemma {:induction false} ActsBeginNothing(s: State, step: Step)
    requires ActOf(step).Some?
    ensures !Begins(s, step)
  {
    hide Arranges, Move;
  }

  lemma {:induction false} CallThenMove(s: State, trace: seq<Step>, s1: State, acts: seq<Act>, order: seq<Id>)
    requires CallRuns(s, trace, s1, acts) && !s1.sched.Test?
    ensures CallRuns(s, trace + [Moves(order)], Do(s1, Moves(order)), acts)
  {
    hide Do, CallRuns;
    CallMove(s1, order);
    CallJoin(s, trace, s1, [Moves(order)], Do(s1, Moves(order)), acts, []);
    assert acts + [] == acts;
  }

  lemma {:induction false} CallThenAct(s: State, trace: seq<Step>, s1: State, acts: seq<Act>, step: Step)
    requires CallRuns(s, trace, s1, acts) && ActOf(step).Some?
    ensures CallRuns(s, trace + [step], Do(s1, step), acts + [ActOf(step).value])
  {
    hide Do, CallRuns, ActOf;
    CallAct(s1, step);
    CallJoin(s, trace, s1, [step], Do(s1, step), acts, [ActOf(step).value]);
  }

  /** What others do during the two waits of one round, and how long a callback takes. */
  datatype Round = Round(first: seq<Act>, second: seq<Act>, callbackTime: nat)

  /** What happens during a wait: the first `k` acts of others, and then time passes until the
      wait is over. */
  datatype Waiting = Waiting(k: nat, rest: seq<Act>) {
    function Acts(others: seq<Act>): seq<Act>
      requires k <= |others|
    {
      others[..k] + rest
    }
  }

  /** A wait takes in what others do until one of their acts ends it, which a cancel does not;
      when they have done everything it ends with the passing of time. */
  predicate Ends(w: Waiting, others: seq<Act>) {
    && w.k <= |others|
    && if w.rest == [] then w.k > 0 && !others[w.k - 1].CancelTimer?
       else w.k == |others| && |w.rest| == 1 && w.rest[0].Elapse?
  }

  const NO_WAIT := Waiting(0, [])

  /** What happens during one call of `timer_run`: in its two waits, and as its callback's
      time. After `ready` steps it has done with the first wait. */
  datatype Going = Going(first: Waiting, ready: nat, second: Waiting, call: seq<Act>)

  function GoingActs(round: Round, g: Going): seq<Act>
    requires g.first.k <= |round.first| && g.second.k <= |round.second|
  {
    g.first.Acts(round.first) + g.second.Acts(round.second) + g.call
  }

  /** A call waits first if and only if the queue is empty, and again if and only if the top it
      finds has time left; it takes in what others do in those waits, and the time of a
      callback if it runs one. */
  ghost predicate CallGoes(s: State, trace: seq<Step>, s': State, round: Round, g: Going) {
    && g.first.k <= |round.first| && g.second.k <= |round.second|
    && CallRuns(s, trace, s', GoingActs(round, g))
    && (if s.heap == [] then Ends(g.first, round.first) else g.first == NO_WAIT)
    && g.ready <= |trace|
    && (var r := Run(s, trace[..g.ready]);
        && r.sched.Ready?
        && if Measure(r).sched.Measured? then Ends(g.second, round.second) else g.second == NO_WAIT)
    && g.call == if |s'.fired| > |s.fired| then [Elapse(round.callbackTime)] else []
  }

  /** What the priority queue does: leaves its content with a least key on top. */
  method Arrange(content: seq<Id>, timers: map<Id, Timer>) returns (order: seq<Id>)
    requires forall id | id in content :: id in timers
    ensures Arranges(order, content, timers)
    decreases |content|
  {
    if content == [] {
      order := [];
    } else {
      var n := |content| - 1;
      var last := content[n];
      assert content == content[..n] + [last];
      var rest := Arrange(content[..n], timers);
      assert forall id :: id in rest <==> id in multiset(rest);
      if rest != [] && timers[rest[0]].Key() <= timers[last].Key() {
        order := rest + [last];
      } else {
        order := [last] + rest;
      }
    }
  }

  class TimerMgr {
    var now: nat
    var timers: map<Id, Timer>
    var mTimers: seq<Id>
    var timerRun: bool
    var added: bool
    ghost var fired: seq<Firing>

    /** The state of the step machine with the scheduler at `c`. */
    ghost function View(c: Scheduler): State
      reads this
    {
      State(now, timers, mTimers, timerRun, added, c, fired)
    }

    constructor (now: nat)
      ensures View(Off) == Initial(now)
    {
      this.now := now;
      timers, mTimers := map[], [];
      timerRun, added := false, false;
      fired := [];
    }

    /** Every queued timer is known. */
    ghost predicate Known()
      reads this
    {
      forall id | id in mTimers :: id in timers
    }

    /** Queues a timer and wakes the scheduler; a timer known already is not added again. */
    method Add(id: Id, timer: Timer) returns (added: bool, ghost step: Step)
      requires Known()
      modifies this
      ensures Known()
      ensures added <==> id !in old(timers) && !timer.claim.ByTurn?
      ensures step.Add? && ActOf(step) == Some(AddTimer(id, timer)) && fired == old(fired) && now == old(now)
      ensures forall c: Scheduler | c.LockFree() :: Do(old(View(c)), step) == View(if added then Notify(c) else c)
      ensures added ==> this.added
    {
      added, step := false, Step.Add(id, timer, []);
      if id !in timers && !timer.claim.ByTurn? {
        var grown := timers[id := timer];
        var order := Arrange(mTimers + [id], grown);
        step := Step.Add(id, timer, order);
        timers, mTimers, this.added := grown, order, true;
        added := true;
      }
    }

    /** Uses up the timer's once-flag, if it is not used up, and takes its callback. */
    method Cancel(id: Id)
      requires Known()
      modifies this`timers
      ensures Known()
      ensures forall c: Scheduler :: Do(old(View(c)), Step.Cancel(id)) == View(c)
    {
      if id in timers {
        timers := timers[id := timers[id].Cancelled()];
      }
    }

    /** Tells the scheduler to stop and wakes it. */
    method Close()
      modifies this`timerRun, this`added
      ensures forall c: Scheduler | c.LockFree() :: Do(old(View(c)), Step.Close) == View(Notify(c))
      ensures added
    {
      timerRun := false;
      added := true;
    }

    /** One act of another thread, while the lock is free. */
    method Other(act: Act) returns (notifies: bool, ghost step: Step)
      requires Known()
      modifies this
      ensures Known()
      ensures forall c: Scheduler | c.LockFree() :: Do(old(View(c)), step) == View(if notifies then Notify(c) else c)
      ensures ActOf(step) == Some(act) && fired == old(fired)
      ensures notifies ==> added && (act.AddTimer? || act.CloseManager?)
      ensures now == old(now) || act.Elapse?
    {
      notifies := false;
      match act
      case Elapse(d) =>
        now := now + d;
        step := Tick(d);
      case AddTimer(id, timer) => notifies, step := Add(id, timer);
      case CancelTimer(id) =>
        Cancel(id);
        step := Step.Cancel(id);
      case CloseManager =>
        Close();
        notifies, step := true, Step.Close;
    }

    /** `cv.wait_for`: others run until one of them notifies or the time is over; when they
        have nothing more to do, time passes until it is. */
    method WaitFor(c: Scheduler, others: seq<Act>) returns (notified: bool, ghost trace: seq<Step>, ghost w: Waiting)
      requires c.Waits() && !c.notified && Known()
      modifies this
      ensures Known() && fired == old(fired)
      ensures w.k <= |others|
      ensures CallRuns(old(View(c)), trace, View(if notified then Notify(c) else c), w.Acts(others))
      ensures notified || now >= c.deadline
      ensures if old(now) < c.deadline then Ends(w, others) else w == NO_WAIT
    {
      hide CallRuns, Do, ActOf;
      var i := 0;
      notified, trace := false, [];
      CallNothing(View(c));
      ghost var step;
      while !notified && now < c.deadline && i < |others|
        invariant 0 <= i <= |others| && Known() && fired == old(fired)
        invariant CallRuns(old(View(c)), trace, View(if notified then Notify(c) else c), others[..i])
        invariant i == 0 ==> !notified && now == old(now)
        invariant i > 0 ==> old(now) < c.deadline && (notified || now >= c.deadline ==> !others[i - 1].CancelTimer?)
        decreases |others| - i
      {
        ghost var s := View(c);
        notified, step := Other(others[i]);
        CallThenAct(old(View(c)), trace, s, others[..i], step);
        trace := trace + [step];
        i := i + 1;
        assert others[..i - 1] + [others[i - 1]] == others[..i];
      }
      w := Waiting(i, []);
      assert others[..i] + [] == others[..i];
      if !notified && now < c.deadline {
        ghost var s, d := View(c), c.deadline - now;
        now := c.deadline;
        TickIs(s, d);
        CallThenAct(old(View(c)), trace, s, others[..i], Tick(d));
        trace := trace + [Tick(d)];
        w := Waiting(i, [Elapse(d)]);
      }
    }

    /** `timer_run` up to holding `mtx` with something to look at, or after a while. */
    method EnterAndWait(others: seq<Act>) returns (ghost trace: seq<Step>, ghost w: Waiting)
      requires Known()
      modifies this
      ensures w.k <= |others| && fired == old(fired)
      ensures CallRuns(old(View(Entering)), trace, View(Ready), w.Acts(others))
      ensures if old(mTimers) == [] then Ends(w, others) else w == NO_WAIT
    {
      hide CallRuns, Arranges, Measure, EndWait, Fire;
      ghost var s := View(Entering);
      CallMove(s, []);
      trace, w := [Moves([])], NO_WAIT;
      if mTimers == [] {
        var c := IdleWait(now + DEFAULT_WAIT, false);
        ghost var waiting := View(c);
        assert waiting == Do(s, Moves([]));
        var notified;
        ghost var more;
        notified, more, w := WaitFor(c, others);
        ghost var over := View(if notified then Notify(c) else c);
        CallJoin(s, trace, waiting, more, over, [], w.Acts(others));
        assert [] + w.Acts(others) == w.Acts(others);
        CallThenMove(s, trace + more, over, w.Acts(others), []);
        trace := trace + more + [Moves([])];
      } else {
        assert others[..0] + [] == [];
      }
    }

    /** The top timer and the time it has left; reading that uses up its delay. */
    method MeasureTop() returns (next: Scheduler)
      requires Inv(View(Ready))
      modifies this
      ensures View(next) == Measure(old(View(Ready)))
      ensures next.Exited? || next.Test? || next.Measured? || (next.Expired? && !next.spurious)
      ensures next.Measured? ==> next.left > 0
      ensures fired == old(fired)
    {
      if !timerRun {
        return Exited;
      }
      if mTimers == [] {
        return Test;
      }
      var tmp := mTimers[0];
      var timerWait := timers[tmp].LeftTime(now);
      timers := timers[tmp := timers[tmp].Measured()];
      if timerWait > 0 {
        next := Measured(tmp, timerWait);
      } else {
        next := Expired(tmp, false);
      }
    }

    /** The timed wait; an addition on record sends `timer_run` back to start over. */
    method WaitForTop(tmp: Id, left: nat, others: seq<Act>)
      returns (next: Scheduler, ghost trace: seq<Step>, ghost w: Waiting)
      requires Known()
      modifies this
      ensures w.k <= |others| && fired == old(fired)
      ensures CallRuns(old(View(Measured(tmp, left))), trace, View(next), w.Acts(others))
      ensures next == if added then Test else Expired(tmp, false)
      ensures left > 0 ==> Ends(w, others)
    {
      hide CallRuns, Arranges, Measure, Fire;
      ghost var s := View(Measured(tmp, left));
      CallMove(s, []);
      trace := [Moves([])];
      var c := TimedWait(tmp, now + left, false);
      ghost var waiting := View(c);
      assert waiting == Do(s, Moves([]));
      var notified;
      ghost var more;
      notified, more, w := WaitFor(c, others);
      ghost var over := View(if notified then Notify(c) else c);
      CallJoin(s, trace, waiting, more, over, [], w.Acts(others));
      assert [] + w.Acts(others) == w.Acts(others);
      CallThenMove(s, trace + more, over, w.Acts(others), []);
      trace := trace + more + [Moves([])];
      next := if added then Test else Expired(tmp, false);
    }

    /** The callback's time. */
    method PassTime(tmp: Id, d: nat) returns (ghost trace: seq<Step>)
      modifies this`now
      ensures CallRuns(old(View(Calling(tmp))), trace, View(Called(tmp)), [Elapse(d)])
    {
      hide CallRuns;
      ghost var s := View(Calling(tmp));
      now := now + d;
      CallAct(s, Tick(d));
      assert Do(s, Tick(d)) == View(Calling(tmp));
      CallThenMove(s, [Tick(d)], View(Calling(tmp)), [Elapse(d)], []);
      trace := [Tick(d)] + [Moves([])];
    }

    /** `Timer::operator()` up to the end of its callback: a one-shot timer gives up its
        callback before running it. The callback takes its time. */
    method RunCallback(tmp: Id, callbackTime: nat) returns (ghost trace: seq<Step>)
      requires tmp in timers
      modifies this
      ensures CallRuns(old(View(Popped(tmp, false))), trace, View(Called(tmp)),
                       if old(timers[tmp].Runs()) then [Elapse(callbackTime)] else [])
      ensures |fired| == |old(fired)| + if old(timers[tmp].Runs()) then 1 else 0
      ensures tmp in timers && mTimers == old(mTimers) && timers.Keys == old(timers).Keys
    {
      hide Arranges, Measure, EndWait, CallRuns;
      ghost var s := View(Popped(tmp, false));
      CallMove(s, []);
      trace := [Moves([])];
      var t := timers[tmp];
      var callback := t.callback && (t.kind.Loop? || t.claim.Free?);
      if t.kind.Once? && t.claim.Free? {
        timers := timers[tmp := t.(claim := ByTurn(t.callback), callback := false)];
      } else {
        assert timers == timers[tmp := t];
      }
      if callback {
        fired := fired + [Firing(tmp, now, t.Key(), false)];
        ghost var calling := View(Calling(tmp));
        assert calling == Do(s, Moves([]));
        ghost var more := PassTime(tmp, callbackTime);
        CallJoin(s, trace, calling, more, View(Called(tmp)), [], [Elapse(callbackTime)]);
        assert [] + [Elapse(callbackTime)] == [Elapse(callbackTime)];
        trace := trace + more;
      }
    }

    /** `Timer::operator()`: a loop timer keeps its callback and starts anew when it is done. */
    method Call(tmp: Id, callbackTime: nat) returns (ghost trace: seq<Step>)
      requires tmp in timers
      modifies this
      ensures CallRuns(old(View(Popped(tmp, false))), trace, View(PushBack(tmp)),
                       if old(timers[tmp].Runs()) then [Elapse(callbackTime)] else [])
      ensures |fired| == |old(fired)| + if old(timers[tmp].Runs()) then 1 else 0
      ensures tmp in timers && mTimers == old(mTimers) && timers.Keys == old(timers).Keys
    {
      hide Arranges, Measure, EndWait, Fire, CallRuns;
      ghost var s, acts := View(Popped(tmp, false)), if timers[tmp].Runs() then [Elapse(callbackTime)] else [];
      trace := RunCallback(tmp, callbackTime);
      ghost var called := View(Called(tmp));
      if timers[tmp].kind.Loop? {
        timers := timers[tmp := timers[tmp].(start := now)];
      }
      CallThenMove(s, trace, called, acts, []);
      trace := trace + [Moves([])];
    }

    /** A loop timer that still has its callback goes back into the queue. */
    method Requeue(tmp: Id) returns (ghost trace: seq<Step>)
      requires tmp in timers && Known()
      modifies this
      ensures CallRuns(old(View(PushBack(tmp))), trace, View(Test), []) && fired == old(fired)
    {
      hide CallRuns, Fire, Measure, EndWait;
      ghost var s := View(PushBack(tmp));
      var order := [];
      if timers[tmp].kind.Loop? && timers[tmp].callback {
        order := Arrange(mTimers + [tmp], timers);
        mTimers := order;
      }
      added := false;
      CallMove(s, order);
      trace := [Moves(order)];
    }

    /** Pops the top timer, runs it and queues a loop again. */
    method RunTop(tmp: Id, callbackTime: nat) returns (result: WhileState, ghost trace: seq<Step>)
      requires Inv(View(Expired(tmp, false)))
      modifies this
      ensures CallRuns(old(View(Expired(tmp, false))), trace, View(if result.Break? then Exited else Test),
                       if |fired| > |old(fired)| then [Elapse(callbackTime)] else [])
    {
      hide FateInv, FiredInv, OnceInv, LogInv, CallRuns;
      ghost var s := View(Expired(tmp, false));
      if !timerRun {
        CallMove(s, []);
        return Break, [Moves([])];
      }
      var order := Arrange(mTimers[1..], timers);
      mTimers := order;
      CallMove(s, order);
      DoSafe(s, Moves(order));
      ghost var popped, acts := View(Popped(tmp, false)), if timers[tmp].Runs() then [Elapse(callbackTime)] else [];
      assert popped == Do(s, Moves(order));
      ghost var call := Call(tmp, callbackTime);
      ghost var called := View(PushBack(tmp));
      ghost var requeue := Requeue(tmp);
      CallJoin(s, [Moves(order)], popped, call, called, [], acts);
      CallJoin(s, [Moves(order)] + call, called, requeue, View(Test), [] + acts, []);
      assert [] + acts + [] == acts;
      return Continue, [Moves(order)] + call + requeue;
    }

    /** The rest of a call, when the top has been measured: the timed wait if it has time left,
        and its turn unless the wait or the flag sends the scheduler away. */
    method WaitAndRun(measured: Scheduler, second: seq<Act>, callbackTime: nat)
      returns (result: WhileState, ghost trace: seq<Step>, ghost w: Waiting, ghost call: seq<Act>)
      requires Inv(View(measured))
      requires measured.Exited? || measured.Test? || (measured.Measured? && measured.left > 0)
               || (measured.Expired? && !measured.spurious)
      modifies this
      ensures w.k <= |second|
      ensures CallRuns(old(View(measured)), trace, View(if result.Break? then Exited else Test), w.Acts(second) + call)
      ensures if measured.Measured? then Ends(w, second) else w == NO_WAIT
      ensures call == if |fired| > |old(fired)| then [Elapse(callbackTime)] else []
      ensures Inv(View(if result.Break? then Exited else Test))
    {
      hide CallRuns, Ends, Inv, Do, Measure;
      ghost var s := View(measured);
      trace, w, call := [], NO_WAIT, [];
      CallNothing(s);
      assert NO_WAIT.Acts(second) == [];
      var next := measured;
      if next.Measured? {
        QueuedAreKnown(s);
        next, trace, w := WaitForTop(next.tmp, next.left, second);
      }
      CallSafe(s, trace, View(next), w.Acts(second));
      result := if next.Exited? then Break else Continue;
      assert w.Acts(second) + [] == w.Acts(second);
      if next.Expired? {
        ghost var more, expired := [], View(next);
        result, more := RunTop(next.tmp, callbackTime);
        call := if |fired| > |expired.fired| then [Elapse(callbackTime)] else [];
        CallJoin(s, trace, expired, more, View(if result.Break? then Exited else Test), w.Acts(second), call);
        trace := trace + more;
        CallSafe(s, trace, View(if result.Break? then Exited else Test), w.Acts(second) + call);
      }
    }

    /** One call of `timer_run`, with what others do during its two waits. */
    method TimerRun(first: seq<Act>, second: seq<Act>, callbackTime: nat)
      returns (result: WhileState, ghost trace: seq<Step>, ghost g: Going)
      requires Inv(View(Entering))
      modifies this
      ensures CallGoes(old(View(Entering)), trace, View(if result.Break? then Exited else Test),
                       Round(first, second, callbackTime), g)
      ensures Inv(View(if result.Break? then Exited else Test))
    {
      hide CallRuns, CallGoes, Ends, Inv, Do, Measure;
      ghost var s, round := View(Entering), Round(first, second, callbackTime);
      QueuedAreKnown(s);
      ghost var w1;
      trace, w1 := EnterAndWait(first);
      ghost var ready, enter, acts := View(Ready), trace, w1.Acts(first);
      CallSafe(s, trace, ready, acts);
      var next := MeasureTop();
      MeasureMove(ready);
      ghost var measured := View(next);
      CallThenMove(s, trace, ready, acts, []);
      trace := trace + [Moves([])];
      CallSafe(s, trace, measured, acts);
      ghost var more, w2, call;
      result, more, w2, call := WaitAndRun(next, second, callbackTime);
      ghost var over := View(if result.Break? then Exited else Test);
      CallJoin(s, trace, measured, more, over, acts, w2.Acts(second) + call);
      assert acts + (w2.Acts(second) + call) == acts + w2.Acts(second) + call;
      trace := trace + more;
      g := Going(w1, |enter|, w2, call);
      assert trace[..|enter|] == enter;
      CallIsGoing(s, enter, ready, trace, over, round, g);
    }

    /** The loop of the scheduler thread, for as many rounds as are given: unless it ends
        before, it calls `timer_run` once for each of them, and what others do in a round
        happens in the waits of its call. */
    method RunSchedule(rounds: seq<Round>) returns (ended: bool, ghost trace: seq<Step>, ghost calls: seq<CallRecord>)
      requires Inv(View(Off))
      modifies this
      ensures View(if ended then Exited else Test) == Run(old(View(Off)), trace)
      ensures Inv(View(if ended then Exited else Test))
      ensures Begun(old(View(Off)), trace) == |calls| <= |rounds|
      ensures var started := old(View(Off)).(run := true, sched := Test);
              var r := Run(started, Joined(calls));
              && RoundsGo(started, rounds, calls, r)
              && if !ended then r == View(Test) && r.run && |calls| == |rounds|
                 else r == View(Exited) || (r == View(Test) && !r.run)
    {
      hide Inv, CallGoes, LoopRuns, RoundsGo, Joined, Do, Run, Begun;
      ghost var s := View(Off);
      timerRun := true;
      ghost var started := View(Test);
      calls := [];
      LoopStarts(s, rounds);
      var i := 0;
      while timerRun && i < |rounds|
        invariant 0 <= i <= |rounds| && |calls| == i
        invariant LoopRuns(started, rounds, calls, View(Test)) && Inv(View(Test))
      {
        ghost var test := View(Test);
        TestPassed(test);
        var result;
        ghost var more, g;
        result, more, g := TimerRun(rounds[i].first, rounds[i].second, rounds[i].callbackTime);
        ghost var reached := View(if result.Break? then Exited else Test);
        assert Round(rounds[i].first, rounds[i].second, rounds[i].callbackTime) == rounds[i];
        LoopMore(started, rounds, calls, test, CallRecord(more, g), reached);
        calls := calls + [CallRecord(more, g)];
        i := i + 1;
        if result == Break {
          trace := LoopMeans(s, rounds, calls, reached);
          return true, trace, calls;
        }
      }
      ended := !timerRun;
      trace := LoopMeans(s, rounds, calls, View(Test));
      if ended {
        TestFailed(View(Test), s, trace);
        trace := trace + [Moves([])];
      }
    }
  }

  // ---------------------------------------------------------------- lemmas

  lemma {:induction false} CallIsGoing(s: State, enter: seq<Step>, ready: State, trace: seq<Step>, s': State,
                                       round: Round, g: Going)
    requires g.first.k <= |round.first| && g.second.k <= |round.second| && g.ready == |enter|
    requires CallRuns(s, trace, s', GoingActs(round, g))
    requires if s.heap == [] then Ends(g.first, round.first) else g.first == NO_WAIT
    requires |enter| <= |trace| && trace[..|enter|] == enter && Run(s, enter) == ready && ready.sched.Ready?
    requires if Measure(ready).sched.Measured? then Ends(g.second, round.second) else g.second == NO_WAIT
    requires g.call == if |s'.fired| > |s.fired| then [Elapse(round.callbackTime)] else []
    ensures CallGoes(s, trace, s', round, g)
  {
  }

  /** One call of `timer_run`: its steps, and what happened in it. */
  datatype CallRecord = CallRecord(trace: seq<Step>, going: Going)

  /** The steps of successive calls, each begun from the loop test. */
  function Joined(calls: seq<CallRecord>): seq<Step> {
    if calls == [] then [] else [Moves([])] + calls[0].trace + Joined(calls[1..])
  }

  /** From loop test to loop test, or to the exit, each call goes with its round. */
  ghost predicate RoundsGo(s: State, rounds: seq<Round>, calls: seq<CallRecord>, s': State)
    decreases |calls|
  {
    if calls == [] then s == s'
    else
      && |calls| <= |rounds| && s.sched.Test? && s.run
      && var entered := s.(sched := Entering);
         var next := Run(entered, calls[0].trace);
         CallGoes(entered, calls[0].trace, next, rounds[0], calls[0].going) && RoundsGo(next, rounds[1..], calls[1..], s')
  }

  /** The loop has gone from `s` to `s'` by these calls. */
  ghost predicate LoopRuns(s: State, rounds: seq<Round>, calls: seq<CallRecord>, s': State) {
    && RoundsGo(s, rounds, calls, s') && Run(s, Joined(calls)) == s' && Begun(s, Joined(calls)) == |calls|
  }

  lemma {:induction false} LoopStarts(s: State, rounds: seq<Round>)
    requires Inv(s) && s.sched.Off?
    ensures var started := s.(run := true, sched := Test);
            LoopRuns(started, rounds, [], started) && Inv(started)
  {
    hide Inv;
    DoSafe(s, Schedule);
  }

  lemma {:induction false} TestPassed(s: State)
    requires Inv(s) && s.sched.Test? && s.run
    ensures Inv(s.(sched := Entering))
  {
    hide Inv;
    DoSafe(s, Moves([]));
  }

  lemma {:induction false} TestFailed(s: State, start: State, trace: seq<Step>)
    requires Inv(s) && s.sched.Test? && !s.run && Run(start, trace) == s
    ensures Inv(s.(sched := Exited))
    ensures Run(start, trace + [Moves([])]) == s.(sched := Exited)
    ensures Begun(start, trace + [Moves([])]) == Begun(start, trace)
  {
    hide Inv, Arranges, Fire, Measure, EndWait;
    DoSafe(s, Moves([]));
    var step := [Moves([])];
    assert step[1..] == [];
    assert Run(s, step) == s.(sched := Exited) && Begun(s, step) == 0;
    hide Run, Begun;
    RunAppend(start, trace, step);
    BegunAppend(start, trace, step);
  }

  lemma {:induction false} RoundsMore(s: State, rounds: seq<Round>, calls: seq<CallRecord>, test: State,
                                      c: CallRecord, reached: State)
    requires RoundsGo(s, rounds, calls, test) && |calls| < |rounds| && test.sched.Test? && test.run
    requires CallGoes(test.(sched := Entering), c.trace, reached, rounds[|calls|], c.going)
    ensures RoundsGo(s, rounds, calls + [c], reached)
    ensures Joined(calls + [c]) == Joined(calls) + ([Moves([])] + c.trace)
    decreases |calls|
  {
    hide Run, CallGoes;
    var all := calls + [c];
    if calls == [] {
      assert all[0] == c && all[1..] == [];
      CallEnds(test.(sched := Entering), c.trace, reached, rounds[0], c.going);
      assert RoundsGo(reached, rounds[1..], all[1..], reached);
      assert Joined(all[1..]) == [];
      assert [Moves([])] + c.trace + [] == [] + ([Moves([])] + c.trace);
    } else {
      var next := Run(s.(sched := Entering), calls[0].trace);
      RoundsMore(next, rounds[1..], calls[1..], test, c, reached);
      assert all[1..] == calls[1..] + [c] && all[0] == calls[0];
      var first, last := [Moves([])] + calls[0].trace, [Moves([])] + c.trace;
      assert Joined(all) == first + Joined(all[1..]);
      assert first + Joined(calls[1..]) + last == first + (Joined(calls[1..]) + last);
    }
  }

  lemma {:induction false} CallEnds(s: State, trace: seq<Step>, s': State, round: Round, g: Going)
    requires CallGoes(s, trace, s', round, g)
    ensures Run(s, trace) == s' && Begun(s, trace) == 0
  {
    hide Run, Begun;
  }

  lemma {:induction false} LoopMore(s: State, rounds: seq<Round>, calls: seq<CallRecord>, test: State,
                                    c: CallRecord, reached: State)
    requires LoopRuns(s, rounds, calls, test) && |calls| < |rounds| && test.sched.Test? && test.run
    requires CallGoes(test.(sched := Entering), c.trace, reached, rounds[|calls|], c.going)
    ensures LoopRuns(s, rounds, calls + [c], reached)
  {
    hide Arranges, Fire, Measure, EndWait, RoundsGo, Joined, CallGoes;
    RoundsMore(s, rounds, calls, test, c, reached);
    CallEnds(test.(sched := Entering), c.trace, reached, rounds[|calls|], c.going);
    var step := [Moves([])];
    assert step[1..] == [];
    assert Run(test, step) == test.(sched := Entering) && Begun(test, step) == 1;
    hide Run, Begun;
    RunAppend(test, step, c.trace);
    BegunAppend(test, step, c.trace);
    RunAppend(s, Joined(calls), step + c.trace);
    BegunAppend(s, Joined(calls), step + c.trace);
  }

  /** In terms of the whole run, from before the flag is set. */
  lemma {:induction false} LoopMeans(s: State, rounds: seq<Round>, calls: seq<CallRecord>, s': State)
    returns (trace: seq<Step>)
    requires s.sched.Off? && LoopRuns(s.(run := true, sched := Test), rounds, calls, s')
    ensures Run(s, trace) == s' && Begun(s, trace) == |calls|
    ensures var started := s.(run := true, sched := Test);
            Run(started, Joined(calls)) == s' && RoundsGo(started, rounds, calls, s')
  {
    hide RoundsGo, Joined, Arranges;
    var first := [Schedule];
    assert first[1..] == [];
    assert Run(s, first) == s.(run := true, sched := Test) && Begun(s, first) == 0;
    RunAppend(s, first, Joined(calls));
    BegunAppend(s, first, Joined(calls));
    trace := first + Joined(calls);
  }

  lemma {:induction false} QueuedAreKnown(s: State)
    requires Inv(s)
    ensures forall id | id in s.heap :: id in s.timers
  {
  }

  lemma {:induction false} TickIs(s: State, d: nat)
    ensures Do(s, Tick(d)) == s.(now := s.now + d) && ActOf(Tick(d)) == Some(Elapse(d))
  {
  }

  lemma {:induction false} MeasureMove(s: State)
    requires s.sched.Ready?
    ensures Do(s, Moves([])) == Measure(s)
  {
    hide Measure;
  }

  lemma {:induction false} CallSafe(s: State, trace: seq<Step>, s': State, acts: seq<Act>)
    requires CallRuns(s, trace, s', acts) && Inv(s)
    ensures Inv(s') && Run(s, trace) == s'
  {
    hide Inv, Run, Begun, Foreign;
    RunSafe(s, trace);
  }
}
