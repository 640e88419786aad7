/**
  The condition-variable queue with any number of pushing and popping threads. A step is
  what one thread does between acquiring the mutex and releasing it, in a wait or at the
  end. Waits may also end without a notification.
 */
module MessageQueue {
  import opened Sequences

  type Thread = nat

  /** `waiting` threads sleep in the wait; `notified` ones have been woken and have yet to
      get the mutex back. The logs say what was ever pushed, and popped by whom. */
  datatype State<+T> = State(
    queue: seq<T>, waiting: set<Thread>, notified: set<Thread>,
    pushed: seq<T>, popped: seq<(Thread, T)>)

  /** `Push` names the thread `notify_one` picks, if any is waiting. */
  datatype Step<+T> =
    | Push(x: T, wakes: Thread)
    | Pop(t: Thread)
    | Resume(t: Thread)
    | TryPop(t: Thread)
    | SpuriousWake(t: Thread)

  function Initial<T>(): State<T> { State([], {}, {}, [], []) }

  predicate Blocked<T>(s: State<T>, t: Thread) { t in s.waiting || t in s.notified }

  /** The mutex held: take the front element, or go to sleep until notified. */
  function TakeOrWait<T>(s: State<T>, t: Thread): State<T> {
    if s.queue == [] then s.(waiting := s.waiting + {t}) else Take(s, t)
  }

  function Take<T>(s: State<T>, t: Thread): State<T>
    requires s.queue != []
  {
    s.(queue := s.queue[1..], popped := s.popped + [(t, s.queue[0])])
  }

  function Do<T>(s: State<T>, step: Step<T>): State<T> {
    match step
    case Push(x, wakes) =>
      var s1 := s.(queue := s.queue + [x], pushed := s.pushed + [x]);
      if wakes in s.waiting then s1.(waiting := s.waiting - {wakes}, notified := s.notified + {wakes})
      else if s.waiting == {} then s1 else s
    case Pop(t) => if Blocked(s, t) then s else TakeOrWait(s, t)
    case Resume(t) => if t in s.notified then TakeOrWait(s.(notified := s.notified - {t}), t) else s
    case TryPop(t) => if Blocked(s, t) || s.queue == [] then s else Take(s, t)
    case SpuriousWake(t) =>
      if t in s.waiting then s.(waiting := s.waiting - {t}, notified := s.notified + {t}) else s
  }

  function Run<T>(s: State<T>, schedule: seq<Step<T>>): State<T>
    decreases |schedule|
  {
    if schedule == [] then s else Run(Do(s, schedule[0]), schedule[1..])
  }

  function Elements<T>(popped: seq<(Thread, T)>): seq<T> {
    seq(|popped|, i requires 0 <= i < |popped| => popped[i].1)
  }

  // ---------------------------------------------------------------- safety

  ghost predicate Inv<T>(s: State<T>) {
    && s.pushed == Elements(s.popped) + s.queue
    && s.waiting !! s.notified
    && (s.waiting != {} ==> |s.queue| <= |s.notified|)
  }

  lemma {:induction false} TakeSafe<T>(s: State<T>, t: Thread)
    requires s.queue != [] && s.pushed == Elements(s.popped) + s.queue
    ensures Take(s, t).pushed == Elements(Take(s, t).popped) + Take(s, t).queue
  {
    assert Elements(Take(s, t).popped) == Elements(s.popped) + [s.queue[0]];
  }

  /** Every step keeps the wake-up account: as long as a thread sleeps un-notified, each
      element of the queue has a notified thread coming for it. */
  lemma {:induction false} DoSafe<T>(s: State<T>, step: Step<T>)
    requires Inv(s)
    ensures Inv(Do(s, step))
  {
    hide Elements;
    match step
    case Push(x, wakes) =>
      assert wakes in s.waiting ==> |s.notified + {wakes}| == |s.notified| + 1;
    case Pop(t) =>
      if !Blocked(s, t) && s.queue != [] {
        TakeSafe(s, t);
      }
    case Resume(t) =>
      if t in s.notified {
        var s1 := s.(notified := s.notified - {t});
        assert |s1.notified| == |s.notified| - 1;
        if s.queue != [] {
          TakeSafe(s1, t);
        }
      }
    case TryPop(t) =>
      if !Blocked(s, t) && s.queue != [] {
        TakeSafe(s, t);
      }
    case SpuriousWake(t) =>
      assert t in s.waiting ==> |s.notified + {t}| == |s.notified| + 1;
  }

  /** Whatever the other threads are about, a thread that has the mutex and finds a message
      takes the oldest; on an empty queue a blocking pop goes to sleep and the other does
      nothing. A push with nobody asleep wakes nobody, else it wakes one who slept. */
  lemma {:induction false} WhatAThreadGets<T>(s: State<T>, t: Thread, x: T)
    requires Inv(s)
    ensures var found := if s.queue == [] then [] else [(t, s.queue[0])];
            && (!Blocked(s, t) ==>
                  && Do(s, Pop(t)).popped == s.popped + found && Do(s, TryPop(t)).popped == s.popped + found
                  && (Blocked(Do(s, Pop(t)), t) <==> s.queue == [])
                  && (s.queue == [] ==> t in Do(s, Pop(t)).waiting && Do(s, TryPop(t)) == s))
            && (t in s.notified ==>
                  && Do(s, Resume(t)).popped == s.popped + found
                  && (Blocked(Do(s, Resume(t)), t) <==> s.queue == []) && t !in Do(s, Resume(t)).notified)
            && (t in s.waiting ==>
                  && Do(s, Push(x, t)).pushed == s.pushed + [x] && t in Do(s, Push(x, t)).notified
                  && Do(s, Push(x, t)).waiting == s.waiting - {t})
            && (s.waiting == {} ==> Do(s, Push(x, t)).pushed == s.pushed + [x])
            && (t in s.waiting ==>
                  Do(s, SpuriousWake(t)).waiting == s.waiting - {t} && Do(s, SpuriousWake(t)).notified == s.notified + {t})
  {
  }

  lemma {:induction false} RunSafe<T>(s: State<T>, schedule: seq<Step<T>>)
    requires Inv(s)
    ensures Inv(Run(s, schedule))
    decreases |schedule|
  {
    hide Inv, Do;
    if schedule != [] {
      DoSafe(s, schedule[0]);
      RunSafe(Do(s, schedule[0]), schedule[1..]);
    }
  }

  /** Elements leave in the order in which they were pushed, whoever takes them. */
  lemma {:induction false} EveryRunIsFifo<T>(schedule: seq<Step<T>>)
    ensures var s := Run(Initial<T>(), schedule);
            s.pushed == Elements(s.popped) + s.queue
  {
    var start := Initial<T>();
    assert Inv(start);
    RunSafe(start, schedule);
  }

  /** No wake-up is lost: when the queue has elements and threads sleep, some thread has
      been notified, and any such thread takes the front element as soon as it gets the
      mutex; when no notified thread is left, sleepers have nothing to take. */
  lemma {:induction false} NoLostWakeup<T>(schedule: seq<Step<T>>)
    ensures var s := Run(Initial<T>(), schedule);
            && (s.waiting != {} ==> |s.queue| <= |s.notified|)
            && (s.waiting != {} && s.queue != [] ==> exists t :: t in s.notified)
            && (forall t | t in s.notified && s.queue != [] ::
                  Do(s, Resume(t)).popped == s.popped + [(t, s.queue[0])] && !Blocked(Do(s, Resume(t)), t))
            && (s.notified == {} ==> s.waiting == {} || s.queue == [])
  {
    var start := Initial<T>();
    assert Inv(start);
    RunSafe(start, schedule);
    var s := Run(start, schedule);
    if s.waiting != {} && s.queue != [] {
      assert |s.notified| > 0;
      var t :| t in s.notified;
    }
  }

  // ---------------------------------------------------------------- the object

  /** What other threads do to the queue while a popping thread sleeps once. */
  datatype Nap<+T> = Nap(pushes: seq<T>, pops: nat)

  /** The queue when a blocking pop stops sleeping, or after all the naps. */
  function Awake<T>(queue: seq<T>, naps: seq<Nap<T>>): seq<T>
    decreases |naps|
  {
    if queue != [] || naps == [] then queue
    else Awake(naps[0].pushes[Min(naps[0].pops, |naps[0].pushes|)..], naps[1..])
  }

  /** A blocking pop sleeps on exactly while every nap leaves the queue as empty as it
      found it; else it wakes to what the first other nap has left. */
  lemma {:induction false} SleepsWhileOthersTakeAll<T>(naps: seq<Nap<T>>, k: nat)
    requires k <= |naps| && forall i | 0 <= i < k :: |naps[i].pushes| <= naps[i].pops
    ensures k == |naps| ==> Awake([], naps) == []
    ensures k < |naps| && naps[k].pops < |naps[k].pushes| ==>
              Awake([], naps) == naps[k].pushes[naps[k].pops..] && Awake([], naps) != []
    decreases k
  {
    if k > 0 {
      assert naps[0].pushes[Min(naps[0].pops, |naps[0].pushes|)..] == [];
      SleepsWhileOthersTakeAll(naps[1..], k - 1);
    }
  }

  // A blocking pop of the object is a run of the machine.

  lemma {:induction false} RunAppend<T>(s: State<T>, p: seq<Step<T>>, q: seq<Step<T>>)
    ensures Run(s, p + q) == Run(Run(s, p), q)
    decreases |p|
  {
    hide Do;
    if p == [] {
      assert p + q == q;
    } else {
      assert (p + q)[1..] == p[1..] + q;
      RunAppend(Do(s, p[0]), p[1..], q);
    }
  }

  lemma {:induction false} OneStep<T>(s: State<T>, step: Step<T>)
    ensures Run(s, [step]) == Do(s, step)
  {
    hide Do;
    assert [step][1..] == [];
  }

  /** Pushes while at most one thread sleeps; the first of them wakes it. */
  lemma {:induction false} PushesAre<T>(s: State<T>, t: Thread, xs: seq<T>) returns (p: seq<Step<T>>)
    requires s.waiting <= {t}
    ensures var r := Run(s, p);
            && r.queue == s.queue + xs && r.popped == s.popped
            && (if xs == [] then r == s else r.waiting == {} && r.notified == s.notified + s.waiting)
    decreases |xs|
  {
    if xs == [] {
      p := [];
    } else {
      var step := Push(xs[0], t);
      var s1 := Do(s, step);
      assert s1.queue == s.queue + [xs[0]] && s1.waiting == {} && s1.notified == s.notified + s.waiting;
      var rest := PushesAre(s1, t, xs[1..]);
      OneStep(s, step);
      RunAppend(s, [step], rest);
      p := [step] + rest;
    }
  }

  /** Pops by a thread that does not sleep. */
  lemma {:induction false} PopsAre<T>(s: State<T>, u: Thread, n: nat) returns (p: seq<Step<T>>)
    requires !Blocked(s, u) && n <= |s.queue|
    ensures var r := Run(s, p);
            r.queue == s.queue[n..] && r.waiting == s.waiting && r.notified == s.notified
    decreases n
  {
    if n == 0 {
      p := [];
    } else {
      var s1 := Do(s, TryPop(u));
      var rest := PopsAre(s1, u, n - 1);
      OneStep(s, TryPop(u));
      RunAppend(s, [TryPop(u)], rest);
      p := [TryPop(u)] + rest;
    }
  }

  /** The thread has taken the front of what it woke to, or sleeps. */
  predicate HasPopped<T(==)>(r: State<T>, t: Thread, found: seq<T>) {
    if found == [] then r.queue == [] && r.waiting == {t} && r.notified == {}
    else r.queue == found[1..] && !Blocked(r, t) && r.popped != [] && r.popped[|r.popped| - 1] == (t, found[0])
  }

  lemma {:induction false} SleepIsRun<T>(s: State<T>, t: Thread, u: Thread, naps: seq<Nap<T>>) returns (p: seq<Step<T>>)
    requires s.queue == [] && s.waiting == {t} && s.notified == {} && t != u
    ensures HasPopped(Run(s, p), t, Awake([], naps))
    decreases |naps|
  {
    if naps == [] {
      p := [];
    } else if naps[0].pushes == [] {
      p := SleepIsRun(s, t, u, naps[1..]);
    } else {
      var nap, n := naps[0], Min(naps[0].pops, |naps[0].pushes|);
      var push := PushesAre(s, t, nap.pushes);
      var s1 := Run(s, push);
      assert s1.queue == nap.pushes && s1.notified == {t};
      var pop := PopsAre(s1, u, n);
      var s2 := Run(s1, pop);
      var s3 := Do(s2, Resume(t));
      OneStep(s2, Resume(t));
      assert s2.notified - {t} == {};
      hide Run;
      RunAppend(s, push, pop);
      RunAppend(s, push + pop, [Resume(t)]);
      p := push + pop + [Resume(t)];
      if s2.queue == [] {
        var more := SleepIsRun(s3, t, u, naps[1..]);
        RunAppend(s, p, more);
        p := p + more;
      }
    }
  }

  /** Whatever others do in the naps of a blocking pop, the machine has a run in which the
      thread takes the front of what the pop wakes to, or sleeps on as the pop does. */
  lemma {:induction false} PopIsRun<T>(s: State<T>, t: Thread, u: Thread, naps: seq<Nap<T>>) returns (p: seq<Step<T>>)
    requires s.waiting == {} && s.notified == {} && t != u
    ensures HasPopped(Run(s, p), t, Awake(s.queue, naps))
  {
    var s1 := Do(s, Pop(t));
    OneStep(s, Pop(t));
    p := [Pop(t)];
    if s.queue == [] {
      assert s1.waiting == {t};
      var sleep := SleepIsRun(s1, t, u, naps);
      RunAppend(s, p, sleep);
      p := p + sleep;
    } else {
      hide Run;
      assert Awake(s.queue, naps) == s.queue;
    }
  }

  class CMessageQueue<T> {
    var queue: seq<T>
    ghost var pushed: seq<T>
    ghost var popped: nat

    ghost predicate Valid()
      reads this
    {
      popped <= |pushed| && queue == pushed[popped..]
    }

    constructor ()
      ensures Valid() && queue == []
    {
      queue, pushed, popped := [], [], 0;
    }

    method Push(msg: T)
      requires Valid()
      modifies this
      ensures Valid()
      ensures queue == old(queue) + [msg] && pushed == old(pushed) + [msg] && popped == old(popped)
    {
      queue := queue + [msg];
      pushed := pushed + [msg];
    }

    /** The wait: the mutex is free while others run, and held again on return. */
    method Wait(nap: Nap<T>)
      requires Valid()
      modifies this
      ensures Valid()
      ensures queue == (old(queue) + nap.pushes)[Min(nap.pops, |old(queue) + nap.pushes|)..]
      ensures pushed == old(pushed) + nap.pushes && popped >= old(popped)
    {
      var all := queue + nap.pushes;
      var n := Min(nap.pops, |all|);
      queue := all[n..];
      pushed := pushed + nap.pushes;
      popped := popped + n;
    }

    /** Blocking, the pop sleeps through `naps` while the queue is empty and returns nothing
        only if it still sleeps after them; otherwise it returns nothing on an empty queue. */
    method Pop(isBlocked: bool, naps: seq<Nap<T>>) returns (msg: Option<T>)
      requires Valid()
      modifies this
      ensures Valid()
      ensures old(pushed) <= pushed
      ensures msg.Some? ==> old(popped) < popped && msg.value == pushed[popped - 1]
      ensures var found := if isBlocked then Awake(old(queue), naps) else old(queue);
              if found == [] then msg == None && queue == [] else msg == Some(found[0]) && queue == found[1..]
      ensures !isBlocked || old(queue) != [] ==> pushed == old(pushed)
    {
      var i := 0;
      if isBlocked {
        while queue == [] && i < |naps|
          invariant 0 <= i <= |naps| && Valid()
          invariant old(pushed) <= pushed && old(popped) <= popped
          invariant i == 0 ==> queue == old(queue) && pushed == old(pushed) && popped == old(popped)
          invariant old(queue) != [] ==> i == 0
          invariant Awake(queue, naps[i..]) == Awake(old(queue), naps)
          decreases |naps| - i
        {
          Wait(naps[i]);
          i := i + 1;
        }
      }
      if queue == [] {
        return None;
      }
      msg := Some(queue[0]);
      queue := queue[1..];
      popped := popped + 1;
    }
  }
}
