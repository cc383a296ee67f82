/**
 Threads under the scheduler (hw3_thread-library): all of them run through the shared RUNNING
 slot, signals arrive and descriptors become readable as an adversary likes, and still each
 thread prints what it would print alone.
 */
module Threading {
  import opened Scheduling
  import opened Threads

  // A thread's tcb, with its history: what it printed, the numbers it read, the bursts it ran and
  // how the last one ended.
  datatype Life = Life(tcb: Thread, printed: seq<int>, inputs: seq<int>, bursts: nat, call: Call)

  datatype System = System(q: Queues, lives: seq<Life>)

  // What the surroundings decide in one step: the number that a read finds, whether a signal is
  // pending at a yield, and the two polls of a scheduler entry.
  datatype Oracle = Oracle(num: int, signalled: bool, first: set<nat>, second: set<nat>)

  function Live(l: Life, num: int): Life {
    var b := Resume(l.tcb, num);
    Life(b.t, l.printed + b.printed, if l.tcb.at == Reading then l.inputs + [num] else l.inputs, l.bursts + 1, b.call)
  }

  function Reason(c: Call): Cause {
    match c
    case Yield => Signal
    case Await => Read
    case Quit => Exit
  }

  // One burst of the running thread, and the scheduler entry it ends with; after a yield without
  // a pending signal the thread goes on.
  ghost predicate Step(s: System, o: Oracle, z: System) {
    && Active(s.q) && |s.lives| == |s.q.armed| && Running(s.q) < |s.lives|
    && var t := Running(s.q);
       var l := Live(s.lives[t], o.num);
       && z.lives == s.lives[t := l]
       && if l.call == Yield && !o.signalled then z.q == s.q
          else Polled(s.q, Reason(l.call), o.first, o.second) && z.q == Enter(s.q, Reason(l.call), o.first, o.second)
  }

  ghost predicate Runs(s: System, oracles: seq<Oracle>, z: System)
    decreases |oracles|
  {
    if oracles == [] then z == s
    else exists m :: Step(s, oracles[0], m) && Runs(m, oracles[1..], z)
  }

  // At least one thread has been created, and none has run.
  predicate Begins(origin: seq<Thread>) {
    1 <= |origin| <= THREAD_MAX && forall t | 0 <= t < |origin| :: origin[t] == Created(origin[t].body, origin[t].arg)
  }

  function First(origin: seq<Thread>): System {
    System(Queues(seq(|origin|, i => i), 0, [], seq(|origin|, i => false)),
           seq(|origin|, t requires 0 <= t < |origin| => Life(origin[t], [], [], 0, Yield)))
  }

  ghost predicate Reachable(origin: seq<Thread>, s: System) {
    Begins(origin) && exists oracles :: Runs(First(origin), oracles, s)
  }

  // ---------- the invariant ----------

  // A thread has exited exactly if it is in no queue, and waits only for a read.
  predicate Placed(s: System, t: nat)
    requires t < |s.lives|
  {
    && (s.lives[t].call == Quit <==> t !in s.q.ready && t !in s.q.waiting)
    && (t in s.q.waiting ==> s.lives[t].call == Await)
  }

  // A thread is where it would be alone, on the inputs it has read; alone it would have run as
  // many bursts, so it has not gone on after exiting.
  predicate Alone(origin: seq<Thread>, s: System, t: nat)
    requires t < |s.lives| == |origin|
  {
    var l := s.lives[t];
    Solo(origin[t], l.bursts, l.inputs) == Trace(l.tcb, l.printed, |l.inputs|, l.call, l.bursts)
  }

  ghost predicate Conserved(s: System) {
    && Valid(s.q) && |s.q.armed| == |s.lives|
    && (if s.q.ready == [] then s.q.waiting == [] else Active(s.q))
    && forall t | 0 <= t < |s.lives| :: Placed(s, t)
  }

  ghost predicate Invariant(origin: seq<Thread>, s: System) {
    Conserved(s) && |s.lives| == |origin| && forall t | 0 <= t < |s.lives| :: Alone(origin, s, t)
  }

  lemma FirstInvariant(origin: seq<Thread>)
    requires Begins(origin)
    ensures Invariant(origin, First(origin))
  {
    var s := First(origin);
    forall t | 0 <= t < |origin| ensures Placed(s, t) { assert s.q.ready[t] == t; }
  }

  lemma ResumeIgnores(t: Thread, a: int, b: int)
    requires t.at != Reading
    ensures Resume(t, a) == Resume(t, b)
  {}

  lemma LiveAlone(origin: Thread, l: Life, num: int)
    requires Solo(origin, l.bursts, l.inputs) == Trace(l.tcb, l.printed, |l.inputs|, l.call, l.bursts)
    requires l.call != Quit
    ensures var z := Live(l, num);
            Solo(origin, z.bursts, z.inputs) == Trace(z.tcb, z.printed, |z.inputs|, z.call, z.bursts)
  {
    var z := Live(l, num);
    var s := Trace(l.tcb, l.printed, |l.inputs|, l.call, l.bursts);
    SoloSame(origin, l.bursts, l.inputs, z.inputs);
    if l.tcb.at != Reading { ResumeIgnores(l.tcb, num, 0); }
    assert Continue(s, z.inputs) == Trace(z.tcb, z.printed, |z.inputs|, z.call, z.bursts);
  }

  lemma StepPlaced(s: System, o: Oracle, z: System, t: nat)
    requires Conserved(s) && Step(s, o, z) && t < |s.lives|
    ensures Placed(z, t)
  {
    var r := Running(s.q);
    assert r in s.q.ready;
    assert Placed(s, t) && Placed(s, r);
    var c := z.lives[r].call;
    if !(c == Yield && !o.signalled) {
      EnterMembers(s.q, Reason(c), o.first, o.second, t);
      EnterWaiting(s.q, Reason(c), o.first, o.second, t);
    }
  }

  // A thread waits after an entry only if it did before, or if it was running and asked to read.
  lemma EnterWaiting(q: Queues, cause: Cause, first: set<nat>, second: set<nat>, x: nat)
    requires Active(q) && Polled(q, cause, first, second)
    ensures x in Enter(q, cause, first, second).waiting ==> x in q.waiting || (cause == Read && x == Running(q))
  {
    MoveValid(q, first);
    var a := Move(q, first);
    assert Running(a) == Running(q);
    LeaveValid(a, cause);
    MoveMembers(q, first, x);
    MoveMembers(Leave(a, cause), second, x);
  }

  lemma StepInvariant(origin: seq<Thread>, s: System, o: Oracle, z: System)
    requires Invariant(origin, s) && Step(s, o, z)
    ensures Invariant(origin, z)
  {
    var r := Running(s.q);
    assert r in s.q.ready && Placed(s, r) && Alone(origin, s, r);
    LiveAlone(origin[r], s.lives[r], o.num);
    forall t | 0 <= t < |z.lives| ensures Placed(z, t) && Alone(origin, z, t) {
      StepPlaced(s, o, z, t);
      assert Alone(origin, s, t);
    }
    var c := z.lives[r].call;
    if !(c == Yield && !o.signalled) { EnterValid(s.q, Reason(c), o.first, o.second); }
  }

  lemma {:induction false} RunsInvariant(origin: seq<Thread>, s: System, oracles: seq<Oracle>, z: System)
    requires Invariant(origin, s) && Runs(s, oracles, z)
    ensures Invariant(origin, z)
    decreases |oracles|
  {
    if oracles != [] {
      var m :| Step(s, oracles[0], m) && Runs(m, oracles[1..], z);
      StepInvariant(origin, s, oracles[0], m);
      RunsInvariant(origin, m, oracles[1..], z);
    }
  }

  lemma ReachableInvariant(origin: seq<Thread>, s: System)
    requires Reachable(origin, s)
    ensures Invariant(origin, s)
  {
    var oracles :| Runs(First(origin), oracles, s);
    FirstInvariant(origin);
    RunsInvariant(origin, First(origin), oracles, s);
  }

  // ---------- progress ----------

  lemma Slotted(q: Queues, x: nat)
    requires Valid(q) && x in q.waiting
    ensures x < |q.armed| && q.armed[x]
  {}

  // The waiting poll can report what poll promises.
  lemma PollExists(q: Queues, cause: Cause, first: set<nat>) returns (second: set<nat>)
    requires Active(q) && Reported(q, first)
    ensures Polled(q, cause, first, second)
  {
    MoveValid(q, first);
    var a := Move(q, first);
    LeaveValid(a, cause);
    var b := Leave(a, cause);
    second := {};
    if b.waiting != [] {
      Slotted(b, b.waiting[0]);
      second := {b.waiting[0]};
    }
  }

  // While a thread is ready the system can step, whatever number, signal and first poll come.
  lemma StepExists(origin: seq<Thread>, s: System, num: int, signalled: bool, first: set<nat>)
      returns (second: set<nat>, z: System)
    requires Reachable(origin, s) && s.q.ready != [] && Reported(s.q, first)
    ensures Step(s, Oracle(num, signalled, first, second), z)
  {
    ReachableInvariant(origin, s);
    var r := Running(s.q);
    assert r in s.q.ready;
    var l := Live(s.lives[r], num);
    if l.call == Yield && !signalled {
      second, z := {}, System(s.q, s.lives[r := l]);
    } else {
      second := PollExists(s.q, Reason(l.call), first);
      z := System(Enter(s.q, Reason(l.call), first, second), s.lives[r := l]);
    }
  }

  // ---------- the turn ----------

  // What an entry makes of the running thread: after a signal it stays ready, and another thread runs if
  // one is ready or arrives; after a read it waits, unless it is reported while nothing else is ready;
  // after an exit it is gone.
  lemma EnterRunning(q: Queues, cause: Cause, first: set<nat>, second: set<nat>)
    requires Active(q) && Polled(q, cause, first, second)
    ensures var z, t := Enter(q, cause, first, second), Running(q);
            && (cause == Signal ==> t in z.ready && z.cur < |z.ready|)
            && (cause == Signal && (|q.ready| > 1 || first != {}) ==> Running(z) != t)
            && (cause == Read ==> t in z.waiting || (t in second && first == {} && q.ready == [t]))
            && (cause == Exit ==> t !in z.ready && t !in z.waiting)
  {
    var t := Running(q);
    assert t in q.ready && t !in q.waiting;
    EnterMembers(q, cause, first, second, t);
    EnterValid(q, cause, first, second);
    MoveValid(q, first);
    var a := Move(q, first);
    LeaveValid(a, cause);
    LeaveExact(a, cause);
    var b := Leave(a, cause);
    MoveMembers(b, second, t);
    if first != {} { ArrivalsReady(q, first); }
    if first == {} { MoveNone(q); }
  }

  lemma ArrivalsReady(q: Queues, rev: set<nat>)
    requires Valid(q) && Reported(q, rev) && rev != {} && q.ready != []
    ensures |Move(q, rev).ready| > 1
  {
    MoveValid(q, rev);
    var x :| x in rev;
    MoveMembers(q, rev, x);
    assert x in q.waiting && x !in q.ready;
  }

  // How a step ends for the thread that ran. After a yield it stays ready, and it keeps the turn if no
  // signal was pending; otherwise another thread has the turn, if one is ready or arrives. A thread that
  // asked to read waits, unless its input comes while no other thread is ready. One that
  // exited is in no queue.
  lemma TurnEnds(origin: seq<Thread>, s: System, o: Oracle, z: System)
    requires Reachable(origin, s) && Step(s, o, z)
    ensures Running(s.q) < |z.lives|
    ensures var t := Running(s.q); var c := z.lives[t].call;
            && (c == Yield ==> t in z.q.ready && z.q.cur < |z.q.ready|)
            && (c == Yield && !o.signalled ==> Running(z.q) == t)
            && (c == Yield && o.signalled && (|s.q.ready| > 1 || o.first != {}) ==> Running(z.q) != t)
            && (c == Await ==> t in z.q.waiting || (t in o.second && o.first == {} && s.q.ready == [t]))
            && (c == Quit ==> t !in z.q.ready && t !in z.q.waiting)
  {
    var t := Running(s.q);
    assert t in s.q.ready;
    var c := z.lives[t].call;
    if c != Yield || o.signalled { EnterRunning(s.q, Reason(c), o.first, o.second); }
  }

  // ---------- what a run guarantees ----------

  // Every thread is ready, waiting or finished, exactly one of these, and its slot is armed
  // exactly while it waits; the scheduler stops only when all threads have finished.
  lemma ThreadsConserved(origin: seq<Thread>, s: System, t: nat)
    requires Reachable(origin, s) && t < |origin|
    ensures |s.lives| == |s.q.armed| == |origin| <= THREAD_MAX && Distinct(s.q.ready) && Distinct(s.q.waiting)
    ensures !(t in s.q.ready && t in s.q.waiting)
    ensures s.lives[t].call == Quit <==> t !in s.q.ready && t !in s.q.waiting
    ensures s.q.armed[t] <==> t in s.q.waiting
    ensures s.q.ready != [] ==> s.q.cur < |s.q.ready|
    ensures s.q.ready == [] ==> s.lives[t].call == Quit
  {
    ReachableInvariant(origin, s);
    assert Placed(s, t);
  }

  // Whatever the schedule: a thread has printed a beginning of what it prints alone until it exits,
  // on any continuation of its inputs, and all of it if it has finished.
  lemma ScheduleIndependent(origin: seq<Thread>, s: System, t: nat, n: nat, nums: seq<int>)
    requires Reachable(origin, s) && t < |origin|
    ensures |s.lives| == |origin|
    ensures n >= s.lives[t].bursts && s.lives[t].inputs <= nums ==>
              && s.lives[t].printed <= Solo(origin[t], n, nums).printed
              && (s.lives[t].call == Quit ==> s.lives[t].printed == Solo(origin[t], n, nums).printed)
  {
    ReachableInvariant(origin, s);
    assert Alone(origin, s, t);
    var l := s.lives[t];
    if n >= l.bursts && l.inputs <= nums { SoloPrefix(origin[t], l.bursts, l.inputs, n, nums); }
  }

  // A fibonacci thread prints F(1), F(2), ...; with arg >= 1 it prints no more than `arg` lines, and
  // has finished exactly when it has printed all of them.
  lemma FibonacciPrints(origin: seq<Thread>, s: System, t: nat)
    requires Reachable(origin, s) && t < |origin| && origin[t].body == Fibonacci
    ensures |s.lives| == |origin| && s.lives[t].printed == Fibs(|s.lives[t].printed|)
    ensures origin[t].arg >= 1 ==> |s.lives[t].printed| <= origin[t].arg
    ensures s.lives[t].call == Quit <==> origin[t].arg >= 1 && |s.lives[t].printed| == origin[t].arg
  {
    ReachableInvariant(origin, s);
    assert Alone(origin, s, t);
    FibonacciSolo(origin[t].arg, s.lives[t].bursts, s.lives[t].inputs);
  }

  // A collatz thread prints the iterates of its argument, no 1 before its last line, and has
  // finished exactly when that line is a 1.
  lemma CollatzPrints(origin: seq<Thread>, s: System, t: nat)
    requires Reachable(origin, s) && t < |origin| && origin[t].body == Collatz
    ensures |s.lives| == |origin| && s.lives[t].printed == Iterates(origin[t].arg, |s.lives[t].printed|)
    ensures Follows([origin[t].arg] + s.lives[t].printed)
    ensures OneLast(s.lives[t].printed, s.lives[t].call == Quit)
  {
    ReachableInvariant(origin, s);
    assert Alone(origin, s, t);
    CollatzLines(origin[t].arg, s.lives[t].bursts, s.lives[t].inputs);
  }

  // A max_subarray thread prints, after each input, the greatest sum of a contiguous part of the
  // inputs so far; with arg >= 1 it prints no more than `arg` lines, and has finished exactly when
  // it has printed all of them.
  lemma MaxSubarrayPrints(origin: seq<Thread>, s: System, t: nat)
    requires Reachable(origin, s) && t < |origin| && origin[t].body == MaxSubarray
    ensures |s.lives| == |origin| && |s.lives[t].printed| == |s.lives[t].inputs|
    ensures PrintsBest(s.lives[t].printed, s.lives[t].inputs)
    ensures origin[t].arg >= 1 ==> |s.lives[t].printed| <= origin[t].arg
    ensures s.lives[t].call == Quit <==> origin[t].arg >= 1 && |s.lives[t].printed| == origin[t].arg
  {
    ReachableInvariant(origin, s);
    assert Alone(origin, s, t);
    MaxSubarraySolo(origin[t].arg, s.lives[t].bursts, s.lives[t].inputs);
  }
}
