/**
 The scheduler as the C code runs it, on its global arrays (hw3_thread-library/scheduler.c and
 threadtools.h).
 */
module SchedulerCode {
  import opened Scheduling

  const POLLIN := 1

  datatype PollFd = PollFd(fd: int, revents: int)

  function Armed(f: seq<PollFd>): (r: seq<bool>)
    ensures |r| == |f|
  {
    seq(|f|, i requires 0 <= i < |f| => f[i].fd != -1)
  }

  function CauseOf(src: int): Cause {
    if src == 1 then Signal else if src == 2 then Read else Exit
  }

  function RemoveAt(s: seq<nat>, j: nat): seq<nat>
    requires j < |s|
  {
    s[..j] + s[j + 1..]
  }

  // The entries of `s` from `j` on overwritten by their successors, up to place `k`.
  function Shifted(s: seq<nat>, j: nat, k: nat): seq<nat>
    requires j <= k < |s|
  {
    s[..j] + s[j + 1..k + 1] + s[k..]
  }

  lemma ShiftStep(s: seq<nat>, j: nat, k: nat)
    requires j <= k < |s| - 1
    ensures Shifted(s, j, k)[k + 1] == s[k + 1] && Shifted(s, j, k)[k := s[k + 1]] == Shifted(s, j, k + 1)
  {}

  lemma ShiftEnds(s: seq<nat>, j: nat)
    requires j < |s|
    ensures Shifted(s, j, j) == s && Shifted(s, j, |s| - 1)[..|s| - 1] == RemoveAt(s, j)
  {}

  // What poll has written: POLLIN in the reported slots from `i` on, nothing elsewhere.
  ghost predicate Marked(f: seq<PollFd>, rev: set<nat>, i: nat) {
    forall k | 0 <= k < |f| :: f[k].revents == if k >= i && k in rev then POLLIN else 0
  }

  lemma {:induction false} AsleepNext(w: seq<nat>, rev: set<nat>, i: nat, j: nat)
    requires Distinct(w) && i in rev && j < |Asleep(w, rev, i)| && Asleep(w, rev, i)[j] == i
    ensures Asleep(w, rev, i + 1) == RemoveAt(Asleep(w, rev, i), j)
  {
    if w[0] == i {
      AsleepMember(w[1..], rev, i, i);
      AsleepSame(w[1..], rev, i);
    } else if w[0] in rev && w[0] < i {
      AsleepNext(w[1..], rev, i, j);
    } else {
      AsleepNext(w[1..], rev, i, j - 1);
      assert RemoveAt(Asleep(w, rev, i), j) == [w[0]] + RemoveAt(Asleep(w[1..], rev, i), j - 1);
    }
  }

  // A slot that no waiting thread has, or that is not reported, changes nothing.
  lemma {:induction false} AsleepSame(w: seq<nat>, rev: set<nat>, i: nat)
    requires i !in rev || i !in w
    ensures Asleep(w, rev, i + 1) == Asleep(w, rev, i)
  {
    if w != [] { AsleepSame(w[1..], rev, i); }
  }

  lemma MoveSame(q: Queues, rev: set<nat>, i: nat)
    requires i !in rev
    ensures MoveUpto(q, rev, i + 1) == MoveUpto(q, rev, i)
  {
    AsleepSame(q.waiting, rev, i);
  }

  lemma MoveNext(q: Queues, rev: set<nat>, i: nat, j: nat)
    requires Valid(q) && Reported(q, rev) && i in rev
    requires j < |MoveUpto(q, rev, i).waiting| && MoveUpto(q, rev, i).waiting[j] == i
    ensures i < |q.armed|
    ensures var a := MoveUpto(q, rev, i);
            MoveUpto(q, rev, i + 1) == Queues(a.ready + [i], a.cur, RemoveAt(a.waiting, j), a.armed[i := false])
  {
    AsleepNext(q.waiting, rev, i, j);
    assert i in q.waiting;
    var a := MoveUpto(q, rev, i);
    assert Disarmed(q.armed, rev, i + 1) == a.armed[i := false];
    assert q.ready + (Woken(q.waiting, rev, i) + [i]) == a.ready + [i];
  }

  lemma {:induction false} SizesKept(w: seq<nat>, rev: set<nat>, n: nat)
    requires Distinct(w)
    ensures |Woken(w, rev, n)| + |Asleep(w, rev, n)| == |w|
  {
    if n == 0 {
      AsleepZero(w, rev);
    } else {
      SizesKept(w, rev, n - 1);
      if n - 1 in rev && n - 1 in w {
        AsleepMember(w, rev, n - 1, n - 1);
        var j :| 0 <= j < |Asleep(w, rev, n - 1)| && Asleep(w, rev, n - 1)[j] == n - 1;
        AsleepNext(w, rev, n - 1, j);
      } else {
        AsleepSame(w, rev, n - 1);
      }
    }
  }

  lemma {:induction false} AsleepZero(w: seq<nat>, rev: set<nat>)
    ensures Asleep(w, rev, 0) == w
  {
    if w != [] { AsleepZero(w[1..], rev); }
  }

  lemma {:induction false} DistinctBound(s: seq<nat>, n: nat)
    requires Distinct(s) && forall i | 0 <= i < |s| :: s[i] < n
    ensures |s| <= n
  {
    if |s| == 0 {
    } else if n - 1 in s {
      var j :| 0 <= j < |s| && s[j] == n - 1;
      DistinctBound(RemoveAt(s, j), n - 1);
    } else {
      var first := s[0];
      forall i | 0 <= i < |s| ensures s[i] < n - 1 { assert s[i] in s; }
      DistinctBound(s, n - 1);
    }
  }

  // The queues never outgrow their arrays.
  lemma QueuesFit(q: Queues)
    requires Valid(q)
    ensures |q.ready| + |q.waiting| <= |q.armed|
  {
    var all := q.ready + q.waiting;
    ConcatDistinct(q.ready, q.waiting);
    forall i | 0 <= i < |all| ensures all[i] < |q.armed| { assert all[i] in q.ready || all[i] in q.waiting; }
    DistinctBound(all, |q.armed|);
  }

  lemma MoveZero(q: Queues, rev: set<nat>)
    ensures MoveUpto(q, rev, 0) == q
  {
    AsleepZero(q.waiting, rev);
    assert q.ready + [] == q.ready;
  }

  lemma MoveRoom(q: Queues, rev: set<nat>, i: nat)
    requires Valid(q) && Reported(q, rev) && i in rev
    ensures i in MoveUpto(q, rev, i).waiting && |MoveUpto(q, rev, i).ready| < THREAD_MAX
  {
    QueuesFit(q);
    SizesKept(q.waiting, rev, i);
    AsleepMember(q.waiting, rev, i, i);
  }

  lemma MarkedNext(f: seq<PollFd>, rev: set<nat>, i: nat)
    requires i < |f| && Marked(f, rev, i)
    ensures Marked(f[i := PollFd(-1, 0)], rev, i + 1)
  {}

  // A new thread is ready, with a slot that is not armed.
  function Created(q: Queues): Queues {
    Queues(q.ready + [|q.armed|], q.cur, q.waiting, q.armed + [false])
  }

  lemma SetupValid(q: Queues)
    requires Valid(q) && |q.armed| < THREAD_MAX
    ensures Valid(Created(q))
  {
    assert |q.armed| !in q.ready && |q.armed| !in q.waiting;
    AppendDistinct(q.ready, |q.armed|);
  }

  class Scheduler {
    const readyQueue: array<nat>
    const waitingQueue: array<nat>
    const fdarray: array<PollFd>
    var rqSize: nat
    var rqCurrent: nat
    var wqSize: nat
    var nfds: nat
    // The descriptor of each thread's fifo, t -> fd.
    var fds: seq<int>

    constructor ()
      ensures Fits() && Abs() == Queues([], 0, [], []) && fresh(readyQueue) && fresh(waitingQueue) && fresh(fdarray)
    {
      readyQueue, waitingQueue := new nat[THREAD_MAX](i => 0), new nat[THREAD_MAX](i => 0);
      fdarray := new PollFd[THREAD_MAX](i => PollFd(-1, 0));
      rqSize, rqCurrent, wqSize, nfds, fds := 0, 0, 0, 0, [];
    }

    ghost predicate Fits()
      reads this
    {
      && readyQueue.Length == waitingQueue.Length == fdarray.Length == THREAD_MAX && readyQueue != waitingQueue
      && rqSize <= THREAD_MAX && wqSize <= THREAD_MAX && nfds <= THREAD_MAX && |fds| == nfds
      && forall i | 0 <= i < nfds :: fds[i] >= 0
    }

    ghost function Abs(): Queues
      requires Fits()
      reads this, readyQueue, waitingQueue, fdarray
    {
      Queues(readyQueue[..rqSize], rqCurrent, waitingQueue[..wqSize], Armed(fdarray[..nfds]))
    }

    // thread_setup, up to the saving of the environment.
    method Setup(fd: int)
      requires Fits() && Valid(Abs()) && nfds < THREAD_MAX && fd >= 0
      modifies this, readyQueue, fdarray
      ensures Fits() && Valid(Abs()) && nfds == old(nfds) + 1
      ensures Abs() == Created(old(Abs()))
      ensures readyQueue[..rqSize] == old(readyQueue[..rqSize]) + [old(nfds)]
      ensures fdarray[old(nfds)].fd == -1 && fds == old(fds) + [fd]
    {
      ghost var q := Abs();
      QueuesFit(q);
      readyQueue[rqSize] := nfds;
      rqSize := rqSize + 1;
      fdarray[nfds] := PollFd(-1, 0);
      nfds := nfds + 1;
      fds := fds + [fd];
      SetupValid(q);
      assert readyQueue[..rqSize] == q.ready + [|q.armed|] && Abs().armed == q.armed + [false];
    }

    // The entry of the first call: the first thread is dispatched.
    method Start()
      requires Fits() && Valid(Abs()) && rqSize > 0
      modifies `rqCurrent
      ensures Fits() && Abs() == old(Abs()).(cur := 0) && Active(Abs())
    {
      rqCurrent := 0;
    }

    method Drop()
      requires Fits() && wqSize > 0
      modifies `wqSize
      ensures wqSize == old(wqSize) - 1 && waitingQueue[..wqSize] == old(waitingQueue[..wqSize])[..wqSize]
    {
      wqSize := wqSize - 1;
    }

    // One shift of the inner loop, of the queue that was `w`.
    method Pull(k: nat, ghost w: seq<nat>, ghost j: nat)
      requires Fits() && j <= k && k + 1 < wqSize == |w| && waitingQueue[..wqSize] == Shifted(w, j, k)
      modifies waitingQueue
      ensures waitingQueue[..wqSize] == Shifted(w, j, k + 1)
    {
      ShiftStep(w, j, k);
      waitingQueue[k] := waitingQueue[k + 1];
    }

    // The inner loop's shifting: waiting_queue[j] is overwritten by its successors.
    method Shift(j: nat)
      requires Fits() && j < wqSize
      modifies `wqSize, waitingQueue
      ensures wqSize == old(wqSize) - 1
      ensures waitingQueue[..wqSize] == RemoveAt(old(waitingQueue[..wqSize]), j)
    {
      ghost var w := waitingQueue[..wqSize];
      var k := j;
      ShiftEnds(w, j);
      while k < wqSize - 1
        invariant j <= k <= wqSize - 1 && wqSize == old(wqSize)
        invariant waitingQueue[..wqSize] == Shifted(w, j, k)
      {
        Pull(k, w, j);
        k := k + 1;
      }
      Drop();
    }

    method Transfer(j: nat, ghost i: nat)
      requires Fits() && j < wqSize && waitingQueue[j] == i && rqSize < THREAD_MAX
      modifies `rqSize, `wqSize, readyQueue, waitingQueue
      ensures Fits() && j < |old(Abs()).waiting|
      ensures var a := old(Abs()); Abs() == Queues(a.ready + [i], a.cur, RemoveAt(a.waiting, j), a.armed)
    {
      readyQueue[rqSize] := waitingQueue[j];
      rqSize := rqSize + 1;
      Shift(j);
    }

    // The loop over the waiting queue: thread `i` moves to the end of the ready queue.
    method Wake(i: nat) returns (ghost j: nat)
      requires Fits() && i in waitingQueue[..wqSize] && rqSize < THREAD_MAX
      modifies `rqSize, `wqSize, readyQueue, waitingQueue
      ensures Fits() && j < |old(Abs()).waiting| && old(Abs()).waiting[j] == i
      ensures var a := old(Abs()); Abs() == Queues(a.ready + [i], a.cur, RemoveAt(a.waiting, j), a.armed)
    {
      var m := 0;
      while m < wqSize
        invariant m <= wqSize == old(wqSize) && rqSize == old(rqSize)
        invariant readyQueue[..] == old(readyQueue[..]) && waitingQueue[..] == old(waitingQueue[..])
        invariant i in waitingQueue[m..wqSize]
      {
        if waitingQueue[m] == i {
          j := m;
          Transfer(m, i);
          break;
        }
        m := m + 1;
      }
    }

    method Disarm(i: nat)
      requires Fits() && i < nfds
      modifies fdarray
      ensures fdarray[..nfds] == old(fdarray[..nfds])[i := PollFd(-1, 0)]
      ensures Fits() && Abs() == old(Abs()).(armed := old(Abs()).armed[i := false])
    {
      ghost var armed := Abs().armed;
      fdarray[i] := fdarray[i].(fd := -1);
      fdarray[i] := fdarray[i].(revents := 0);
      assert Abs().armed == armed[i := false];
    }

    // One round of the outer loop.
    method LookAt(i: nat, ghost q: Queues, ghost rev: set<nat>)
      requires Fits() && Valid(q) && Reported(q, rev) && i < nfds == |q.armed|
      requires Abs() == MoveUpto(q, rev, i) && Marked(fdarray[..nfds], rev, i)
      modifies `rqSize, `wqSize, readyQueue, waitingQueue, fdarray
      ensures Fits() && Abs() == MoveUpto(q, rev, i + 1) && Marked(fdarray[..nfds], rev, i + 1)
    {
      ghost var f := fdarray[..nfds];
      assert f[i] == fdarray[i];
      if fdarray[i].revents == POLLIN {
        MoveRoom(q, rev, i);
        MarkedNext(f, rev, i);
        ghost var j := Wake(i);
        MoveNext(q, rev, i, j);
        Disarm(i);
      } else {
        MoveSame(q, rev, i);
      }
    }

    method MoveQueue(ghost rev: set<nat>)
      requires Fits() && Valid(Abs()) && Reported(Abs(), rev) && Marked(fdarray[..nfds], rev, 0)
      modifies `rqSize, `wqSize, readyQueue, waitingQueue, fdarray
      ensures Fits() && Abs() == Move(old(Abs()), rev)
    {
      ghost var q := Abs();
      MoveZero(q, rev);
      var i := 0;
      while i < nfds
        invariant i <= nfds == |q.armed| && Fits()
        invariant Abs() == MoveUpto(q, rev, i)
        invariant Marked(fdarray[..nfds], rev, i)
      {
        LookAt(i, q, rev);
        i := i + 1;
      }
    }

    // poll: the kernel writes the slots; `rev` is what it finds ready.
    method Poll(rev: set<nat>) returns (some: bool)
      requires Fits() && Reported(Abs(), rev)
      modifies fdarray
      ensures Fits() && Abs() == old(Abs()) && Marked(fdarray[..nfds], rev, 0) && some == (rev != {})
    {
      ghost var q := Abs();
      some := false;
      var i := 0;
      while i < nfds
        invariant i <= nfds == |q.armed| && Abs() == q
        invariant forall k | 0 <= k < i :: fdarray[k].revents == if k in rev then POLLIN else 0
        invariant some <==> exists k :: 0 <= k < i && k in rev
      {
        Report(i, if i in rev then POLLIN else 0);
        some := some || i in rev;
        i := i + 1;
      }
      if rev != {} {
        ghost var k :| k in rev;
        assert 0 <= k < |q.armed|;
      }
    }

    method Report(i: nat, revents: int)
      requires Fits() && i < nfds
      modifies fdarray
      ensures fdarray[..] == old(fdarray[..])[i := old(fdarray[i]).(revents := revents)]
      ensures Abs() == old(Abs())
    {
      ghost var armed := Abs().armed;
      fdarray[i] := fdarray[i].(revents := revents);
      assert Abs().armed == armed;
    }

    method FillRunning()
      requires Fits() && rqCurrent < rqSize
      modifies `rqSize, `rqCurrent, readyQueue
      ensures Fits() && Abs() == Fill(old(Abs()))
    {
      readyQueue[rqCurrent] := readyQueue[rqSize - 1];
      rqSize := rqSize - 1;
      rqCurrent := if rqCurrent == rqSize then 0 else rqCurrent;
      assert readyQueue[..rqSize] == Fill(old(Abs())).ready;
    }

    method ParkRunning()
      requires Fits() && rqCurrent < rqSize && readyQueue[rqCurrent] < nfds && wqSize < THREAD_MAX
      modifies `wqSize, waitingQueue, fdarray
      ensures Fits() && Running(old(Abs())) < |old(Abs()).armed| && Abs() == Park(old(Abs()))
      ensures fdarray[..nfds] == old(fdarray[..nfds])[Running(old(Abs())) := PollFd(fds[Running(old(Abs()))],
                old(fdarray[readyQueue[rqCurrent]].revents))]
    {
      ghost var q := Abs();
      var t := readyQueue[rqCurrent];
      fdarray[t] := fdarray[t].(fd := fds[t]);
      waitingQueue[wqSize] := t;
      wqSize := wqSize + 1;
      assert waitingQueue[..wqSize] == q.waiting + [t] && Abs().armed == q.armed[t := true];
    }

    // The part of the scheduler that takes the running thread off, by the reason of the entry.
    method LeaveRunning(src: int)
      requires Fits() && Active(Abs()) && 1 <= src <= 3
      modifies `rqSize, `rqCurrent, `wqSize, readyQueue, waitingQueue, fdarray
      ensures Fits() && Running(old(Abs())) < |old(Abs()).armed| && Abs() == Leave(old(Abs()), CauseOf(src))
      ensures waitingQueue[..wqSize]
           == old(waitingQueue[..wqSize]) + (if src == 2 then [old(readyQueue[rqCurrent])] else [])
      ensures if src == 1 then readyQueue[..rqSize] == old(readyQueue[..rqSize])
              else Filled(old(readyQueue[..rqSize]), old(rqCurrent), readyQueue[..rqSize])
    {
      ghost var q := Abs();
      QueuesFit(q);
      assert Running(q) in q.ready;
      LeaveExact(q, CauseOf(src));
      if src == 1 {
        rqCurrent := if rqCurrent == rqSize - 1 then 0 else rqCurrent + 1;
      } else {
        if src == 2 {
          ParkRunning();
        }
        FillRunning();
      }
    }

    method PollAndMove(rev: set<nat>)
      requires Fits() && Valid(Abs()) && Reported(Abs(), rev)
      modifies `rqSize, `wqSize, readyQueue, waitingQueue, fdarray
      ensures Fits() && Abs() == Move(old(Abs()), rev)
    {
      MoveNone(Abs());
      var some := Poll(rev);
      if some {
        MoveQueue(rev);
      }
    }

    // scheduler, from the return of sigsetjmp to the next jump or return.
    method Schedule(src: int, first: set<nat>, second: set<nat>) returns (again: bool)
      requires Fits() && Active(Abs()) && 1 <= src <= 3 && Polled(Abs(), CauseOf(src), first, second)
      modifies `rqSize, `rqCurrent, `wqSize, readyQueue, waitingQueue, fdarray
      ensures Fits() && Abs() == Enter(old(Abs()), CauseOf(src), first, second)
      ensures again <==> rqSize != 0
    {
      ghost var q := Abs();
      PollAndMove(first);
      MoveValid(q, first);
      LeaveValid(Move(q, first), CauseOf(src));
      LeaveRunning(src);
      if rqSize == 0 {
        if wqSize == 0 {
          return false;
        }
        ghost var b := Abs();
        PollAndMove(second);
        WokenSome(b, second);
        rqCurrent := 0;
      }
      again := true;
    }
  }
}
