/**
 The queues of the user-level thread scheduler (hw3_thread-library/scheduler.c). A thread is
 named by its `fd_index`, the order of its creation. `Enter` is one entry into the scheduler,
 from the sigsetjmp to the next dispatch.
 */
module Scheduling {

  const THREAD_MAX: nat := 16

  // ready_queue[..rq_size], rq_current, waiting_queue[..wq_size]; armed[t] if fdarray[t].fd is
  // not -1.
  datatype Queues = Queues(ready: seq<nat>, cur: nat, waiting: seq<nat>, armed: seq<bool>)

  // The value sigsetjmp returns: 1 after a signal, 2 from async_read, 3 from thread_exit.
  datatype Cause = Signal | Read | Exit

  predicate Distinct(s: seq<nat>) {
    forall i, j | 0 <= i < j < |s| :: s[i] != s[j]
  }

  predicate Apart(s: seq<nat>, t: seq<nat>) {
    forall x | x in s :: x !in t
  }

  // Every live thread is in one of the queues, once, and its slot is armed exactly if it waits.
  predicate Valid(q: Queues) {
    && |q.armed| <= THREAD_MAX && Distinct(q.ready) && Distinct(q.waiting) && Apart(q.ready, q.waiting)
    && (forall x | x in q.ready :: x < |q.armed|)
    && (forall x | x in q.waiting :: x < |q.armed|)
    && (forall i | 0 <= i < |q.armed| :: q.armed[i] <==> i in q.waiting)
  }

  // Something is running.
  predicate Active(q: Queues) {
    Valid(q) && q.cur < |q.ready|
  }

  function Running(q: Queues): nat
    requires q.cur < |q.ready|
  {
    q.ready[q.cur]
  }

  // The slots that poll reports.
  predicate Reported(q: Queues, rev: set<nat>) {
    forall i | i in rev :: i < |q.armed| && q.armed[i]
  }

  // ---------- move_queue ----------

  // The waiting threads among the first `n` slots that are reported, in the order of the slots.
  function Woken(waiting: seq<nat>, rev: set<nat>, n: nat): seq<nat> {
    if n == 0 then []
    else if n - 1 in rev && n - 1 in waiting then Woken(waiting, rev, n - 1) + [n - 1]
    else Woken(waiting, rev, n - 1)
  }

  // The others, in their old order.
  function Asleep(waiting: seq<nat>, rev: set<nat>, n: nat): seq<nat> {
    if waiting == [] then []
    else if waiting[0] in rev && waiting[0] < n then Asleep(waiting[1..], rev, n)
    else [waiting[0]] + Asleep(waiting[1..], rev, n)
  }

  function Disarmed(armed: seq<bool>, rev: set<nat>, n: nat): (r: seq<bool>)
    ensures |r| == |armed|
  {
    seq(|armed|, i requires 0 <= i < |armed| => armed[i] && !(i in rev && i < n))
  }

  // After the first `n` slots have been looked at.
  function MoveUpto(q: Queues, rev: set<nat>, n: nat): Queues {
    Queues(q.ready + Woken(q.waiting, rev, n), q.cur, Asleep(q.waiting, rev, n), Disarmed(q.armed, rev, n))
  }

  function Move(q: Queues, rev: set<nat>): Queues {
    MoveUpto(q, rev, |q.armed|)
  }

  // ---------- the scheduler ----------

  // Takes RUNNING out of the ready queue: the last thread gets its place.
  function Fill(q: Queues): Queues
    requires q.cur < |q.ready|
  {
    var last := |q.ready| - 1;
    q.(ready := q.ready[q.cur := q.ready[last]][..last], cur := if q.cur == last then 0 else q.cur)
  }

  function Next(q: Queues): Queues
    requires q.cur < |q.ready|
  {
    q.(cur := if q.cur == |q.ready| - 1 then 0 else q.cur + 1)
  }

  // RUNNING starts to wait for its descriptor.
  function Park(q: Queues): Queues
    requires q.cur < |q.ready| && Running(q) < |q.armed|
  {
    q.(waiting := q.waiting + [Running(q)], armed := q.armed[Running(q) := true])
  }

  function Leave(q: Queues, cause: Cause): Queues
    requires q.cur < |q.ready| && Running(q) < |q.armed|
  {
    match cause
    case Signal => Next(q)
    case Read => Fill(Park(q))
    case Exit => Fill(q)
  }

  // With no thread ready, the scheduler waits for input, or returns when no thread is left.
  function Refill(q: Queues, rev: set<nat>): Queues {
    if q.ready == [] && q.waiting != [] then Move(q, rev).(cur := 0) else q
  }

  // One entry; `first` is what the poll without waiting reports, `second` the waiting one.
  function Enter(q: Queues, cause: Cause, first: set<nat>, second: set<nat>): Queues
    requires Active(q)
  {
    assert Move(q, first).ready[q.cur] == Running(q) && Running(q) in q.ready;
    Refill(Leave(Move(q, first), cause), second)
  }

  // What poll promises: only armed slots are reported, and a poll that waits reports one.
  predicate Polled(q: Queues, cause: Cause, first: set<nat>, second: set<nat>)
    requires Active(q)
  {
    && Reported(q, first)
    && assert Move(q, first).ready[q.cur] == Running(q) && Running(q) in q.ready;
       var b := Leave(Move(q, first), cause);
       (b.ready == [] && b.waiting != [] ==> Reported(b, second) && second != {})
  }

  // ---------- what the steps keep ----------

  lemma {:induction false} WokenNone(waiting: seq<nat>, n: nat)
    ensures Woken(waiting, {}, n) == []
  {
    if n > 0 { WokenNone(waiting, n - 1); }
  }

  lemma {:induction false} AsleepAll(waiting: seq<nat>, n: nat)
    ensures Asleep(waiting, {}, n) == waiting
  {
    if waiting != [] { AsleepAll(waiting[1..], n); }
  }

  lemma MoveNone(q: Queues)
    ensures Move(q, {}) == q
  {
    WokenNone(q.waiting, |q.armed|);
    AsleepAll(q.waiting, |q.armed|);
    assert q.ready + [] == q.ready;
  }

  lemma {:induction false} WokenMember(waiting: seq<nat>, rev: set<nat>, n: nat, x: nat)
    ensures x in Woken(waiting, rev, n) <==> x < n && x in rev && x in waiting
  {
    if n > 0 { WokenMember(waiting, rev, n - 1, x); }
  }

  lemma AppendDistinct(s: seq<nat>, x: nat)
    requires Distinct(s) && x !in s
    ensures Distinct(s + [x])
  {}

  lemma ConcatDistinct(s: seq<nat>, t: seq<nat>)
    requires Distinct(s) && Distinct(t) && Apart(s, t)
    ensures Distinct(s + t)
  {
    forall i, j | 0 <= i < j < |s + t| ensures (s + t)[i] != (s + t)[j] {
      if i < |s| <= j { assert s[i] in s && t[j - |s|] in t; }
    }
  }

  lemma {:induction false} WokenDistinct(waiting: seq<nat>, rev: set<nat>, n: nat)
    ensures Distinct(Woken(waiting, rev, n))
  {
    if n > 0 {
      WokenDistinct(waiting, rev, n - 1);
      WokenMember(waiting, rev, n - 1, n - 1);
    }
  }

  lemma {:induction false} AsleepMember(waiting: seq<nat>, rev: set<nat>, n: nat, x: nat)
    ensures x in Asleep(waiting, rev, n) <==> x in waiting && !(x in rev && x < n)
  {
    if waiting != [] { AsleepMember(waiting[1..], rev, n, x); }
  }

  lemma {:induction false} AsleepDistinct(waiting: seq<nat>, rev: set<nat>, n: nat)
    requires Distinct(waiting)
    ensures Distinct(Asleep(waiting, rev, n))
  {
    if waiting != [] {
      AsleepDistinct(waiting[1..], rev, n);
      AsleepMember(waiting[1..], rev, n, waiting[0]);
    }
  }

  // Exactly the reported threads change queue.
  lemma MoveMembers(q: Queues, rev: set<nat>, x: nat)
    requires Valid(q)
    ensures x in Move(q, rev).ready <==> x in q.ready || (x in q.waiting && x in rev)
    ensures x in Move(q, rev).waiting <==> x in q.waiting && x !in rev
  {
    WokenMember(q.waiting, rev, |q.armed|, x);
    AsleepMember(q.waiting, rev, |q.armed|, x);
  }

  lemma MoveValid(q: Queues, rev: set<nat>)
    requires Valid(q)
    ensures Valid(Move(q, rev)) && q.ready <= Move(q, rev).ready
  {
    var z := Move(q, rev);
    WokenDistinct(q.waiting, rev, |q.armed|);
    AsleepDistinct(q.waiting, rev, |q.armed|);
    forall x | x in q.ready ensures x !in Woken(q.waiting, rev, |q.armed|) {
      WokenMember(q.waiting, rev, |q.armed|, x);
    }
    ConcatDistinct(q.ready, Woken(q.waiting, rev, |q.armed|));
    forall x | x in z.ready ensures x < |z.armed| && x !in z.waiting { MoveMembers(q, rev, x); }
    forall x | x in z.waiting ensures x < |z.armed| { MoveMembers(q, rev, x); }
    forall i | 0 <= i < |z.armed| ensures z.armed[i] <==> i in z.waiting { MoveMembers(q, rev, i); }
  }

  // The thread that was running leaves the ready queue, and no other does.
  lemma FillMembers(q: Queues, x: nat)
    requires q.cur < |q.ready| && Distinct(q.ready)
    ensures x in Fill(q).ready <==> x in q.ready && x != Running(q)
    ensures Distinct(Fill(q).ready) && |Fill(q).ready| == |q.ready| - 1
  {
    var z, last := Fill(q), |q.ready| - 1;
    forall i | 0 <= i < last ensures z.ready[i] == if i == q.cur then q.ready[last] else q.ready[i] {}
    if x in q.ready && x != Running(q) {
      var i :| 0 <= i < |q.ready| && q.ready[i] == x;
      assert z.ready[if i == last then q.cur else i] == x;
    }
  }

  lemma LeaveValid(q: Queues, cause: Cause)
    requires Active(q)
    ensures Running(q) < |q.armed| && Valid(Leave(q, cause))
    ensures Leave(q, cause).ready != [] ==> Active(Leave(q, cause))
    ensures forall x :: x in Leave(q, cause).ready <==> x in q.ready && (cause == Signal || x != Running(q))
    ensures forall x :: x in Leave(q, cause).waiting <==> x in q.waiting || (cause == Read && x == Running(q))
  {
    var t := Running(q);
    assert t in q.ready;
    if cause != Signal {
      var p := if cause == Read then Park(q) else q;
      forall x ensures x in Fill(p).ready <==> x in q.ready && x != t { FillMembers(p, x); }
      FillMembers(p, t);
      if cause == Read { AppendDistinct(q.waiting, t); }
    }
  }

  lemma WokenSome(q: Queues, rev: set<nat>)
    requires Valid(q) && q.ready == [] && Reported(q, rev) && rev != {}
    ensures Move(q, rev).ready != []
  {
    var i :| i in rev;
    WokenMember(q.waiting, rev, |q.armed|, i);
  }

  // At every dispatch a thread is ready; the scheduler returns only with both queues empty.
  lemma EnterValid(q: Queues, cause: Cause, first: set<nat>, second: set<nat>)
    requires Active(q) && Polled(q, cause, first, second)
    ensures var z := Enter(q, cause, first, second);
            Valid(z) && |z.armed| == |q.armed| && (z.ready == [] ==> z.waiting == []) && (z.ready != [] ==> Active(z))
  {
    MoveValid(q, first);
    var a := Move(q, first);
    LeaveValid(a, cause);
    var b := Leave(a, cause);
    if b.ready == [] && b.waiting != [] {
      MoveValid(b, second);
      WokenSome(b, second);
    }
  }

  // No thread appears, and only a thread that exits disappears.
  lemma EnterMembers(q: Queues, cause: Cause, first: set<nat>, second: set<nat>, x: nat)
    requires Active(q) && Polled(q, cause, first, second)
    ensures var z := Enter(q, cause, first, second);
            (x in z.ready || x in z.waiting)
            <==> (x in q.ready || x in q.waiting) && !(cause == Exit && x == Running(q))
  {
    MoveValid(q, first);
    var a := Move(q, first);
    LeaveValid(a, cause);
    MoveMembers(q, first, x);
    var b := Leave(a, cause);
    assert Running(a) == Running(q);
    MoveMembers(b, second, x);
    assert Running(q) in q.ready;
  }

  // ---------- what an entry does, from outside ----------

  predicate Ascending(w: seq<nat>) {
    forall i, j | 0 <= i < j < |w| :: w[i] < w[j]
  }

  // The members of `rev` from the smallest to the greatest.
  ghost predicate InOrder(w: seq<nat>, rev: set<nat>) {
    Ascending(w) && forall x :: x in w <==> x in rev
  }

  lemma {:induction false} InOrderUnique(w: seq<nat>, v: seq<nat>, rev: set<nat>)
    requires InOrder(w, rev) && InOrder(v, rev)
    ensures w == v
    decreases |w|
  {
    assert v == [] || (v[0] in v && v[0] in w);
    if w != [] {
      var x := w[|w| - 1];
      assert x in v && v[|v| - 1] in w;
      assert v[|v| - 1] == x;
      ShorterInOrder(w, rev);
      ShorterInOrder(v, rev);
      InOrderUnique(w[..|w| - 1], v[..|v| - 1], rev - {x});
      assert w == w[..|w| - 1] + [x] && v == v[..|v| - 1] + [x];
    }
  }

  lemma ShorterInOrder(w: seq<nat>, rev: set<nat>)
    requires w != [] && InOrder(w, rev)
    ensures InOrder(w[..|w| - 1], rev - {w[|w| - 1]})
  {
    var less, x := w[..|w| - 1], w[|w| - 1];
    assert w == less + [x];
    forall y ensures y in less <==> y in rev - {x} {
      assert y in w <==> y in less || y == x;
    }
  }

  lemma {:induction false} WokenAscends(waiting: seq<nat>, rev: set<nat>, n: nat)
    ensures Ascending(Woken(waiting, rev, n))
  {
    if n > 0 {
      WokenAscends(waiting, rev, n - 1);
      var u := Woken(waiting, rev, n - 1);
      forall i | 0 <= i < |u| ensures u[i] < n - 1 {
        assert u[i] in u;
        WokenMember(waiting, rev, n - 1, u[i]);
      }
    }
  }

  // The threads that poll reports are appended to the ready queue, in the order of their slots.
  lemma MoveArrivals(q: Queues, rev: set<nat>, w: seq<nat>)
    requires Valid(q) && Reported(q, rev) && InOrder(w, rev)
    ensures Move(q, rev).ready == q.ready + w && Move(q, rev).cur == q.cur
  {
    var v := Woken(q.waiting, rev, |q.armed|);
    WokenAscends(q.waiting, rev, |q.armed|);
    forall x ensures x in v <==> x in rev { WokenMember(q.waiting, rev, |q.armed|, x); }
    InOrderUnique(v, w, rev);
  }

  // Nothing is ready once the arrivals `w` are in and the running thread has left.
  predicate Drained(q: Queues, cause: Cause, w: seq<nat>) {
    cause != Signal && |q.ready| + |w| == 1
  }

  // `z` is `r` without the entry at `c`, whose place the last one takes.
  predicate Filled(r: seq<nat>, c: nat, z: seq<nat>) {
    |r| > 0 && |z| == |r| - 1 && forall j | 0 <= j < |z| :: z[j] == r[if j == c then |r| - 1 else j]
  }

  // Taking the running thread off: the turn passes on by one place, or the last thread takes the place
  // of the one that leaves.
  lemma LeaveExact(q: Queues, cause: Cause)
    requires Active(q) && Running(q) < |q.armed|
    ensures var z, n := Leave(q, cause), |q.ready|;
            && (cause == Signal ==> z.ready == q.ready && z.cur == if q.cur + 1 < n then q.cur + 1 else 0)
            && (cause != Signal ==> Filled(q.ready, q.cur, z.ready) && z.cur == if q.cur == n - 1 then 0 else q.cur)
            && z.waiting == q.waiting + (if cause == Read then [Running(q)] else [])
  {}

  // An entry that finds another thread ready, or is a yield: the arrivals `w` are appended before the
  // running thread is taken off.
  lemma EnterExact(q: Queues, cause: Cause, first: set<nat>, second: set<nat>, w: seq<nat>)
    requires Active(q) && Polled(q, cause, first, second) && InOrder(w, first) && !Drained(q, cause, w)
    ensures var z, r := Enter(q, cause, first, second), q.ready + w;
            && (cause == Signal ==> z.ready == r && z.cur == if q.cur + 1 < |r| then q.cur + 1 else 0)
            && (cause != Signal ==> Filled(r, q.cur, z.ready) && z.cur == if q.cur == |r| - 1 then 0 else q.cur)
  {
    MoveValid(q, first);
    MoveArrivals(q, first, w);
    LeaveValid(Move(q, first), cause);
    LeaveExact(Move(q, first), cause);
  }

  // An entry after which no thread is ready: the arrivals `v` of the waiting poll are, and the first of
  // them runs; without any thread waiting the scheduler returns.
  lemma DrainExact(q: Queues, cause: Cause, first: set<nat>, second: set<nat>, v: seq<nat>)
    requires Active(q) && Polled(q, cause, first, second) && InOrder(v, second)
    requires cause != Signal && |q.ready| == 1 && first == {}
    ensures var z := Enter(q, cause, first, second);
            if cause == Read || q.waiting != [] then z.ready == v && v != [] && z.cur == 0
            else z.ready == [] && z.waiting == []
  {
    MoveNone(q);
    LeaveValid(q, cause);
    LeaveExact(q, cause);
    var b := Leave(q, cause);
    if b.waiting != [] {
      MoveArrivals(b, second, v);
      WokenSome(b, second);
    }
  }

  // `x` waits longer than `y`.
  predicate Ahead(s: seq<nat>, x: nat, y: nat) {
    exists i, j :: 0 <= i < j < |s| && s[i] == x && s[j] == y
  }

  lemma {:induction false} AsleepAhead(waiting: seq<nat>, rev: set<nat>, n: nat, x: nat, y: nat)
    requires Ahead(Asleep(waiting, rev, n), x, y)
    ensures Ahead(waiting, x, y)
  {
    var s, a := Asleep(waiting, rev, n), Asleep(waiting[1..], rev, n);
    var i, j :| 0 <= i < j < |s| && s[i] == x && s[j] == y;
    if waiting[0] in rev && waiting[0] < n {
      AsleepAhead(waiting[1..], rev, n, x, y);
    } else if i > 0 {
      assert a[i - 1] == x && a[j - 1] == y;
      AsleepAhead(waiting[1..], rev, n, x, y);
    } else {
      assert a[j - 1] == y;
      AsleepMember(waiting[1..], rev, n, y);
      var k :| 0 <= k < |waiting[1..]| && waiting[1..][k] == y;
      assert waiting[0] == x && waiting[k + 1] == y;
      return;
    }
    var k, l :| 0 <= k < l < |waiting[1..]| && waiting[1..][k] == x && waiting[1..][l] == y;
    assert waiting[k + 1] == x && waiting[l + 1] == y;
  }

  // Who still waits after an entry waits in the old order, the thread that asked to read behind all
  // others.
  lemma EnterAhead(q: Queues, cause: Cause, first: set<nat>, second: set<nat>, x: nat, y: nat)
    requires Active(q) && Polled(q, cause, first, second) && Ahead(Enter(q, cause, first, second).waiting, x, y)
    ensures Ahead(q.waiting, x, y) || (cause == Read && y == Running(q) && x in q.waiting)
  {
    MoveValid(q, first);
    var a := Move(q, first);
    LeaveValid(a, cause);
    var b := Leave(a, cause);
    if b.ready == [] && b.waiting != [] { AsleepAhead(b.waiting, second, |b.armed|, x, y); }
    assert Ahead(b.waiting, x, y);
    var i, j :| 0 <= i < j < |b.waiting| && b.waiting[i] == x && b.waiting[j] == y;
    if j < |a.waiting| {
      assert Ahead(a.waiting, x, y) by { assert a.waiting[i] == x && a.waiting[j] == y; }
      AsleepAhead(q.waiting, first, |q.armed|, x, y);
    } else {
      assert a.waiting[i] == x;
      MoveMembers(q, first, x);
    }
  }
}
