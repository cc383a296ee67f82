/**
 Bounded waiting (hw3_thread-library/scheduler.c:47-51 and 64-75). Round robin is disturbed by
 `fill`, which moves the last ready thread to the place of one that leaves. While no thread
 arrives from the waiting queue, the number of entries until a ready thread runs is bounded,
 whatever mix of yields, blocks and exits occurs, and the bound is exact.
 */
module Fairness {
  import opened Scheduling

  // Greatest number of entries until the thread at place `j` runs, of `n` ready threads of
  // which the one at `c` is running.
  function Worst(n: nat, c: nat, j: nat): (w: int)
    requires c < n && j < n && c != j
    ensures 1 <= w < 2 * n
  {
    if j > c then n - 1 - c else n - c + (if j == 0 then 0 else n - 1)
  }

  // A sequence of entries in which poll reports nothing.
  ghost function Quiet(q: Queues, causes: seq<Cause>): Queues
    decreases |causes|
  {
    if causes == [] || !Active(q) then q else Quiet(Enter(q, causes[0], {}, {}), causes[1..])
  }

  // With another thread ready, an entry without arrivals only rotates or fills.
  lemma QuietEnter(q: Queues, cause: Cause)
    requires Active(q) && |q.ready| >= 2
    ensures Running(q) < |q.armed| && Enter(q, cause, {}, {}) == Leave(q, cause) && Active(Leave(q, cause))
  {
    assert Running(q) in q.ready;
    MoveNone(q);
    LeaveValid(q, cause);
    if cause != Signal { FillMembers(if cause == Read then Park(q) else q, 0); }
  }

  lemma QuietStep(q: Queues, cause: Cause, j: nat) returns (z: Queues, i: nat)
    requires Active(q) && j < |q.ready| && j != q.cur
    ensures z == Enter(q, cause, {}, {}) && Active(z) && i < |z.ready| && z.ready[i] == q.ready[j]
    ensures i != z.cur ==> Worst(|z.ready|, z.cur, i) <= Worst(|q.ready|, q.cur, j) - 1
  {
    QuietEnter(q, cause);
    z := Enter(q, cause, {}, {});
    i := if cause != Signal && j == |q.ready| - 1 then q.cur else j;
  }

  // Any ready thread runs within Worst(...) < 2 * rq_size entries.
  lemma {:induction false} BoundedWaiting(q: Queues, causes: seq<Cause>, j: nat) returns (k: nat)
    requires Active(q) && j < |q.ready| && j != q.cur && |causes| >= Worst(|q.ready|, q.cur, j)
    ensures 1 <= k <= Worst(|q.ready|, q.cur, j) && k <= |causes|
    ensures Active(Quiet(q, causes[..k])) && Running(Quiet(q, causes[..k])) == q.ready[j]
    decreases |causes|
  {
    var z, i := QuietStep(q, causes[0], j);
    k := 1;
    if i == z.cur {
      assert causes[..1][1..] == [];
    } else {
      var m := BoundedWaiting(z, causes[1..], i);
      k := m + 1;
      assert causes[..k][1..] == causes[1..][..m];
    }
  }

  // The schedule that keeps the thread waiting longest.
  function Delaying(n: nat, c: nat, j: nat): Cause {
    if c < j < n - 1 then Exit else Signal
  }

  lemma DelayStep(q: Queues, j: nat) returns (z: Queues)
    requires Active(q) && j < |q.ready| && j != q.cur
    ensures z == Enter(q, Delaying(|q.ready|, q.cur, j), {}, {}) && Active(z)
    ensures j < |z.ready| && z.ready[j] == q.ready[j]
    ensures j == z.cur <==> Worst(|q.ready|, q.cur, j) == 1
    ensures j != z.cur ==> Worst(|z.ready|, z.cur, j) == Worst(|q.ready|, q.cur, j) - 1
  {
    QuietEnter(q, Delaying(|q.ready|, q.cur, j));
    z := Enter(q, Delaying(|q.ready|, q.cur, j), {}, {});
  }

  lemma RunningOther(q: Queues, j: nat)
    requires Active(q) && j < |q.ready| && j != q.cur
    ensures Running(q) != q.ready[j]
  {}

  // The bound is attained: some schedule runs the thread after exactly that many entries, and
  // not before.
  lemma {:induction false} WaitingTight(q: Queues, j: nat) returns (causes: seq<Cause>)
    requires Active(q) && j < |q.ready| && j != q.cur
    ensures |causes| == Worst(|q.ready|, q.cur, j)
    ensures Active(Quiet(q, causes)) && Running(Quiet(q, causes)) == q.ready[j]
    ensures forall k | 0 <= k < |causes| ::
              Active(Quiet(q, causes[..k])) && Running(Quiet(q, causes[..k])) != q.ready[j]
    decreases Worst(|q.ready|, q.cur, j)
  {
    var cause := Delaying(|q.ready|, q.cur, j);
    var z := DelayStep(q, j);
    var rest := [];
    if j != z.cur { rest := WaitingTight(z, j); }
    causes := [cause] + rest;
    assert causes[1..] == rest;
    forall k | 0 <= k < |causes|
      ensures Active(Quiet(q, causes[..k])) && Running(Quiet(q, causes[..k])) != q.ready[j]
    {
      if k == 0 {
        RunningOther(q, j);
      } else {
        assert causes[..k][1..] == rest[..k - 1];
        assert Active(Quiet(z, rest[..k - 1])) && Running(Quiet(z, rest[..k - 1])) != z.ready[j];
      }
    }
  }
}
