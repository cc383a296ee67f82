/**
 Handing out the requests: worker threads take indices from the shared counter `front` under a
 mutex (hw4_simple-movies-recommendation-system/server.c:10, 27-30, 160-176 and 327-331). Every
 statement is a step of its own, and the workers' steps interleave in any order.
 */
module Dispatch {

  datatype Worker =
    | Waiting                // before pthread_mutex_lock
    | Holding                // has the mutex
    | Popped                 // front += 1 is done
    | Read(cur: int)         // cur = front is done, the mutex still held
    | Deciding(cur: int)     // mutex released
    | Working(cur: int)      // inside Recommend(cur)
    | Stopped(cur: int)      // pthread_exit

  // `served` collects the indices passed to Recommend.
  datatype State = State(front: int, owner: int, workers: seq<Worker>, served: multiset<int>)

  const NOBODY := -1

  ghost predicate Init(s: State, w: nat) {
    && s.front == -1 && s.owner == NOBODY && |s.workers| == w && s.served == multiset{}
    && forall i | 0 <= i < w :: s.workers[i] == Waiting
  }

  function Set(s: State, i: nat, w: Worker): State
    requires i < |s.workers|
  {
    s.(workers := s.workers[i := w])
  }

  // One step of worker `i`, when there are `n` requests.
  ghost predicate Step(n: nat, s: State, i: nat, z: State)
    requires i < |s.workers|
  {
    match s.workers[i]
    case Waiting => s.owner == NOBODY && z == Set(s, i, Holding).(owner := i)
    case Holding => z == Set(s, i, Popped).(front := s.front + 1)
    case Popped => z == Set(s, i, Read(s.front))
    case Read(c) => z == Set(s, i, Deciding(c)).(owner := NOBODY)
    case Deciding(c) => z == if c < n then Set(s, i, Working(c)) else Set(s, i, Stopped(c))
    case Working(c) => z == Set(s, i, Waiting).(served := s.served + multiset{c})
    case Stopped(_) => false
  }

  // ---------- the invariant ----------

  predicate InMutex(w: Worker) {
    w.Holding? || w.Popped? || w.Read?
  }

  ghost predicate Exclusive(s: State) {
    -1 <= s.owner < |s.workers| && forall i | 0 <= i < |s.workers| :: InMutex(s.workers[i]) <==> s.owner == i
  }

  // Has been given an index it has not yet served ...
  predicate Given(w: Worker) {
    !w.Waiting? && !w.Holding?
  }

  // ... and this one is `c`.
  predicate Owns(w: Worker, front: int, c: int) {
    Given(w) && c == if w.Popped? then front else w.cur
  }

  function Owners(ws: seq<Worker>, front: int, c: int): nat {
    if ws == [] then 0 else (if Owns(ws[0], front, c) then 1 else 0) + Owners(ws[1..], front, c)
  }

  function Busy(ws: seq<Worker>): nat {
    if ws == [] then 0 else (if Given(ws[0]) then 1 else 0) + Busy(ws[1..])
  }

  predicate Fitting(w: Worker, n: nat) {
    (w.Working? ==> w.cur < n) && (w.Stopped? ==> w.cur >= n)
  }

  // Index `c` has been served, or is in the hands of one worker, exactly if it was handed out.
  predicate Accounted(s: State, c: int) {
    s.served[c] + Owners(s.workers, s.front, c) == if 0 <= c <= s.front then 1 else 0
  }

  ghost predicate Invariant(n: nat, s: State) {
    && s.front >= -1 && Exclusive(s)
    && (forall i | 0 <= i < |s.workers| :: Fitting(s.workers[i], n))
    && (forall c | c in s.served :: c < n)
    && (forall c :: Accounted(s, c))
    && |s.served| + Busy(s.workers) == s.front + 1
  }

  lemma {:induction false} OwnersUpdate(ws: seq<Worker>, i: nat, w: Worker, front: int, c: int)
    requires i < |ws|
    ensures Owners(ws[i := w], front, c) + (if Owns(ws[i], front, c) then 1 else 0)
         == Owners(ws, front, c) + (if Owns(w, front, c) then 1 else 0)
  {
    var us := ws[i := w];
    if i == 0 {
      assert us[1..] == ws[1..];
    } else {
      OwnersUpdate(ws[1..], i - 1, w, front, c);
      assert us[1..] == ws[1..][i - 1 := w];
    }
  }

  lemma {:induction false} BusyUpdate(ws: seq<Worker>, i: nat, w: Worker)
    requires i < |ws|
    ensures Busy(ws[i := w]) + (if Given(ws[i]) then 1 else 0) == Busy(ws) + (if Given(w) then 1 else 0)
  {
    var us := ws[i := w];
    if i == 0 {
      assert us[1..] == ws[1..];
    } else {
      BusyUpdate(ws[1..], i - 1, w);
      assert us[1..] == ws[1..][i - 1 := w];
    }
  }

  // The counter matters only to a worker that has popped and not yet read it.
  lemma {:induction false} OwnersFront(ws: seq<Worker>, f: int, g: int, c: int)
    requires forall i | 0 <= i < |ws| :: !ws[i].Popped?
    ensures Owners(ws, f, c) == Owners(ws, g, c)
  {
    if ws != [] {
      assert !ws[0].Popped?;
      OwnersFront(ws[1..], f, g, c);
    }
  }

  lemma {:induction false} NoOwners(ws: seq<Worker>, c: int)
    requires forall i | 0 <= i < |ws| :: ws[i] == Waiting
    ensures Owners(ws, -1, c) == 0 && Busy(ws) == 0
  {
    if ws != [] {
      assert ws[0] == Waiting;
      NoOwners(ws[1..], c);
    }
  }

  lemma InvariantInit(n: nat, w: nat, s: State)
    requires Init(s, w)
    ensures Invariant(n, s)
  {
    forall c ensures Accounted(s, c) { NoOwners(s.workers, c); }
    NoOwners(s.workers, 0);
  }

  lemma PopKeeps(n: nat, s: State, i: nat, z: State, c: int)
    requires Invariant(n, s) && i < |s.workers| && s.workers[i].Holding? && Step(n, s, i, z)
    ensures Accounted(z, c)
  {
    forall j | 0 <= j < |s.workers| ensures !s.workers[j].Popped? {
      assert InMutex(s.workers[i]) <==> s.owner == i;
      assert InMutex(s.workers[j]) <==> s.owner == j;
    }
    assert Accounted(s, c);
    OwnersFront(s.workers, s.front, z.front, c);
    OwnersUpdate(s.workers, i, Popped, z.front, c);
  }

  lemma OtherKeeps(n: nat, s: State, i: nat, z: State, c: int)
    requires Accounted(s, c) && i < |s.workers| && !s.workers[i].Holding? && Step(n, s, i, z)
    ensures Accounted(z, c)
  {
    OwnersUpdate(s.workers, i, z.workers[i], s.front, c);
  }

  lemma MutexKeeps(n: nat, s: State, i: nat, z: State)
    requires Exclusive(s) && i < |s.workers| && Step(n, s, i, z)
    ensures Exclusive(z)
  {
    assert InMutex(s.workers[i]) <==> s.owner == i;
    forall j | 0 <= j < |z.workers| ensures InMutex(z.workers[j]) <==> z.owner == j {
      assert InMutex(s.workers[j]) <==> s.owner == j;
      assert j != i ==> z.workers[j] == s.workers[j];
    }
  }

  lemma InvariantStep(n: nat, s: State, i: nat, z: State)
    requires Invariant(n, s) && i < |s.workers| && Step(n, s, i, z)
    ensures Invariant(n, z)
  {
    MutexKeeps(n, s, i, z);
    assert Fitting(s.workers[i], n);
    BusyUpdate(s.workers, i, z.workers[i]);
    forall j | 0 <= j < |z.workers| ensures Fitting(z.workers[j], n) {
      assert j != i ==> z.workers[j] == s.workers[j] && Fitting(s.workers[j], n);
    }
    forall c ensures Accounted(z, c) {
      if s.workers[i].Holding? { PopKeeps(n, s, i, z, c); }
      else { assert Accounted(s, c); OtherKeeps(n, s, i, z, c); }
    }
  }

  ghost predicate Runs(n: nat, s: State, moves: seq<nat>, z: State)
    decreases |moves|
  {
    if moves == [] then z == s
    else
      && moves[0] < |s.workers|
      && exists t :: Step(n, s, moves[0], t) && Runs(n, t, moves[1..], z)
  }

  lemma {:induction false} InvariantRuns(n: nat, s: State, moves: seq<nat>, z: State)
    requires Invariant(n, s) && Runs(n, s, moves, z)
    ensures Invariant(n, z) && |z.workers| == |s.workers|
    decreases |moves|
  {
    if moves != [] {
      var t :| Step(n, s, moves[0], t) && Runs(n, t, moves[1..], z);
      InvariantStep(n, s, moves[0], t);
      InvariantRuns(n, t, moves[1..], z);
    }
  }

  // ---------- what has happened when all workers have stopped ----------

  ghost predicate AllStopped(s: State) {
    forall i | 0 <= i < |s.workers| :: s.workers[i].Stopped?
  }

  lemma {:induction false} StoppedOwners(ws: seq<Worker>, n: nat, front: int, c: int)
    requires forall i | 0 <= i < |ws| :: ws[i].Stopped? && ws[i].cur >= n
    ensures Busy(ws) == |ws| && (c < n ==> Owners(ws, front, c) == 0)
  {
    if ws != [] {
      assert ws[0].Stopped? && ws[0].cur >= n;
      StoppedOwners(ws[1..], n, front, c);
    }
  }

  // The requests 0 .. n-1, each once.
  function EachOnce(n: nat): (m: multiset<int>)
    ensures |m| == n && forall c :: m[c] == if 0 <= c < n then 1 else 0
  {
    if n == 0 then multiset{} else EachOnce(n - 1) + multiset{n - 1}
  }

  lemma {:induction false} OwnersAt(ws: seq<Worker>, front: int, i: nat)
    requires i < |ws| && Given(ws[i]) && !ws[i].Popped?
    ensures Owners(ws, front, ws[i].cur) >= 1
  {
    if i > 0 { OwnersAt(ws[1..], front, i - 1); }
  }

  // With at least one worker: when all have stopped, each request has been recommended exactly
  // once, and the counter has gone past the requests once for every worker.
  lemma AllServedOnce(n: nat, w: nat, s: State, moves: seq<nat>, z: State)
    requires w >= 1 && Init(s, w) && Runs(n, s, moves, z) && AllStopped(z)
    ensures z.served == EachOnce(n) && z.front == n + w - 1
  {
    InvariantInit(n, w, s);
    InvariantRuns(n, s, moves, z);
    forall i | 0 <= i < |z.workers| ensures z.workers[i].Stopped? && z.workers[i].cur >= n {
      assert Fitting(z.workers[i], n);
    }
    assert z.workers[0].Stopped? && z.workers[0].cur >= n;
    OwnersAt(z.workers, z.front, 0);
    assert Accounted(z, z.workers[0].cur);
    forall c ensures z.served[c] == EachOnce(n)[c] {
      StoppedOwners(z.workers, n, z.front, c);
      assert Accounted(z, c);
    }
    StoppedOwners(z.workers, n, z.front, 0);
  }

  // A worker only recommends requests that exist.
  lemma WorkingInRange(n: nat, s: State, i: nat)
    requires Invariant(n, s) && i < |s.workers| && s.workers[i].Working?
    ensures 0 <= s.workers[i].cur < n
  {
    assert Fitting(s.workers[i], n);
    OwnersAt(s.workers, s.front, i);
    assert Accounted(s, s.workers[i].cur);
  }

  // ---------- all workers do stop ----------

  // Some worker can step until all have stopped: the mutex is never held by a stopped worker.
  lemma StepExists(n: nat, s: State) returns (i: nat, z: State)
    requires Invariant(n, s) && !AllStopped(s)
    ensures i < |s.workers| && Step(n, s, i, z)
  {
    if 0 <= s.owner {
      i := s.owner;
      assert InMutex(s.workers[i]) <==> s.owner == i;
    } else {
      i :| 0 <= i < |s.workers| && !s.workers[i].Stopped?;
      assert InMutex(s.workers[i]) <==> s.owner == i;
    }
    match s.workers[i] {
      case Waiting => z := Set(s, i, Holding).(owner := i);
      case Holding => z := Set(s, i, Popped).(front := s.front + 1);
      case Popped => z := Set(s, i, Read(s.front));
      case Read(c) => z := Set(s, i, Deciding(c)).(owner := NOBODY);
      case Deciding(c) => z := if c < n then Set(s, i, Working(c)) else Set(s, i, Stopped(c));
      case Working(c) => z := Set(s, i, Waiting).(served := s.served + multiset{c});
    }
  }

  // Steps a worker takes before it needs another index.
  function Rank(w: Worker): nat {
    match w
    case Popped => 6
    case Read(_) => 5
    case Deciding(_) => 4
    case Working(_) => 3
    case Waiting => 2
    case Holding => 1
    case Stopped(_) => 0
  }

  function Ranks(ws: seq<Worker>): nat {
    if ws == [] then 0 else Rank(ws[0]) + Ranks(ws[1..])
  }

  lemma {:induction false} RanksUpdate(ws: seq<Worker>, i: nat, w: Worker)
    requires i < |ws|
    ensures Ranks(ws[i := w]) + Rank(ws[i]) == Ranks(ws) + Rank(w)
  {
    var us := ws[i := w];
    if i == 0 {
      assert us[1..] == ws[1..];
    } else {
      RanksUpdate(ws[1..], i - 1, w);
      assert us[1..] == ws[1..][i - 1 := w];
    }
  }

  // Every pop costs six of the measure and gives five back.
  function Left(n: nat, s: State): int {
    6 * (n + |s.workers| - 1 - s.front) + Ranks(s.workers)
  }

  lemma {:induction false} BusyAtMost(ws: seq<Worker>)
    ensures Busy(ws) <= |ws|
  {
    if ws != [] { BusyAtMost(ws[1..]); }
  }

  lemma ServedAtMost(n: nat, s: State)
    requires Invariant(n, s)
    ensures |s.served| <= n
  {
    forall c ensures s.served[c] <= EachOnce(n)[c] {
      assert Accounted(s, c);
    }
    assert s.served <= EachOnce(n);
    assert EachOnce(n) == s.served + (EachOnce(n) - s.served);
  }

  lemma StepDecreases(n: nat, s: State, i: nat, z: State)
    requires Invariant(n, s) && i < |s.workers| && Step(n, s, i, z)
    ensures 0 <= Left(n, z) < Left(n, s)
  {
    RanksUpdate(s.workers, i, z.workers[i]);
    InvariantStep(n, s, i, z);
    ServedAtMost(n, z);
    BusyAtMost(z.workers);
  }

  // No schedule runs for more than this many steps, and one that cannot go on has stopped all
  // workers.
  lemma {:induction false} RunsEnd(n: nat, s: State, moves: seq<nat>, z: State)
    requires Invariant(n, s) && Runs(n, s, moves, z)
    ensures |moves| <= Left(n, s)
    decreases |moves|
  {
    if moves == [] {
      ServedAtMost(n, s);
      BusyAtMost(s.workers);
    } else {
      var t :| Step(n, s, moves[0], t) && Runs(n, t, moves[1..], z);
      StepDecreases(n, s, moves[0], t);
      InvariantStep(n, s, moves[0], t);
      RunsEnd(n, t, moves[1..], z);
    }
  }
}
