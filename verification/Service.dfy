/**
 The whole thread server (hw4_simple-movies-recommendation-system/server.c:58-176): worker threads
 take requests from the shared counter, the sorting threads of each request work on its arrays,
 and one output is written for each. The steps of all these threads interleave in any order.
 */
module Service {
  import opened Titles
  import opened SortSpec
  import opened Recommend
  import SortCode
  import Dispatch
  import ThreadJoin
  import FJ = ForkJoin

  type Job = ThreadJoin.Config

  // `jobs` holds the arrays and the task tree of each worker's present or last Recommend, and
  // `outputs` what has been written, by the index of the request.
  datatype Server = Server(d: Dispatch.State, jobs: seq<Job>, outputs: map<int, seq<Text>>)

  ghost predicate Servable(db: seq<Movie>, reqs: seq<Request>) {
    forall c | 0 <= c < |reqs| :: Admissible(db, reqs[c]) && Selected(db, reqs[c]) != []
  }

  // Recommend(c) has filtered the movies and is about to sort.
  ghost predicate Begins(db: seq<Movie>, reqs: seq<Request>, c: int, job: Job)
    requires Servable(db, reqs)
  {
    && 0 <= c < |reqs| && Filtered(db, reqs[c], job.mem)
    && var n := |Selected(db, reqs[c])|; job.task == ThreadJoin.Start(Plan(n), 0, n)
  }

  // A worker that waits for its sorting threads.
  predicate Joining(w: Dispatch.Worker, job: Job) {
    w.Working? && !job.task.Finished?
  }

  // A step of one of the sorting threads.
  ghost predicate SortStep(job: Job, next: Job) {
    ThreadJoin.Sound(job.task, job.mem) && ThreadJoin.Step(job.task, job.mem, next.task, next.mem)
  }

  // What becomes of a worker's job and of the outputs when the worker itself steps to `next`.
  ghost predicate OwnStep(db: seq<Movie>, reqs: seq<Request>, w: Dispatch.Worker, next: Dispatch.Worker,
                          job: Job, next_job: Job, outputs: map<int, seq<Text>>, more: map<int, seq<Text>>)
    requires Servable(db, reqs)
  {
    match w
    case Working(c) =>
      next_job == job && ThreadJoin.Strings(job.mem) && more == outputs[c := Lines(ThreadJoin.Items(job.mem))]
    case Deciding(c) => more == outputs && if next.Working? then Begins(db, reqs, c, next_job) else next_job == job
    case _ => next_job == job && more == outputs
  }

  // A step of worker `i`, or of the threads that sort for it.
  ghost predicate Step(db: seq<Movie>, reqs: seq<Request>, s: Server, i: nat, z: Server)
    requires Servable(db, reqs)
  {
    && i < |s.d.workers| == |s.jobs| == |z.jobs| && z.jobs == s.jobs[i := z.jobs[i]]
    && if Joining(s.d.workers[i], s.jobs[i]) then
         z.d == s.d && z.outputs == s.outputs && SortStep(s.jobs[i], z.jobs[i])
       else
         && Dispatch.Step(|reqs|, s.d, i, z.d) && |z.d.workers| == |s.d.workers|
         && OwnStep(db, reqs, s.d.workers[i], z.d.workers[i], s.jobs[i], z.jobs[i], s.outputs, z.outputs)
  }

  ghost predicate SomeStep(db: seq<Movie>, reqs: seq<Request>, s: Server, z: Server)
    requires Servable(db, reqs)
  {
    exists i: nat :: Step(db, reqs, s, i, z)
  }

  // The states of a run, under any schedule of all threads.
  ghost predicate Run(db: seq<Movie>, reqs: seq<Request>, run: seq<Server>)
    requires Servable(db, reqs)
  {
    |run| > 0 && forall k | 0 <= k < |run| - 1 :: SomeStep(db, reqs, run[k], run[k + 1])
  }

  function Last(run: seq<Server>): Server
    requires run != []
  {
    run[|run| - 1]
  }

  const IDLE: Job := ThreadJoin.Config(ThreadJoin.Finished(0, 0), SortCode.View([], []))

  ghost predicate Init(s: Server, w: nat) {
    Dispatch.Init(s.d, w) && s.outputs == map[] && s.jobs == seq(w, i => IDLE)
  }

  // ---------- the invariant ----------

  // The lines for request `c`.
  ghost predicate Written(db: seq<Movie>, reqs: seq<Request>, c: int, out: seq<Text>)
    requires Servable(db, reqs)
  {
    0 <= c < |reqs| && out == Lines(Sorted(Selected(db, reqs[c])))
  }

  // Exactly the served requests have an output, and it is theirs.
  ghost predicate Answered(db: seq<Movie>, reqs: seq<Request>, outputs: map<int, seq<Text>>, served: multiset<int>)
    requires Servable(db, reqs)
  {
    && (forall c :: c in outputs <==> served[c] > 0)
    && forall c | c in outputs :: Written(db, reqs, c, outputs[c])
  }

  // The task tree is about to leave the list `all`, of `n` items, in the arrays.
  ghost predicate Leaves(job: Job, n: nat, all: seq<Item>) {
    && ThreadJoin.Sound(job.task, job.mem) && |ThreadJoin.Items(job.mem)| == n
    && var t, m := ThreadJoin.Abs(job.task), ThreadJoin.Items(job.mem);
       FJ.Lo(t) == 0 && FJ.Hi(t) == n && FJ.Outcome(t, m) == all
  }

  // The job of a worker sorts the matches of the worker's request.
  ghost predicate Fits(db: seq<Movie>, reqs: seq<Request>, w: Dispatch.Worker, job: Job)
    requires Servable(db, reqs)
  {
    && ThreadJoin.Fine(job.task)
    && (w.Working? ==>
         0 <= w.cur < |reqs| && Leaves(job, |Selected(db, reqs[w.cur])|, Sorted(Selected(db, reqs[w.cur]))))
  }

  ghost predicate Invariant(db: seq<Movie>, reqs: seq<Request>, s: Server)
    requires Servable(db, reqs)
  {
    && Dispatch.Invariant(|reqs|, s.d) && |s.jobs| == |s.d.workers|
    && (forall i | 0 <= i < |s.jobs| :: Fits(db, reqs, s.d.workers[i], s.jobs[i]))
    && Answered(db, reqs, s.outputs, s.d.served)
  }

  lemma BeginsFits(db: seq<Movie>, reqs: seq<Request>, c: int, job: Job)
    requires Servable(db, reqs) && Begins(db, reqs, c, job)
    ensures Fits(db, reqs, Dispatch.Working(c), job)
  {
    var s := Selected(db, reqs[c]);
    FilteredItems(db, reqs[c], job.mem);
    ThreadJoin.StartAbs(Plan(|s|), 0, |s|);
    FJ.StartSound(Plan(|s|), 0, |s|, s);
    PlanSorts(s);
    assert s[0..|s|] == s;
  }

  lemma SortStepLeaves(job: Job, next: Job, n: nat, all: seq<Item>)
    requires Leaves(job, n, all) && SortStep(job, next)
    ensures Leaves(next, n, all) && ThreadJoin.Left(job.task) == ThreadJoin.Left(next.task) + 1
  {
    ThreadJoin.StepRefines(job.task, job.mem, next.task, next.mem);
    ThreadJoin.StepCounts(job.task, job.mem, next.task, next.mem);
    FJ.StepKeeps(ThreadJoin.Abs(job.task), ThreadJoin.Items(job.mem),
                 ThreadJoin.Abs(next.task), ThreadJoin.Items(next.mem));
  }

  lemma FinishedLeaves(job: Job, n: nat, all: seq<Item>)
    requires Leaves(job, n, all) && job.task.Finished?
    ensures ThreadJoin.Strings(job.mem) && ThreadJoin.Items(job.mem) == all
  {
    var m := ThreadJoin.Items(job.mem);
    assert m[0..n] == m;
  }

  lemma ServedAfter(n: nat, s: Dispatch.State, i: nat, z: Dispatch.State)
    requires i < |s.workers| && Dispatch.Step(n, s, i, z)
    ensures z.served == if s.workers[i].Working? then s.served + multiset{s.workers[i].cur} else s.served
    ensures z.workers == s.workers[i := z.workers[i]]
    ensures z.workers[i].Working? ==> s.workers[i] == Dispatch.Deciding(z.workers[i].cur)
  {}

  lemma OutputAdded(db: seq<Movie>, reqs: seq<Request>, outputs: map<int, seq<Text>>, served: multiset<int>,
                    c: int, out: seq<Text>)
    requires Servable(db, reqs) && Answered(db, reqs, outputs, served) && Written(db, reqs, c, out)
    ensures Answered(db, reqs, outputs[c := out], served + multiset{c})
  {
    var more := outputs[c := out];
    forall e | e in more ensures Written(db, reqs, e, more[e]) {
      if e != c { assert e in outputs; }
    }
  }

  lemma OwnStepFits(db: seq<Movie>, reqs: seq<Request>, s: Server, i: nat, z: Server)
    requires Servable(db, reqs) && Invariant(db, reqs, s) && Step(db, reqs, s, i, z)
    requires !Joining(s.d.workers[i], s.jobs[i])
    ensures Fits(db, reqs, z.d.workers[i], z.jobs[i]) && Answered(db, reqs, z.outputs, z.d.served)
  {
    ServedAfter(|reqs|, s.d, i, z.d);
    assert Fits(db, reqs, s.d.workers[i], s.jobs[i]);
    if s.d.workers[i].Working? {
      var c := s.d.workers[i].cur;
      var all := Sorted(Selected(db, reqs[c]));
      FinishedLeaves(s.jobs[i], |Selected(db, reqs[c])|, all);
      OutputAdded(db, reqs, s.outputs, s.d.served, c, Lines(all));
    } else if z.d.workers[i].Working? {
      BeginsFits(db, reqs, z.d.workers[i].cur, z.jobs[i]);
    }
  }

  lemma SortStepFits(db: seq<Movie>, reqs: seq<Request>, w: Dispatch.Worker, job: Job, next: Job)
    requires Servable(db, reqs) && Fits(db, reqs, w, job) && Joining(w, job) && SortStep(job, next)
    ensures Fits(db, reqs, w, next) && ThreadJoin.Left(job.task) == ThreadJoin.Left(next.task) + 1
  {
    var s := Selected(db, reqs[w.cur]);
    SortStepLeaves(job, next, |s|, Sorted(s));
  }

  // Every step of a worker or of a sorting thread keeps the whole server sound.
  lemma InvariantStep(db: seq<Movie>, reqs: seq<Request>, s: Server, i: nat, z: Server)
    requires Servable(db, reqs) && Invariant(db, reqs, s) && Step(db, reqs, s, i, z)
    ensures Invariant(db, reqs, z)
  {
    assert Fits(db, reqs, s.d.workers[i], s.jobs[i]);
    if Joining(s.d.workers[i], s.jobs[i]) {
      SortStepFits(db, reqs, s.d.workers[i], s.jobs[i], z.jobs[i]);
    } else {
      ServedAfter(|reqs|, s.d, i, z.d);
      Dispatch.InvariantStep(|reqs|, s.d, i, z.d);
      OwnStepFits(db, reqs, s, i, z);
    }
    forall j | 0 <= j < |z.jobs| ensures Fits(db, reqs, z.d.workers[j], z.jobs[j]) {
      if j != i { assert Fits(db, reqs, s.d.workers[j], s.jobs[j]); }
    }
  }

  lemma InvariantInit(db: seq<Movie>, reqs: seq<Request>, w: nat, s: Server)
    requires Servable(db, reqs) && Init(s, w)
    ensures Invariant(db, reqs, s)
  {
    Dispatch.InvariantInit(|reqs|, w, s.d);
  }

  // ---------- answers ----------

  // Without the steps of the sorting threads, the workers run as in Dispatch.
  lemma {:induction false} RunAnswered(db: seq<Movie>, reqs: seq<Request>, run: seq<Server>) returns (own: seq<nat>)
    requires Servable(db, reqs) && Run(db, reqs, run) && Invariant(db, reqs, run[0])
    ensures Invariant(db, reqs, Last(run)) && Dispatch.Runs(|reqs|, run[0].d, own, Last(run).d)
    decreases |run|
  {
    own := [];
    if |run| > 1 {
      assert SomeStep(db, reqs, run[0], run[0 + 1]);
      SomeStepKeeps(db, reqs, run[0], run[1]);
      RunRest(db, reqs, run);
      own := RunAnswered(db, reqs, run[1..]);
      own := Prepended(db, reqs, run[0], run[1], own, Last(run).d);
    }
  }

  lemma RunRest(db: seq<Movie>, reqs: seq<Request>, run: seq<Server>)
    requires Servable(db, reqs) && Run(db, reqs, run) && |run| > 1
    ensures Run(db, reqs, run[1..]) && run[1..][0] == run[1] && Last(run[1..]) == Last(run)
  {
    forall k | 0 <= k < |run[1..]| - 1 ensures SomeStep(db, reqs, run[1..][k], run[1..][k + 1]) {
      assert SomeStep(db, reqs, run[k + 1], run[k + 1 + 1]);
    }
  }

  lemma Prepended(db: seq<Movie>, reqs: seq<Request>, s: Server, t: Server, own: seq<nat>, z: Dispatch.State)
      returns (all: seq<nat>)
    requires Servable(db, reqs) && SomeStep(db, reqs, s, t) && Dispatch.Runs(|reqs|, t.d, own, z)
    ensures Dispatch.Runs(|reqs|, s.d, all, z)
  {
    var i: nat :| Step(db, reqs, s, i, t);
    all := own;
    if !Joining(s.d.workers[i], s.jobs[i]) {
      all := [i] + own;
      assert all[0] == i && all[1..] == own;
    }
  }

  lemma SomeStepKeeps(db: seq<Movie>, reqs: seq<Request>, s: Server, z: Server)
    requires Servable(db, reqs) && Invariant(db, reqs, s) && SomeStep(db, reqs, s, z)
    ensures Invariant(db, reqs, z)
  {
    var i: nat :| Step(db, reqs, s, i, z);
    InvariantStep(db, reqs, s, i, z);
  }

  // Any number of workers under any schedule of all threads: when all workers have stopped, every
  // request has been served once, and its output is the recommendation for its matching movies.
  lemma EveryRequestAnswered(db: seq<Movie>, reqs: seq<Request>, w: nat, run: seq<Server>)
    requires Servable(db, reqs) && w >= 1 && Run(db, reqs, run) && Init(run[0], w)
    requires Dispatch.AllStopped(Last(run).d)
    ensures Last(run).d.served == Dispatch.EachOnce(|reqs|)
    ensures forall c :: c in Last(run).outputs <==> 0 <= c < |reqs|
    ensures forall c | 0 <= c < |reqs| :: Last(run).outputs[c] == Lines(Sorted(Selected(db, reqs[c])))
    ensures forall c | 0 <= c < |reqs| :: Recommends(db, reqs[c], Last(run).outputs[c])
    ensures forall c | 0 <= c < |reqs| && reqs[c].keywords == [42] ::
              multiset(Last(run).outputs[c]) == multiset(AllLines(db))
    ensures forall c | 0 <= c < |reqs| && CompatibleTitles(Selected(db, reqs[c])) ::
              Last(run).outputs[c] == Recommendation(Selected(db, reqs[c]))
  {
    var z := Last(run);
    InvariantInit(db, reqs, w, run[0]);
    var own := RunAnswered(db, reqs, run);
    Dispatch.AllServedOnce(|reqs|, w, run[0].d, own, z.d);
    forall c | 0 <= c < |reqs|
      ensures c in z.outputs && z.outputs[c] == Lines(Sorted(Selected(db, reqs[c])))
      ensures Recommends(db, reqs[c], z.outputs[c])
      ensures reqs[c].keywords == [42] ==> multiset(z.outputs[c]) == multiset(AllLines(db))
      ensures CompatibleTitles(Selected(db, reqs[c])) ==> z.outputs[c] == Recommendation(Selected(db, reqs[c]))
    {
      assert z.d.served[c] == 1;
      assert Written(db, reqs, c, z.outputs[c]);
      SortedRecommends(Selected(db, reqs[c]));
      Recommended(db, reqs[c]);
    }
  }

  // ---------- all schedules end ----------

  function Height(d: Depth): nat {
    if d.Bottom? then 0 else 1 + Height(d.below)
  }

  // The number of steps that sorting `n` items in a tree of tasks takes.
  function Cost(d: Depth, n: nat): nat {
    n * (1 + 2 * Height(d)) + 4 * Pow2(d) - 3
  }

  lemma {:induction false} StartCosts(d: Depth, lo: nat, hi: nat)
    requires lo <= hi
    ensures FJ.Lo(FJ.Start(d, lo, hi)) == lo && FJ.Hi(FJ.Start(d, lo, hi)) == hi
    ensures FJ.Left(FJ.Start(d, lo, hi)) == Cost(d, hi - lo)
    decreases d
  {
    if d.Fork? {
      var e, mid := d.below, lo + (hi - lo) / 2;
      StartCosts(e, lo, mid);
      StartCosts(e, mid, hi);
      Halves(mid - lo, hi - mid, 1 + 2 * Height(e));
    }
  }

  lemma Halves(a: nat, b: nat, k: nat)
    ensures a * k + b * k + 2 * (a + b) == (a + b) * (k + 2)
  {}

  // No sort takes more steps than this.
  function Work(db: seq<Movie>): nat {
    11 * |db| + 125
  }

  lemma PlanCosts(n: nat)
    ensures Cost(Plan(n), n) <= 11 * n + 125
  {
    TreeSize();
    assert Height(Levels(0)) == 0 && Height(Levels(1)) == 1 && Height(Levels(2)) == 2 && Height(Levels(3)) == 3;
    assert Height(Levels(4)) == 4 && Height(Levels(5)) == 5;
  }

  lemma BeginsCosts(db: seq<Movie>, reqs: seq<Request>, c: int, job: Job)
    requires Servable(db, reqs) && Begins(db, reqs, c, job)
    ensures ThreadJoin.Fine(job.task) && ThreadJoin.Left(job.task) <= Work(db)
  {
    var n := |Selected(db, reqs[c])|;
    ThreadJoin.StartAbs(Plan(n), 0, n);
    StartCosts(Plan(n), 0, n);
    PlanCosts(n);
  }

  function Left(job: Job): nat {
    if ThreadJoin.Fine(job.task) then ThreadJoin.Left(job.task) else 0
  }

  function Lefts(jobs: seq<Job>): nat {
    if jobs == [] then 0 else Left(jobs[0]) + Lefts(jobs[1..])
  }

  lemma {:induction false} LeftsUpdate(jobs: seq<Job>, i: nat, job: Job)
    requires i < |jobs|
    ensures Lefts(jobs[i := job]) + Left(jobs[i]) == Lefts(jobs) + Left(job)
  {
    var more := jobs[i := job];
    if i == 0 {
      assert more[1..] == jobs[1..];
    } else {
      LeftsUpdate(jobs[1..], i - 1, job);
      assert more[1..] == jobs[1..][i - 1 := job];
    }
  }

  // A worker's own step pays for the sort it may begin.
  function Measure(db: seq<Movie>, n: nat, s: Server): int {
    (Work(db) + 1) * Dispatch.Left(n, s.d) + Lefts(s.jobs)
  }

  lemma {:induction false} Pays(k: nat, a: nat, b: nat)
    requires a < b
    ensures k * a + k <= k * b && 0 <= k * a
    decreases b
  {
    assert k * b == k * (b - 1) + k;
    if a < b - 1 { Pays(k, a, b - 1); }
  }

  lemma OwnStepCosts(db: seq<Movie>, reqs: seq<Request>, s: Server, i: nat, z: Server)
    requires Servable(db, reqs) && Step(db, reqs, s, i, z) && !Joining(s.d.workers[i], s.jobs[i])
    ensures Lefts(z.jobs) <= Lefts(s.jobs) + Work(db)
  {
    LeftsUpdate(s.jobs, i, z.jobs[i]);
    if z.d.workers[i].Working? {
      ServedAfter(|reqs|, s.d, i, z.d);
      BeginsCosts(db, reqs, z.d.workers[i].cur, z.jobs[i]);
    } else {
      assert z.jobs[i] == s.jobs[i];
    }
  }

  lemma StepCosts(db: seq<Movie>, reqs: seq<Request>, s: Server, i: nat, z: Server)
    requires Servable(db, reqs) && Invariant(db, reqs, s) && Step(db, reqs, s, i, z)
    ensures Measure(db, |reqs|, z) < Measure(db, |reqs|, s)
  {
    if Joining(s.d.workers[i], s.jobs[i]) {
      assert Fits(db, reqs, s.d.workers[i], s.jobs[i]);
      SortStepFits(db, reqs, s.d.workers[i], s.jobs[i], z.jobs[i]);
      LeftsUpdate(s.jobs, i, z.jobs[i]);
    } else {
      Dispatch.StepDecreases(|reqs|, s.d, i, z.d);
      OwnStepCosts(db, reqs, s, i, z);
      Pays(Work(db) + 1, Dispatch.Left(|reqs|, z.d), Dispatch.Left(|reqs|, s.d));
    }
  }

  lemma SomeStepCosts(db: seq<Movie>, reqs: seq<Request>, s: Server, z: Server)
    requires Servable(db, reqs) && Invariant(db, reqs, s) && SomeStep(db, reqs, s, z)
    ensures Invariant(db, reqs, z) && Measure(db, |reqs|, z) < Measure(db, |reqs|, s)
  {
    var i: nat :| Step(db, reqs, s, i, z);
    StepCosts(db, reqs, s, i, z);
    SomeStepKeeps(db, reqs, s, z);
  }

  lemma MeasureNonNegative(db: seq<Movie>, reqs: seq<Request>, s: Server)
    requires Servable(db, reqs) && Invariant(db, reqs, s)
    ensures Measure(db, |reqs|, s) >= 0
  {
    Dispatch.RunsEnd(|reqs|, s.d, [], s.d);
    Pays(Work(db) + 1, Dispatch.Left(|reqs|, s.d), Dispatch.Left(|reqs|, s.d) + 1);
  }

  lemma {:induction false} RunCosts(db: seq<Movie>, reqs: seq<Request>, run: seq<Server>, n: nat)
    requires Servable(db, reqs) && Run(db, reqs, run) && Invariant(db, reqs, run[0]) && n < |run|
    ensures Invariant(db, reqs, run[n]) && n + Measure(db, |reqs|, run[n]) <= Measure(db, |reqs|, run[0])
  {
    if n > 0 {
      RunCosts(db, reqs, run, n - 1);
      assert SomeStep(db, reqs, run[n - 1], run[n - 1 + 1]);
      SomeStepCosts(db, reqs, run[n - 1], run[n]);
    }
  }

  lemma {:induction false} RanksWaiting(ws: seq<Dispatch.Worker>)
    requires forall i | 0 <= i < |ws| :: ws[i] == Dispatch.Waiting
    ensures Dispatch.Ranks(ws) == 2 * |ws|
  {
    if ws != [] {
      assert ws[0] == Dispatch.Waiting;
      RanksWaiting(ws[1..]);
    }
  }

  lemma {:induction false} IdleJobs(jobs: seq<Job>)
    requires forall i | 0 <= i < |jobs| :: jobs[i] == IDLE
    ensures Lefts(jobs) == 0
  {
    if jobs != [] {
      assert jobs[0] == IDLE;
      IdleJobs(jobs[1..]);
    }
  }

  // No schedule of all threads runs for more than this many steps.
  lemma RunsBounded(db: seq<Movie>, reqs: seq<Request>, w: nat, run: seq<Server>)
    requires Servable(db, reqs) && Run(db, reqs, run) && Init(run[0], w)
    ensures |run| - 1 <= (11 * |db| + 126) * (6 * |reqs| + 8 * w)
  {
    InvariantInit(db, reqs, w, run[0]);
    RunCosts(db, reqs, run, |run| - 1);
    MeasureNonNegative(db, reqs, Last(run));
    RanksWaiting(run[0].d.workers);
    IdleJobs(run[0].jobs);
    assert Dispatch.Left(|reqs|, run[0].d) == 6 * |reqs| + 8 * w;
  }

  // ---------- no schedule gets stuck ----------

  lemma Startable(db: seq<Movie>, reqs: seq<Request>, c: int) returns (job: Job)
    requires Servable(db, reqs) && 0 <= c < |reqs|
    ensures Begins(db, reqs, c, job)
  {
    var s := Selected(db, reqs[c]);
    var v := SortCode.View(seq(|s|, k requires 0 <= k < |s| => SortCode.Private(s[k].title)),
                           seq(|s|, k requires 0 <= k < |s| => s[k].score));
    assert SortCode.Holds([], v, 0, |s|, 0, s);
    assert v.ms[..|s|] == v.ms && v.ps[..|s|] == v.ps;
    job := ThreadJoin.Config(ThreadJoin.Start(Plan(|s|), 0, |s|), v);
  }

  // The server can go on until all workers have stopped.
  lemma ServerStep(db: seq<Movie>, reqs: seq<Request>, s: Server) returns (i: nat, z: Server)
    requires Servable(db, reqs) && Invariant(db, reqs, s) && !Dispatch.AllStopped(s.d)
    ensures Step(db, reqs, s, i, z)
  {
    var d;
    i, d := Dispatch.StepExists(|reqs|, s.d);
    var w, job := s.d.workers[i], s.jobs[i];
    assert Fits(db, reqs, w, job);
    ServedAfter(|reqs|, s.d, i, d);
    if Joining(w, job) {
      var t, m := ThreadJoin.StepExists(job.task, job.mem);
      z := Server(s.d, s.jobs[i := ThreadJoin.Config(t, m)], s.outputs);
    } else if w.Working? {
      z := Server(d, s.jobs, s.outputs[w.cur := Lines(ThreadJoin.Items(job.mem))]);
    } else if d.workers[i].Working? {
      Dispatch.InvariantStep(|reqs|, s.d, i, d);
      Dispatch.WorkingInRange(|reqs|, d, i);
      var next := Startable(db, reqs, w.cur);
      z := Server(d, s.jobs[i := next], s.outputs);
    } else {
      z := Server(d, s.jobs, s.outputs);
    }
  }

  lemma RunMore(db: seq<Movie>, reqs: seq<Request>, run: seq<Server>, z: Server)
    requires Servable(db, reqs) && Run(db, reqs, run) && SomeStep(db, reqs, Last(run), z)
    ensures Run(db, reqs, run + [z]) && Last(run + [z]) == z
  {
    var all := run + [z];
    forall k | 0 <= k < |all| - 1 ensures SomeStep(db, reqs, all[k], all[k + 1]) {
      if k < |run| - 1 { assert SomeStep(db, reqs, run[k], run[k + 1]); }
    }
  }

  lemma {:induction false} Completed(db: seq<Movie>, reqs: seq<Request>, run: seq<Server>) returns (more: seq<Server>)
    requires Servable(db, reqs) && Run(db, reqs, run) && Invariant(db, reqs, Last(run))
    ensures Run(db, reqs, run + more) && Dispatch.AllStopped(Last(run + more).d)
    decreases Measure(db, |reqs|, Last(run))
  {
    var z := Last(run);
    MeasureNonNegative(db, reqs, z);
    if Dispatch.AllStopped(z.d) {
      more := [];
      assert run + more == run;
    } else {
      var i, t := ServerStep(db, reqs, z);
      SomeStepCosts(db, reqs, z, t);
      RunMore(db, reqs, run, t);
      var rest := Completed(db, reqs, run + [t]);
      more := [t] + rest;
      assert run + more == run + [t] + rest;
    }
  }

  // Whatever has happened so far, the server can go on until every worker has stopped.
  lemma RunsComplete(db: seq<Movie>, reqs: seq<Request>, w: nat, run: seq<Server>) returns (more: seq<Server>)
    requires Servable(db, reqs) && Run(db, reqs, run) && Init(run[0], w)
    ensures Run(db, reqs, run + more) && Dispatch.AllStopped(Last(run + more).d)
  {
    InvariantInit(db, reqs, w, run[0]);
    RunCosts(db, reqs, run, |run| - 1);
    more := Completed(db, reqs, run);
  }
}
