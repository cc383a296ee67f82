/**
 The thread functions as resumable computations (hw3_thread-library/threads.c): one burst runs
 from a saved environment to the next thread_yield, async_read or thread_exit, and keeps what it
 needs in the tcb.
 */
module Threads {

  datatype Body = Fibonacci | Collatz | MaxSubarray

  // Where the saved environment goes on: at the start, after a yield, after an async_read.
  datatype Point = Start | Yielded | Reading

  datatype Thread = Thread(body: Body, arg: nat, i: int, x: int, y: int, at: Point)

  // What a burst ends with.
  datatype Call = Yield | Await | Quit

  datatype Burst = Burst(t: Thread, printed: seq<int>, call: Call)

  function Created(body: Body, arg: nat): Thread {
    Thread(body, arg, 0, 0, 0, Start)
  }

  function Max(a: int, b: int): int {
    if a > b then a else b
  }

  function CollatzStep(c: int): int {
    if c % 2 == 0 then c / 2 else c * 3 + 1
  }

  function YieldUnless(done: bool): Call {
    if done then Quit else Yield
  }

  // One burst; `num` is the number that read finds, when the thread resumes from async_read.
  function Resume(t: Thread, num: int): Burst {
    match t.body
    case Fibonacci =>
      var i := if t.at == Start then 1 else t.i + 1;
      var y := if i <= 2 then 1 else t.x + t.y;
      var x := if i <= 2 then 1 else t.y;
      Burst(t.(i := i, x := x, y := y, at := Yielded), [y], YieldUnless(i == t.arg))
    case Collatz =>
      var i := CollatzStep(if t.at == Start then t.arg else t.i);
      Burst(t.(i := i, at := Yielded), [i], YieldUnless(i == 1))
    case MaxSubarray =>
      if t.at != Reading then
        Burst(t.(i := if t.at == Start then 1 else t.i + 1, at := Reading), [], Await)
      else
        var y := Max(num, t.y + num);
        var x := Max(t.x, y);
        Burst(t.(x := x, y := y, at := Yielded), [x], YieldUnless(t.i == t.arg))
  }

  // ---------- a thread on its own ----------

  // What was printed, how many inputs were read, how the last burst ended, and how many bursts
  // there have been.
  datatype Trace = Trace(t: Thread, printed: seq<int>, used: nat, call: Call, bursts: nat)

  function Extend(s: Trace, num: int): Trace {
    var b := Resume(s.t, num);
    Trace(b.t, s.printed + b.printed, s.used + (if s.t.at == Reading then 1 else 0), b.call, s.bursts + 1)
  }

  // The thread has exited, or waits for an input that does not come.
  predicate Halted(s: Trace, nums: seq<int>) {
    s.call == Quit || (s.t.at == Reading && s.used >= |nums|)
  }

  // One more burst, on the next input if it reads one; a halted thread stays as it is.
  function Continue(s: Trace, nums: seq<int>): Trace {
    if Halted(s, nums) then s else Extend(s, if s.t.at == Reading then nums[s.used] else 0)
  }

  // The run of a thread alone on the input numbers `nums`, for `k` bursts or until it halts.
  function Solo(t: Thread, k: nat, nums: seq<int>): Trace {
    if k == 0 then Trace(t, [], 0, Yield, 0)
    else Continue(Solo(t, k - 1, nums), nums)
  }

  lemma {:induction false} SoloBursts(t: Thread, k: nat, nums: seq<int>)
    ensures var s := Solo(t, k, nums); s.bursts <= k && (s.bursts < k ==> Halted(s, nums))
  {
    if k > 0 { SoloBursts(t, k - 1, nums); }
  }

  // A run that has halted is the run up to its last burst.
  lemma {:induction false} SoloStays(t: Thread, k: nat, nums: seq<int>)
    ensures Solo(t, k, nums).bursts <= k && Solo(t, Solo(t, k, nums).bursts, nums) == Solo(t, k, nums)
  {
    SoloBursts(t, k, nums);
    if k > 0 {
      SoloBursts(t, k - 1, nums);
      SoloStays(t, k - 1, nums);
    }
  }

  // As long as it does not halt, a thread does not notice inputs that come later.
  lemma {:induction false} SoloSame(t: Thread, k: nat, nums: seq<int>, more: seq<int>)
    requires nums <= more && Solo(t, k, nums).bursts == k
    ensures Solo(t, k, more) == Solo(t, k, nums)
  {
    if k > 0 {
      SoloBursts(t, k - 1, nums);
      SoloSame(t, k - 1, nums, more);
    }
  }

  // Further bursts only add to what is printed, and nothing after an exit.
  lemma {:induction false} SoloGrows(t: Thread, k: nat, n: nat, nums: seq<int>)
    requires k <= n
    ensures Solo(t, k, nums).printed <= Solo(t, n, nums).printed
    ensures Solo(t, k, nums).call == Quit ==> Solo(t, n, nums) == Solo(t, k, nums)
    decreases n
  {
    if k < n { SoloGrows(t, k, n - 1, nums); }
  }

  // More bursts and more inputs only add to what is printed, and nothing after an exit.
  lemma SoloPrefix(t: Thread, k: nat, nums: seq<int>, n: nat, more: seq<int>)
    requires k <= n && nums <= more
    ensures Solo(t, k, nums).printed <= Solo(t, n, more).printed
    ensures Solo(t, k, nums).call == Quit ==> Solo(t, n, more) == Solo(t, k, nums)
  {
    SoloStays(t, k, nums);
    var j := Solo(t, k, nums).bursts;
    SoloSame(t, j, nums, more);
    SoloGrows(t, j, n, more);
  }

  // ---------- what the functions compute ----------

  function Fib(n: nat): nat {
    if n <= 1 then n else Fib(n - 1) + Fib(n - 2)
  }

  function Fibs(n: nat): (s: seq<int>)
    ensures |s| == n
  {
    seq(n, j requires 0 <= j < n => Fib(j + 1))
  }

  // The state of fibonacci between two bursts: it exits exactly when it has printed `arg` lines.
  ghost predicate FibState(s: Trace, arg: nat) {
    var k := s.bursts;
    && s.t.body == Fibonacci && s.t.arg == arg && s.used == 0 && s.printed == Fibs(k)
    && (s.t.at == Start <==> k == 0) && s.t.at != Reading
    && (k >= 1 ==> s.t.i == k && s.t.y == Fib(k)) && (k >= 2 ==> s.t.x == Fib(k - 1))
    && (arg >= 1 ==> k <= arg) && (s.call == Quit <==> k == arg >= 1)
  }

  lemma FibStep(s: Trace, arg: nat, num: int)
    requires FibState(s, arg) && s.call != Quit
    ensures FibState(Extend(s, num), arg)
  {
    var z, k := Extend(s, num), s.bursts;
    assert z.t.y == Fib(k + 1) by {
      if k >= 2 { assert Fib(k + 1) == Fib(k) + Fib(k - 1); }
    }
    assert Fibs(k + 1) == Fibs(k) + [Fib(k + 1)];
  }

  lemma {:induction false} FibonacciRun(arg: nat, k: nat, nums: seq<int>)
    ensures FibState(Solo(Created(Fibonacci, arg), k, nums), arg)
  {
    if k > 0 {
      FibonacciRun(arg, k - 1, nums);
      var s := Solo(Created(Fibonacci, arg), k - 1, nums);
      if s.call != Quit { FibStep(s, arg, 0); }
    }
  }

  // Alone, fibonacci prints F(1), F(2), ..., up to F(arg) and no further.
  lemma FibonacciSolo(arg: nat, k: nat, nums: seq<int>)
    ensures FibState(Solo(Created(Fibonacci, arg), k, nums), arg)
    ensures Solo(Created(Fibonacci, arg), k, nums).printed == Fibs(if 1 <= arg < k then arg else k)
  {
    FibonacciRun(arg, k, nums);
    SoloBursts(Created(Fibonacci, arg), k, nums);
  }

  // `n` steps from `c`.
  function Iterate(c: int, n: nat): int {
    if n == 0 then c else CollatzStep(Iterate(c, n - 1))
  }

  function Iterates(c: int, n: nat): (s: seq<int>)
    ensures |s| == n
  {
    seq(n, j requires 0 <= j < n => Iterate(c, j + 1))
  }

  // No 1 among the first `n` iterates.
  predicate NoOne(c: int, n: nat) {
    forall j | 1 <= j <= n :: Iterate(c, j) != 1
  }

  // The state of collatz between two bursts: it exits exactly when it has printed its first 1.
  ghost predicate CollatzState(s: Trace, arg: nat) {
    var k := s.bursts;
    && s.t.body == Collatz && s.t.arg == arg && s.used == 0 && s.printed == Iterates(arg, k)
    && (s.t.at == Start <==> k == 0) && s.t.at != Reading && (k >= 1 ==> s.t.i == Iterate(arg, k))
    && (s.call == Quit ==> k >= 1 && Iterate(arg, k) == 1 && NoOne(arg, k - 1))
    && (s.call != Quit ==> NoOne(arg, k))
  }

  lemma CollatzNext(s: Trace, arg: nat, num: int)
    requires CollatzState(s, arg) && s.call != Quit
    ensures CollatzState(Extend(s, num), arg)
  {
    var k := s.bursts;
    assert Extend(s, num).t.i == Iterate(arg, k + 1);
    assert Iterates(arg, k + 1) == Iterates(arg, k) + [Iterate(arg, k + 1)];
  }

  // Every number of `p` but the first is half of an even one before it, or three times an odd one and
  // one more.
  predicate Follows(p: seq<int>) {
    forall j | 0 <= j < |p| - 1 ::
      (p[j] % 2 == 0 ==> p[j] == 2 * p[j + 1]) && (p[j] % 2 != 0 ==> p[j + 1] == 3 * p[j] + 1)
  }

  lemma IteratesFollow(c: int, n: nat)
    ensures Follows([c] + Iterates(c, n))
  {
    var p := [c] + Iterates(c, n);
    forall j | 0 <= j < n
      ensures (p[j] % 2 == 0 ==> p[j] == 2 * p[j + 1]) && (p[j] % 2 != 0 ==> p[j + 1] == 3 * p[j] + 1)
    {
      assert p[j] == Iterate(c, j) && p[j + 1] == Iterate(c, j + 1);
    }
  }

  lemma {:induction false} CollatzRun(arg: nat, k: nat, nums: seq<int>)
    ensures CollatzState(Solo(Created(Collatz, arg), k, nums), arg)
  {
    if k > 0 {
      CollatzRun(arg, k - 1, nums);
      var s := Solo(Created(Collatz, arg), k - 1, nums);
      if s.call != Quit { CollatzNext(s, arg, 0); }
    }
  }

  // Alone, collatz prints the iterates up to the first 1 and no further.
  lemma CollatzSolo(arg: nat, k: nat, nums: seq<int>)
    ensures var s := Solo(Created(Collatz, arg), k, nums);
            CollatzState(s, arg) && (s.bursts == k || s.call == Quit) && Follows([arg] + s.printed)
  {
    CollatzRun(arg, k, nums);
    IteratesFollow(arg, Solo(Created(Collatz, arg), k, nums).bursts);
    SoloBursts(Created(Collatz, arg), k, nums);
  }

  lemma FirstOne(arg: int, p: seq<int>, quit: bool)
    requires p == Iterates(arg, |p|) && (quit ==> p != [] && Iterate(arg, |p|) == 1 && NoOne(arg, |p| - 1))
    requires !quit ==> NoOne(arg, |p|)
    ensures OneLast(p, quit)
  {
    forall j | 0 <= j < |p| - 1 ensures p[j] != 1 { assert Iterate(arg, j + 1) != 1; }
  }

  // No 1 is printed before the last line, and the thread has exited exactly if that line is a 1.
  predicate OneLast(p: seq<int>, quit: bool) {
    (forall j | 0 <= j < |p| - 1 :: p[j] != 1) && (quit <==> p != [] && p[|p| - 1] == 1)
  }

  lemma CollatzLines(arg: nat, k: nat, nums: seq<int>)
    ensures var s := Solo(Created(Collatz, arg), k, nums);
            && s.printed == Iterates(arg, |s.printed|) && Follows([arg] + s.printed)
            && OneLast(s.printed, s.call == Quit)
  {
    CollatzRun(arg, k, nums);
    IteratesFollow(arg, Solo(Created(Collatz, arg), k, nums).bursts);
    var s := Solo(Created(Collatz, arg), k, nums);
    FirstOne(arg, s.printed, s.call == Quit);
  }

  function Sum(s: seq<int>): int {
    if s == [] then 0 else Sum(s[..|s| - 1]) + s[|s| - 1]
  }

  // `v` is the greatest sum of a contiguous part of `s`, the empty one included.
  ghost predicate BestPart(s: seq<int>, v: int) {
    && (exists a, b | 0 <= a <= b <= |s| :: Sum(s[a..b]) == v)
    && forall a, b | 0 <= a <= b <= |s| :: Sum(s[a..b]) <= v
  }

  // `v` is the greatest sum of a part that ends where `s` ends, the empty one included if `s`
  // is empty.
  ghost predicate BestEnd(s: seq<int>, v: int) {
    && (exists a | 0 <= a <= |s| && (a < |s| || s == []) :: Sum(s[a..]) == v)
    && forall a | 0 <= a < |s| :: Sum(s[a..]) <= v
  }

  lemma SumLast(s: seq<int>, num: int, a: nat)
    requires a <= |s|
    ensures Sum((s + [num])[a..]) == Sum(s[a..]) + num
  {
    var p := (s + [num])[a..];
    assert p[..|p| - 1] == s[a..];
  }

  lemma BestEndMore(s: seq<int>, num: int, y: int)
    requires BestEnd(s, y)
    ensures BestEnd(s + [num], Max(num, y + num))
  {
    var z := s + [num];
    forall a | 0 <= a < |z| ensures Sum(z[a..]) <= Max(num, y + num) {
      SumLast(s, num, a);
    }
    SumLast(s, num, |s|);
    var a :| 0 <= a <= |s| && (a < |s| || s == []) && Sum(s[a..]) == y;
    SumLast(s, num, a);
    assert Sum(z[a..]) == y + num && Sum(z[|s|..]) == num;
  }

  lemma BestPartMore(s: seq<int>, num: int, x: int, y: int)
    requires BestPart(s, x) && BestEnd(s + [num], y)
    ensures BestPart(s + [num], Max(x, y))
  {
    var z := s + [num];
    forall a, b | 0 <= a <= b <= |z| ensures Sum(z[a..b]) <= Max(x, y) {
      if b <= |s| {
        assert z[a..b] == s[a..b];
      } else if a < |z| {
        assert z[a..b] == z[a..];
      } else {
        assert z[a..b] == s[0..0];
      }
    }
    if x > y {
      var a, b :| 0 <= a <= b <= |s| && Sum(s[a..b]) == x;
      assert z[a..b] == s[a..b];
      assert Sum(z[a..b]) == x;
    } else {
      var a :| 0 <= a <= |z| && (a < |z| || z == []) && Sum(z[a..]) == y;
      assert z[a..|z|] == z[a..];
      assert Sum(z[a..|z|]) == y;
    }
  }

  // After every input, the best part of the inputs so far has been printed.
  ghost predicate PrintsBest(printed: seq<int>, nums: seq<int>) {
    |printed| <= |nums| && forall j | 0 <= j < |printed| :: BestPart(nums[..j + 1], printed[j])
  }

  // The state of max_subarray between two bursts, of which every second one reads: it exits
  // exactly when it has printed `arg` lines.
  ghost predicate Kadane(s: Trace, arg: nat, nums: seq<int>) {
    var k := s.bursts;
    && s.t.body == MaxSubarray && s.t.arg == arg && s.used == |s.printed| == k / 2 <= |nums|
    && (s.t.at == Reading <==> k % 2 == 1) && (s.t.at == Start <==> k == 0) && (k > 0 ==> s.t.i == (k + 1) / 2)
    && BestPart(nums[..s.used], s.t.x) && BestEnd(nums[..s.used], s.t.y) && PrintsBest(s.printed, nums)
    && (arg >= 1 ==> k <= 2 * arg) && (s.call == Quit <==> k == 2 * arg >= 2) && (k % 2 == 1 ==> s.call == Await)
  }

  lemma KadaneStart(arg: nat, nums: seq<int>)
    ensures Kadane(Solo(Created(MaxSubarray, arg), 0, nums), arg, nums)
  {
    var e := nums[..0];
    assert Sum(e[0..0]) == 0 && Sum(e[0..]) == 0;
  }

  lemma KadaneStep(s: Trace, arg: nat, nums: seq<int>)
    requires Kadane(s, arg, nums) && !Halted(s, nums)
    ensures Kadane(Continue(s, nums), arg, nums)
  {
    if s.t.at == Reading {
      var num := nums[s.used];
      assert nums[..s.used + 1] == nums[..s.used] + [num];
      BestEndMore(nums[..s.used], num, s.t.y);
      BestPartMore(nums[..s.used], num, s.t.x, Max(num, s.t.y + num));
    }
  }

  // Alone, max_subarray prints the best sums of its inputs, `arg` of them and no more.
  lemma {:induction false} MaxSubarraySolo(arg: nat, k: nat, nums: seq<int>)
    ensures Kadane(Solo(Created(MaxSubarray, arg), k, nums), arg, nums)
  {
    if k == 0 {
      KadaneStart(arg, nums);
    } else {
      MaxSubarraySolo(arg, k - 1, nums);
      var s := Solo(Created(MaxSubarray, arg), k - 1, nums);
      if !Halted(s, nums) { KadaneStep(s, arg, nums); }
    }
  }

  // ---------- the bursts as the C code runs them ----------

  class Tcb {
    const arg: nat
    var i: int
    var x: int
    var y: int
    var at: Point

    // thread_setup
    constructor (arg: nat, body: Body)
      ensures Abs(body) == Created(body, arg)
    {
      this.arg := arg;
      i, x, y, at := 0, 0, 0, Start;
    }

    ghost function Abs(body: Body): Thread
      reads this
    {
      Thread(body, arg, i, x, y, at)
    }

    method RunFibonacci() returns (printed: seq<int>, call: Call)
      modifies this
      ensures Burst(Abs(Fibonacci), printed, call) == Resume(old(Abs(Fibonacci)), 0)
    {
      if at == Start {
        i := 1;
      } else {
        i := i + 1;
      }
      if i <= 2 {
        x, y := 1, 1;
      } else {
        var tmp := y;
        y := x + y;
        x := tmp;
      }
      printed := [y];
      at := Yielded;
      call := if i == arg then Quit else Yield;
    }

    method RunCollatz() returns (printed: seq<int>, call: Call)
      modifies this
      ensures Burst(Abs(Collatz), printed, call) == Resume(old(Abs(Collatz)), 0)
      ensures Follows([if old(at) == Start then arg else old(i)] + printed) && printed == [i]
      ensures call == if i == 1 then Quit else Yield
    {
      if at == Start {
        i := arg;
      }
      if i % 2 == 0 {
        i := i / 2;
      } else {
        i := i * 3;
        i := i + 1;
      }
      printed := [i];
      at := Yielded;
      call := if i == 1 then Quit else Yield;
    }

    method RunMaxSubarray(num: int) returns (printed: seq<int>, call: Call)
      modifies this
      ensures Burst(Abs(MaxSubarray), printed, call) == Resume(old(Abs(MaxSubarray)), num)
    {
      if at != Reading {
        i := if at == Start then 1 else i + 1;
        at := Reading;
        return [], Await;
      }
      y := if num > y + num then num else y + num;
      x := if x > y then x else y;
      printed := [x];
      at := Yielded;
      call := if i == arg then Quit else Yield;
    }
  }
}
