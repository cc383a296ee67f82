/**
 One booking server as the C code runs it, on its request table, its counter array and the shared
 file (hw1_csiebooking/server.c): every handler is the sequence of steps that Bookings gives it.
 */
module BookingCode {
  import opened Bookings
  import opened BookingLocks
  import opened BookingHistory
  import opened Numbers

  // The record file and the kernel's lock table. `log` is only for the proof.
  class Host {
    var file: seq<Record>
    var locks: seq<seq<Lock>>
    ghost var log: seq<Session>

    constructor (f: seq<Record>, processes: nat)
      ensures file == f && locks == seq(RECORDS, r => seq(processes, p => Unlocked)) && log == []
    {
      file, log := f, [];
      locks := seq(RECORDS, r => seq(processes, p => Unlocked));
    }

    ghost function Abs(): Store
      reads this
    {
      Store(file, locks, log)
    }

    // fcntl(F_SETLK) of process `p` on record `r`.
    method SetLk(p: nat, r: nat, want: Lock) returns (ok: bool)
      requires r < |locks| && p < |locks[r]|
      modifies `locks
      ensures ok == (want == Unlocked || !Conflict(old(locks[r]), p, want))
      ensures Abs() == if ok then SetLock(old(Abs()), p, r, want) else old(Abs())
    {
      var q := 0;
      while q < |locks[r]|
        invariant q <= |locks[r]| && locks == old(locks)
        invariant want != Unlocked ==> forall h | 0 <= h < q :: !(h != p && Blocks(locks[r][h], want))
      {
        if want != Unlocked && q != p && Blocks(locks[r][q], want) {
          return false;
        }
        q := q + 1;
      }
      locks := locks[r := locks[r][p := want]];
      ok := true;
    }
  }

  // The three words of a booking command, as numbers.
  function Params(words: seq<string>): (params: Counts)
    requires |words| == 3
    ensures forall k | 0 <= k < 3 && Number(words[k]).Some? :: params[k] == Number(words[k]).value
    ensures forall k | 0 <= k < 3 && Number(words[k]).None? :: params[k] == -100000
  {
    [Converted(words[0]), Converted(words[1]), Converted(words[2])]
  }

  method ReadParams(words: seq<string>) returns (param: array<int>, flag: bool)
    requires |words| == 3
    ensures fresh(param) && param.Length == 3 && flag == (ERROR_NUM in Params(words))
    ensures !flag ==> param[..] == Params(words)
  {
    param, flag := new int[3], false;
    var j := 0;
    while j < 3
      invariant j <= 3 && !flag && forall k | 0 <= k < j :: param[k] == Params(words)[k] != ERROR_NUM
    {
      var num := Convert(words[j]);
      if num == ERROR_NUM {
        flag := true;
        assert Params(words)[j] == ERROR_NUM;
        return;
      }
      param[j] := num;
      j := j + 1;
    }
    assert param[..] == Params(words);
  }

  function Sum(a: Counts, b: Counts, n: nat): int
    requires n <= 3
  {
    if n == 0 then 0 else Sum(a, b, n - 1) + a[n - 1] + b[n - 1]
  }

  // The loop over the objects: `param` becomes the new booking state unless a check fails.
  method AddUp(booked: Counts, param: array<int>) returns (outcome: Outcome)
    requires param.Length == 3 && ERROR_NUM !in param[..]
    modifies param
    ensures outcome == Decide(booked, old(param[..])) && Due(booked, old(param[..]), outcome)
  {
    ghost var params: Counts := param[..];
    DecideExact(booked, params, Decide(booked, params));
    var sum, j := 0, 0;
    while j < 3
      invariant j <= 3 && sum == Sum(params, booked, j)
      invariant forall k | 0 <= k < j :: param[k] == params[k] + booked[k] >= 0
      invariant forall k | j <= k < 3 :: param[k] == params[k]
    {
      param[j] := param[j] + booked[j];
      if param[j] < 0 {
        return BelowZero;
      }
      sum := sum + param[j];
      j := j + 1;
    }
    assert sum == Sum(params, booked, 1) + params[1] + booked[1] + params[2] + booked[2] by {
      assert sum == Sum(params, booked, 2) + params[2] + booked[2];
    }
    if sum > LIMIT {
      return TooMany;
    }
    assert param[..] == [params[0] + booked[0], params[1] + booked[1], params[2] + booked[2]];
    outcome := Booked(param[..]);
  }

  lemma IdleOrderly(c: Bookings.Pair, n: nat, p: nat)
    requires Orderly(c, n, p) && !c.s.ctl.Showing?
    ensures Orderly(c.(s := c.s.(ctl := Idle)), n, p)
  {
    var d := c.(s := c.s.(ctl := Idle));
    forall i | 0 <= i < |d.s.reqs| ensures IdFits(d.s, i) && Informed(d.s, i) {
      assert IdFits(c.s, i) && Informed(c.s, i);
    }
    forall r | 0 <= r < RECORDS ensures Counted(d.s, r) && Held(d.k, d.s, p, r) {
      assert Counted(c.s, r) && Held(c.k, c.s, p, r);
    }
  }

  lemma CommandOrderly(b: Bookings.Pair, n: nat, p: nat, i: nat, params: Counts)
    requires Orderly(b, n, p) && Can(b.s, Move.Command(i, params)) && b.s.reqs[i].shown.Some?
    ensures var c := DoCommand(b, i, params);
            && Orderly(c, n, p) && !c.s.ctl.Showing? && (c.s.ctl.Saving? ==> Orderly(DoSave(c), n, p))
  {
    var c := DoCommand(b, i, params);
    OwnStep(b, n, p, Move.Command(i, params));
    if c.s.ctl.Saving? { OwnStep(c, n, p, Move.Save); }
  }

  // A command from the reading of its record to the end of its connection.
  ghost function Answered(b: Bookings.Pair, n: nat, p: nat, i: nat, params: Counts): Bookings.Pair
    requires Orderly(b, n, p) && Can(b.s, Move.Command(i, params))
  {
    assert Informed(b.s, i);
    var c := DoCommand(b, i, params);
    Bookings.Disconnect(if c.s.ctl.Saving? then DoSave(c) else c, n, p, i)
  }

  // Everything a server does with one message.
  ghost function Served(b: Bookings.Pair, n: nat, p: nat, i: nat, text: string, words: seq<string>): Bookings.Pair
    requires Orderly(b, n, p) && b.s.ctl.Idle? && i < |b.s.reqs| && b.s.reqs[i].connected && |words| == 3
  {
    assert IdFits(b.s, i);
    if !Logged(b.s, i) then
      var c := DoLogin(b, n, p, i, Converted(text));
      if c.s.ctl.Showing? then DoShow(c) else c
    else if b.s.kind == Writer then Answered(b, n, p, i, Params(words))
    else if text == "Exit" then DoQuit(b, n, p, i)
    else b
  }

  // ---------- what the handlers do, from outside ----------

  // The client of slot `i` got the record with number `id`, and was shown it.
  ghost predicate LoggedIn(b: Bookings.Pair, p: nat, i: nat, id: int, c: Bookings.Pair)
    requires i < |b.s.reqs| && 902001 <= id
  {
    var r := id - 902001;
    && r < |b.s.arr| && r < |b.k.locks| && p < |b.k.locks[r]| && r < |b.k.file|
    && c.s == Server(b.s.kind, b.s.reqs[i := Request(true, id, Some(b.k.file[r]))], b.s.arr[r := b.s.arr[r] + 1], Idle)
    && c.k.file == b.k.file && c.k.log == b.k.log
    && c.k.locks == b.k.locks[r := b.k.locks[r][p := if b.s.kind == Reader then Shared else Exclusive]]
  }

  // What comes of a login attempt with the number `id`.
  ghost predicate Attempted(b: Bookings.Pair, p: nat, i: nat, id: int, c: Bookings.Pair)
    requires i < |b.s.reqs| && |b.k.locks| == RECORDS
  {
    if 902001 <= id <= 902020 && Free(b, p, id - 902001) then LoggedIn(b, p, i, id, c)
    else c == b.(s := b.s.(reqs := b.s.reqs[i := CLOSED]))
  }

  // The connection of slot `i` has ended: its session is logged, its slot and its count of the record are
  // given back, and the lock is with the last of them.
  ghost predicate Ended(b: Bookings.Pair, p: nat, i: nat, action: Action, c: Bookings.Pair)
    requires Logged(b.s, i) && b.s.reqs[i].shown.Some?
  {
    var r := b.s.reqs[i].id - 902001;
    && r < |b.s.arr| && r < |b.k.locks| && p < |b.k.locks[r]|
    && c.s == Server(b.s.kind, b.s.reqs[i := CLOSED], b.s.arr[r := b.s.arr[r] - 1], Idle)
    && c.k.log == b.k.log + [Session(r, b.s.reqs[i].shown.value, action)]
    && c.k.locks == if b.s.arr[r] == 1 then b.k.locks[r := b.k.locks[r][p := Unlocked]] else b.k.locks
  }

  // A booking command has got the answer that is due, and its record the new counts if it was accepted.
  ghost predicate Commanded(b: Bookings.Pair, p: nat, i: nat, params: Counts, c: Bookings.Pair)
    requires Logged(b.s, i) && b.s.reqs[i].shown.Some? && |b.k.file| == RECORDS
  {
    var r := b.s.reqs[i].id - 902001;
    exists outcome ::
      && Due(b.k.file[r].booked, params, outcome) && Ended(b, p, i, Book(params, outcome), c)
      && c.k.file == if outcome.Booked? then b.k.file[r := Record(b.k.file[r].id, outcome.counts)] else b.k.file
  }

  lemma LoginExact(b: Bookings.Pair, n: nat, p: nat, i: nat, id: int)
    requires Orderly(b, n, p) && Can(b.s, Move.Login(i, id))
    ensures var c := DoLogin(b, n, p, i, id);
            && Attempted(b, p, i, id, if c.s.ctl.Showing? then DoShow(c) else c)
            && (c.s.ctl.Showing? <==> 902001 <= id <= 902020 && Free(b, p, id - 902001))
  {
    if ValidId(id) { FreeExact(b, n, p, RecordOf(id)); }
  }

  lemma QuitExact(b: Bookings.Pair, n: nat, p: nat, i: nat)
    requires Orderly(b, n, p) && Can(b.s, Move.Quit(i))
    ensures Logged(b.s, i) ==> b.s.reqs[i].shown.Some? && Ended(b, p, i, View, DoQuit(b, n, p, i))
    ensures Logged(b.s, i) ==> DoQuit(b, n, p, i).k.file == b.k.file
    ensures !Logged(b.s, i) ==> DoQuit(b, n, p, i) == b.(s := b.s.(reqs := b.s.reqs[i := CLOSED]))
  {
    assert Informed(b.s, i);
  }

  lemma AnsweredExact(b: Bookings.Pair, n: nat, p: nat, i: nat, params: Counts)
    requires Orderly(b, n, p) && Can(b.s, Move.Command(i, params))
    ensures b.s.reqs[i].shown.Some? && Commanded(b, p, i, params, Answered(b, n, p, i, params))
  {
    assert Informed(b.s, i);
    var x := b.k.file[RecordAt(b.s, i)];
    var d := Decide(x.booked, params);
    DecideExact(x.booked, params, d);
    assert Ended(b, p, i, Book(params, d), Answered(b, n, p, i, params));
  }

  // One message: a number to log in with, a booking command on a write server, Exit on a read
  // server, or anything else there, which is ignored.
  lemma ServedExact(b: Bookings.Pair, n: nat, p: nat, i: nat, text: string, words: seq<string>)
    requires Orderly(b, n, p) && b.s.ctl.Idle? && i < |b.s.reqs| && b.s.reqs[i].connected && |words| == 3
    ensures b.s.reqs[i].id != 0 ==> Logged(b.s, i) && b.s.reqs[i].shown.Some?
    ensures var c := Served(b, n, p, i, text, words);
            && (b.s.reqs[i].id == 0 ==> Attempted(b, p, i, Converted(text), c))
            && (b.s.reqs[i].id != 0 && b.s.kind == Writer ==> Commanded(b, p, i, Params(words), c))
            && (b.s.reqs[i].id != 0 && b.s.kind == Reader && text == "Exit" ==>
                 Ended(b, p, i, View, c) && c.k.file == b.k.file)
            && (b.s.reqs[i].id != 0 && b.s.kind == Reader && text != "Exit" ==> c == b)
  {
    assert IdFits(b.s, i) && Informed(b.s, i);
    if b.s.reqs[i].id == 0 {
      LoginExact(b, n, p, i, Converted(text));
    } else if b.s.kind == Writer {
      AnsweredExact(b, n, p, i, Params(words));
    } else if text == "Exit" {
      QuitExact(b, n, p, i);
    }
  }

  class BookingServer {
    const pid: nat
    const kind: Kind
    const host: Host
    const requestP: array<Request>
    const arr: array<int>

    constructor (h: Host, p: nat, k: Kind, maxfd: nat)
      ensures host == h && pid == p && kind == k && fresh(requestP) && fresh(arr) && requestP.Length == maxfd
      ensures Started(Abs())
    {
      host, pid, kind := h, p, k;
      requestP := new Request[maxfd](i => CLOSED);
      arr := new int[RECORDS](r => 0);
      new;
      assert arr[..] == seq(RECORDS, r => 0);
    }

    // The server between two handlers.
    ghost function Abs(): Server
      reads requestP, arr
    {
      Server(kind, requestP[..], arr[..], Idle)
    }

    ghost function Pair(): Pair
      reads host, requestP, arr
    {
      Bookings.Pair(host.Abs(), Abs())
    }

    ghost predicate Valid(n: nat)
      reads host, requestP, arr
    {
      Orderly(Pair(), n, pid)
    }

    // disconnect
    method Disconnect(i: nat, lock: bool, ghost n: nat)
      requires Valid(n) && i < requestP.Length && (lock ==> Logged(Abs(), i))
      modifies requestP, arr, host`locks
      ensures Pair() == if lock then Bookings.Disconnect(old(Pair()), n, pid, i)
                        else old(Pair()).(s := SetReq(old(Abs()), i, CLOSED))
    {
      ghost var b := Pair();
      if lock {
        var id := requestP[i].id - FIRST_ID;
        assert b.s.reqs[i] == requestP[i] && RecordAt(b.s, i) == id;
        arr[id] := arr[id] - 1;
        if arr[id] == 0 {
          var ok := host.SetLk(pid, id, Unlocked);
        }
      }
      requestP[i] := CLOSED;
    }

    // initialize: what is left of a login attempt is refused, or locked and shown.
    method Initialize(i: nat, text: string, ghost n: nat) returns (ret: int)
      requires Valid(n) && Can(Abs(), Move.Login(i, Converted(text)))
      modifies requestP, arr, host`locks
      ensures var c := DoLogin(old(Pair()), n, pid, i, Converted(text));
              if c.s.ctl.Showing? then
                ret == 0 && Logged(c.s, i) && c.s.ctl.i == i && |c.k.file| == RECORDS && Pair() == DoShow(c)
              else ret == -1 && Pair() == c
      ensures Attempted(old(Pair()), pid, i, Converted(text), Pair())
      ensures ret == 0 <==> 902001 <= Converted(text) <= 902020 && Free(old(Pair()), pid, Converted(text) - 902001)
    {
      ghost var b := Pair();
      LoginExact(b, n, pid, i, Converted(text));
      var id := Convert(text);
      if id < FIRST_ID || id >= FIRST_ID + RECORDS {
        Disconnect(i, false, n);
        return -1;
      }
      ret := TakeRecord(i, id, n);
    }

    // ... from the lock attempt on.
    method TakeRecord(i: nat, id: int, ghost n: nat) returns (ret: int)
      requires Valid(n) && ValidId(id) && Can(Abs(), Move.Login(i, id))
      modifies requestP, arr, host`locks
      ensures var c := DoLogin(old(Pair()), n, pid, i, id);
              if c.s.ctl.Showing? then
                ret == 0 && Logged(c.s, i) && c.s.ctl.i == i && |c.k.file| == RECORDS && Pair() == DoShow(c)
              else ret == -1 && Pair() == c
    {
      ghost var b := Pair();
      var r := id - FIRST_ID;
      assert Counted(b.s, r) && Held(b.k, b.s, pid, r);
      var errno := if kind == Writer && arr[r] == 1 then 1 else 0;
      var ok := host.SetLk(pid, r, if kind == Reader then Shared else Exclusive);
      assert errno == 1 && ok ==> host.Abs() == b.k by {
        if errno == 1 { assert b.k.locks[r][pid] == Exclusive; assert b.k.locks[r] == b.k.locks[r][pid := Exclusive]; }
      }
      if errno != 0 || !ok {
        Disconnect(i, false, n);
        return -1;
      }
      arr[r] := arr[r] + 1;
      var target := host.file[r];
      requestP[i] := Request(true, id, Some(target));
      ret := 0;
    }

    // disconnect at the end of a command, when the server stands at `c`.
    method Close(i: nat, ghost c: Bookings.Pair, ghost n: nat)
      requires Orderly(c, n, pid) && c.s.ctl.Leaving? && c.s.ctl.i == i && Pair() == c.(s := c.s.(ctl := Idle))
      modifies requestP, arr, host`locks
      ensures Pair() == Bookings.Disconnect(c, n, pid, i)
    {
      IdleOrderly(c, n, pid);
      Disconnect(i, true, n);
    }

    // The body of the main loop for a booking command.
    method Update(i: nat, words: seq<string>, ghost n: nat)
      requires Valid(n) && |words| == 3 && Can(Abs(), Move.Command(i, Params(words)))
      modifies requestP, arr, host
      ensures Pair() == Answered(old(Pair()), n, pid, i, Params(words))
      ensures old(requestP[i].shown).Some? && Commanded(old(Pair()), pid, i, Params(words), Pair())
    {
      AnsweredExact(Pair(), n, pid, i, Params(words));
      Answer(i, words, n);
    }

    // ... from the parsing on.
    method Answer(i: nat, words: seq<string>, ghost n: nat)
      requires Valid(n) && |words| == 3 && Can(Abs(), Move.Command(i, Params(words)))
      modifies requestP, arr, host
      ensures Pair() == Answered(old(Pair()), n, pid, i, Params(words))
    {
      ghost var b, params := Pair(), Params(words);
      var r := requestP[i].id - FIRST_ID;
      assert Informed(b.s, i) && b.s.reqs[i] == requestP[i] && RecordAt(b.s, i) == r;
      ghost var shown := requestP[i].shown.value;
      CommandOrderly(b, n, pid, i, params);
      var param, flag := ReadParams(words);
      if flag {
        host.log := host.log + [Session(r, shown, Book(params, Malformed))];
        Close(i, DoCommand(b, i, params), n);
        return;
      }
      var target := host.file[r];
      var outcome := AddUp(target.booked, param);
      if !outcome.Booked? {
        host.log := host.log + [Session(r, shown, Book(params, outcome))];
        Close(i, DoCommand(b, i, params), n);
        return;
      }
      host.log := host.log + [Session(r, shown, Book(params, outcome))];
      host.file := host.file[r := target.(booked := outcome.counts)];
      requestP[i] := requestP[i].(shown := Some(host.file[r]));
      Close(i, DoSave(DoCommand(b, i, params)), n);
    }

    // The main loop's branch for a client from which a message arrived; `words` are the three
    // words that sscanf finds in it.
    method Serve(i: nat, text: string, words: seq<string>, ghost n: nat)
      requires Valid(n) && i < requestP.Length && requestP[i].connected && |words| == 3
      modifies requestP, arr, host
      ensures Pair() == Served(old(Pair()), n, pid, i, text, words)
      ensures old(requestP[i].id) == 0 ==> Attempted(old(Pair()), pid, i, Converted(text), Pair())
      ensures old(requestP[i].id) != 0 ==> Logged(old(Abs()), i) && old(requestP[i].shown).Some?
      ensures old(requestP[i].id) != 0 && kind == Writer ==> Commanded(old(Pair()), pid, i, Params(words), Pair())
      ensures old(requestP[i].id) != 0 && kind == Reader && text == "Exit" ==> Ended(old(Pair()), pid, i, View, Pair())
      ensures old(requestP[i].id) != 0 && kind == Reader && text != "Exit" ==> Pair() == old(Pair())
    {
      ServedExact(Pair(), n, pid, i, text, words);
      assert IdFits(Abs(), i) && Abs().reqs[i] == requestP[i];
      if requestP[i].id == 0 {
        var ret := Initialize(i, text, n);
      } else if kind == Writer {
        Update(i, words, n);
      } else if text == "Exit" {
        Hangup(i, n);
      }
    }

    // The branch for end of file, and for Exit.
    method Hangup(i: nat, ghost n: nat)
      requires Valid(n) && i < requestP.Length && requestP[i].connected
      modifies requestP, arr, host
      ensures Pair() == DoQuit(old(Pair()), n, pid, i)
      ensures old(requestP[i].id) == 0 ==> Pair() == old(Pair()).(s := SetReq(old(Abs()), i, CLOSED))
      ensures old(requestP[i].id) != 0 ==> Logged(old(Abs()), i) && old(requestP[i].shown).Some?
      ensures old(requestP[i].id) != 0 ==> Ended(old(Pair()), pid, i, View, Pair()) && host.file == old(host.file)
    {
      ghost var b := Pair();
      QuitExact(b, n, pid, i);
      assert IdFits(b.s, i) && Informed(b.s, i) && b.s.reqs[i] == requestP[i];
      if requestP[i].id == 0 {
        Disconnect(i, false, n);
      } else {
        LogOrderly(b, Finish(b.k, b.s, i, View), n, pid);
        host.log := host.log + [Session(requestP[i].id - FIRST_ID, requestP[i].shown.value, View)];
        Disconnect(i, true, n);
      }
    }
  }

  // ---------- the handlers are runs of the system ----------

  ghost predicate Moves(b: Bookings.Pair, n: nat, p: nat, ms: seq<Move>, c: Bookings.Pair)
    decreases |ms|
  {
    if ms == [] then c == b
    else Fits(b, n, p) && Can(b.s, ms[0]) && Moves(Do(b, n, p, ms[0]), n, p, ms[1..], c)
  }

  // The whole handling of one message is a sequence of steps of this server.
  lemma ServedMoves(b: Bookings.Pair, n: nat, p: nat, i: nat, text: string, words: seq<string>) returns (ms: seq<Move>)
    requires Orderly(b, n, p) && b.s.ctl.Idle? && i < |b.s.reqs| && b.s.reqs[i].connected && |words| == 3
    ensures Moves(b, n, p, ms, Served(b, n, p, i, text, words))
  {
    assert IdFits(b.s, i) && Informed(b.s, i);
    if !Logged(b.s, i) {
      var m := Move.Login(i, Converted(text));
      var c := Do(b, n, p, m);
      OwnStep(b, n, p, m);
      ms := if c.s.ctl.Showing? then [m, Move.Show] else [m];
      if c.s.ctl.Showing? { TwoMoves(b, n, p, m, Move.Show); }
    } else if b.s.kind == Writer {
      var m := Move.Command(i, Params(words));
      var c := Do(b, n, p, m);
      CommandOrderly(b, n, p, i, Params(words));
      if c.s.ctl.Saving? {
        ms := [m, Move.Save, Move.Leave];
        assert ms[1..] == [Move.Save, Move.Leave];
        TwoMoves(c, n, p, Move.Save, Move.Leave);
      } else {
        ms := [m, Move.Leave];
        TwoMoves(b, n, p, m, Move.Leave);
      }
    } else if text == "Exit" {
      ms := [Move.Quit(i)];
    } else {
      ms := [Move.Ignore(i)];
    }
  }

  lemma TwoMoves(b: Bookings.Pair, n: nat, p: nat, m: Move, o: Move)
    requires Fits(b, n, p) && Can(b.s, m) && Fits(Do(b, n, p, m), n, p) && Can(Do(b, n, p, m).s, o)
    ensures Moves(b, n, p, [m, o], Do(Do(b, n, p, m), n, p, o))
  {
    assert [m, o][1..] == [o] && [o][1..] == [];
  }

  // A run of one server is a run of the system in which the others do nothing.
  lemma {:induction false} MovesRun(st: State, p: nat, ms: seq<Move>, c: Bookings.Pair) returns (events: seq<Event>)
    requires p < |st.servers| && Moves(At(st, p), |st.servers|, p, ms, c)
    ensures Runs(st, events, State(c.k, st.servers[p := c.s]))
    decreases |ms|
  {
    if ms == [] {
      events := [];
      assert st.servers[p := c.s] == st.servers;
    } else {
      var d := Do(At(st, p), |st.servers|, p, ms[0]);
      var t := State(d.k, st.servers[p := d.s]);
      var rest := MovesRun(t, p, ms[1..], c);
      assert t.servers[p := c.s] == st.servers[p := c.s];
      events := [Event(p, ms[0])] + rest;
      assert events[1..] == rest;
      assert Step(st, events[0].server, events[0].move, t);
    }
  }
}
