/**
 The booking servers (hw1_csiebooking/server.c): any number of read servers and write servers
 share one file of twenty records. A process takes POSIX record locks on the file, and since a
 process never conflicts with its own locks, each server also counts its connections per record.
 Every system call on the file is a step of its own; the steps of the servers interleave freely.
 */
module Bookings {

  datatype Option<T> = None | Some(value: T)

  // Compile-time flavour of a server.
  datatype Kind = Reader | Writer

  datatype Lock = Unlocked | Shared | Exclusive

  const RECORDS: nat := 20
  const FIRST_ID := 902001
  const LIMIT := 15
  const ERROR_NUM := -100000

  // One number per bookable object: food, concerts, electronics.
  type Counts = c: seq<int> | |c| == 3 witness [0, 0, 0]

  datatype Record = Record(id: int, booked: Counts)

  // A slot of `requestP`: `shown` is what the client has been told about its record.
  datatype Request = Request(connected: bool, id: int, shown: Option<Record>)

  const CLOSED := Request(false, 0, None)

  // What a server is doing between two system calls on the file.
  datatype Control =
    | Idle                                           // in select
    | Showing(i: nat)                                // locked, about to read the record
    | Saving(i: nat, params: Counts, target: Record) // accepted, about to write the record
    | Leaving(i: nat)                                // about to disconnect

  datatype Server = Server(kind: Kind, reqs: seq<Request>, arr: seq<int>, ctl: Control)

  // What a command leads to.
  datatype Outcome = Malformed | BelowZero | TooMany | Booked(counts: Counts)

  // One finished session: which record, what the client saw at login, what it did.
  datatype Session = Session(rec: nat, shown: Record, action: Action)
  datatype Action = View | Book(params: Counts, outcome: Outcome)

  // The record file, the kernel's lock table by record and process, and the finished sessions.
  datatype Store = Store(file: seq<Record>, locks: seq<seq<Lock>>, log: seq<Session>)

  // The store together with one server.
  datatype Pair = Pair(k: Store, s: Server)

  datatype State = State(k: Store, servers: seq<Server>)

  // ---------- record locks ----------

  predicate StoreFits(k: Store, n: nat) {
    |k.file| == |k.locks| == RECORDS && forall r | 0 <= r < RECORDS :: |k.locks[r]| == n
  }

  predicate Blocks(held: Lock, want: Lock) {
    held == Exclusive || (want == Exclusive && held == Shared)
  }

  // Some other process holds a lock that `want` cannot share.
  predicate Conflict(locks: seq<Lock>, p: nat, want: Lock) {
    exists q | 0 <= q < |locks| :: q != p && Blocks(locks[q], want)
  }

  function SetLock(k: Store, p: nat, r: nat, lock: Lock): Store
    requires r < |k.locks| && p < |k.locks[r]|
  {
    k.(locks := k.locks[r := k.locks[r][p := lock]])
  }

  // ---------- one server ----------

  predicate ValidId(id: int) {
    FIRST_ID <= id < FIRST_ID + RECORDS
  }

  function RecordOf(id: int): nat
    requires ValidId(id)
  {
    id - FIRST_ID
  }

  function LockOf(kind: Kind): Lock {
    if kind == Reader then Shared else Exclusive
  }

  predicate Logged(s: Server, i: int) {
    0 <= i < |s.reqs| && s.reqs[i].connected && ValidId(s.reqs[i].id)
  }

  function RecordAt(s: Server, i: int): (r: nat)
    requires Logged(s, i)
    ensures r < RECORDS
  {
    RecordOf(s.reqs[i].id)
  }

  predicate Informed(s: Server, i: int) {
    Logged(s, i) ==> s.ctl == Showing(i) || s.reqs[i].shown.Some?
  }

  predicate Fits(b: Pair, n: nat, p: nat) {
    && StoreFits(b.k, n) && p < n && |b.s.arr| == RECORDS
    && (b.s.ctl.Idle? || Logged(b.s, b.s.ctl.i))
    && forall i | 0 <= i < |b.s.reqs| :: Informed(b.s, i)
  }

  function SetReq(s: Server, i: nat, r: Request): Server
    requires i < |s.reqs|
  {
    s.(reqs := s.reqs[i := r])
  }

  // disconnect(i, file_fd, 1)
  function Disconnect(b: Pair, n: nat, p: nat, i: nat): Pair
    requires StoreFits(b.k, n) && p < n && |b.s.arr| == RECORDS && Logged(b.s, i)
  {
    var r := RecordAt(b.s, i);
    var s := SetReq(b.s, i, CLOSED).(arr := b.s.arr[r := b.s.arr[r] - 1], ctl := Idle);
    Pair(if s.arr[r] == 0 then SetLock(b.k, p, r, Unlocked) else b.k, s)
  }

  // The lock attempt of initialize: the counter is asked first, then the kernel.
  predicate Refused(b: Pair, p: nat, r: nat)
    requires r < |b.s.arr| && r < |b.k.locks|
  {
    (b.s.kind == Writer && b.s.arr[r] == 1) || Conflict(b.k.locks[r], p, LockOf(b.s.kind))
  }

  // initialize, up to the lock.
  function DoLogin(b: Pair, n: nat, p: nat, i: nat, id: int): Pair
    requires Fits(b, n, p) && i < |b.s.reqs|
  {
    if !ValidId(id) || Refused(b, p, RecordOf(id)) then b.(s := SetReq(b.s, i, CLOSED))
    else
      var r := RecordOf(id);
      var s := SetReq(b.s, i, Request(true, id, None)).(arr := b.s.arr[r := b.s.arr[r] + 1], ctl := Showing(i));
      Pair(SetLock(b.k, p, r, LockOf(b.s.kind)), s)
  }

  function Tell(s: Server, i: nat, x: Record): Server
    requires i < |s.reqs|
  {
    SetReq(s, i, s.reqs[i].(shown := Some(x)))
  }

  // initialize, from the read on.
  function DoShow(b: Pair): Pair
    requires b.s.ctl.Showing? && Logged(b.s, b.s.ctl.i) && |b.k.file| == RECORDS
  {
    var i := b.s.ctl.i;
    b.(s := Tell(b.s, i, b.k.file[RecordAt(b.s, i)]).(ctl := Idle))
  }

  // The checks of a booking command.
  function Decide(booked: Counts, params: Counts): Outcome {
    if ERROR_NUM in params then Malformed
    else
      var a, b, c := params[0] + booked[0], params[1] + booked[1], params[2] + booked[2];
      if a < 0 || b < 0 || c < 0 then BelowZero
      else if a + b + c > LIMIT then TooMany
      else Booked([a, b, c])
  }

  // The answer a command must get: an error exactly for the error number; otherwise a refusal exactly if
  // some new count is negative, or none is but their total is over fifteen; otherwise the new counts.
  predicate Due(booked: Counts, params: Counts, outcome: Outcome) {
    var error := exists k | 0 <= k < 3 :: params[k] == -100000;
    var below := exists k | 0 <= k < 3 :: booked[k] + params[k] < 0;
    var total := booked[0] + booked[1] + booked[2] + params[0] + params[1] + params[2];
    && (outcome.Malformed? <==> error)
    && (outcome.BelowZero? <==> !error && below)
    && (outcome.TooMany? <==> !error && !below && total > 15)
    && (outcome.Booked? <==> !error && !below && total <= 15)
    && (outcome.Booked? ==> forall k | 0 <= k < 3 :: outcome.counts[k] == booked[k] + params[k])
  }

  lemma DecideExact(booked: Counts, params: Counts, outcome: Outcome)
    ensures Due(booked, params, outcome) <==> outcome == Decide(booked, params)
  {
    if ERROR_NUM in params {
      var k :| 0 <= k < 3 && params[k] == ERROR_NUM;
    } else {
      forall k | 0 <= k < 3 ensures params[k] != -100000 { assert params[k] in params; }
      assert booked[0] + params[0] < 0 || booked[1] + params[1] < 0 || booked[2] + params[2] < 0
        <==> exists k | 0 <= k < 3 :: booked[k] + params[k] < 0;
    }
  }

  function Finish(k: Store, s: Server, i: nat, action: Action): Store
    requires Logged(s, i) && s.reqs[i].shown.Some?
  {
    k.(log := k.log + [Session(RecordAt(s, i), s.reqs[i].shown.value, action)])
  }

  // A command, up to the decision: the record is read again.
  function DoCommand(b: Pair, i: nat, params: Counts): Pair
    requires Logged(b.s, i) && b.s.reqs[i].shown.Some? && |b.k.file| == RECORDS
  {
    var x := b.k.file[RecordAt(b.s, i)];
    var d := Decide(x.booked, params);
    if d.Booked? then b.(s := b.s.(ctl := Saving(i, params, Record(x.id, d.counts))))
    else Pair(Finish(b.k, b.s, i, Book(params, d)), b.s.(ctl := Leaving(i)))
  }

  // The write of an accepted command.
  function DoSave(b: Pair): Pair
    requires b.s.ctl.Saving? && Logged(b.s, b.s.ctl.i) && b.s.reqs[b.s.ctl.i].shown.Some? && |b.k.file| == RECORDS
  {
    var c := b.s.ctl;
    var k := Finish(b.k, b.s, c.i, Book(c.params, Booked(c.target.booked)));
    Pair(k.(file := k.file[RecordAt(b.s, c.i) := c.target]), Tell(b.s, c.i, c.target).(ctl := Leaving(c.i)))
  }

  // A client that leaves by itself, by Exit or by closing the connection.
  function DoQuit(b: Pair, n: nat, p: nat, i: nat): Pair
    requires Fits(b, n, p) && b.s.ctl.Idle? && i < |b.s.reqs|
  {
    if !Logged(b.s, i) then b.(s := SetReq(b.s, i, CLOSED))
    else
      assert Informed(b.s, i);
      Disconnect(b.(k := Finish(b.k, b.s, i, View)), n, p, i)
  }

  // The server process ends: its connections and all its locks are gone.
  function DoDie(b: Pair, n: nat, p: nat): Pair
    requires Fits(b, n, p)
  {
    var none := seq(|b.s.reqs|, i => CLOSED);
    var free := seq(RECORDS, r requires 0 <= r < RECORDS => b.k.locks[r][p := Unlocked]);
    Pair(b.k.(locks := free), Server(b.s.kind, none, seq(RECORDS, r => 0), Idle))
  }

  datatype Move =
    | Accept(i: nat)
    | Login(i: nat, id: int)
    | Show
    | Ignore(i: nat)
    | Command(i: nat, params: Counts)
    | Save
    | Leave
    | Quit(i: nat)
    | Die

  predicate Can(s: Server, m: Move) {
    match m
    case Accept(i) => s.ctl.Idle? && i < |s.reqs| && !s.reqs[i].connected
    case Login(i, _) => s.ctl.Idle? && i < |s.reqs| && s.reqs[i].connected && s.reqs[i].id == 0
    case Show => s.ctl.Showing?
    case Ignore(i) => s.ctl.Idle? && s.kind == Reader && Logged(s, i)
    case Command(i, _) => s.ctl.Idle? && s.kind == Writer && Logged(s, i)
    case Save => s.ctl.Saving?
    case Leave => s.ctl.Leaving?
    case Quit(i) => s.ctl.Idle? && i < |s.reqs| && s.reqs[i].connected
    case Die => true
  }

  function Do(b: Pair, n: nat, p: nat, m: Move): Pair
    requires Fits(b, n, p) && Can(b.s, m)
  {
    match m
    case Accept(i) => b.(s := SetReq(b.s, i, Request(true, 0, None)))
    case Login(i, id) => DoLogin(b, n, p, i, id)
    case Show => DoShow(b)
    case Ignore(i) => b
    case Command(i, params) => assert Informed(b.s, i); DoCommand(b, i, params)
    case Save => assert Informed(b.s, b.s.ctl.i); DoSave(b)
    case Leave => Disconnect(b, n, p, b.s.ctl.i)
    case Quit(i) => DoQuit(b, n, p, i)
    case Die => DoDie(b, n, p)
  }

  // ---------- many servers ----------

  function At(st: State, p: nat): Pair
    requires p < |st.servers|
  {
    Pair(st.k, st.servers[p])
  }

  // One step of server `p`.
  ghost predicate Step(st: State, p: nat, m: Move, z: State) {
    && p < |st.servers| && Fits(At(st, p), |st.servers|, p) && Can(st.servers[p], m)
    && var c := Do(At(st, p), |st.servers|, p, m);
       z == State(c.k, st.servers[p := c.s])
  }

  ghost predicate Init(st: State, file: seq<Record>) {
    && StoreFits(st.k, |st.servers|) && st.k.file == file && st.k.log == []
    && (forall r, p | 0 <= r < RECORDS && 0 <= p < |st.servers| :: st.k.locks[r][p] == Unlocked)
    && forall p | 0 <= p < |st.servers| :: Started(st.servers[p])
  }

  ghost predicate Started(s: Server) {
    && s.ctl.Idle? && s.arr == seq(RECORDS, r => 0)
    && forall i | 0 <= i < |s.reqs| :: s.reqs[i] == CLOSED
  }
}
