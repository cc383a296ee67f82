/**
 Serial equivalence of bookings (hw1_csiebooking/server.c:157-220 and 338-408): whatever the
 interleaving of the servers, the sessions behave as if each had run alone, from the record it
 showed at login to its booking command.
 */
module BookingHistory {
  import opened Bookings
  import opened BookingLocks

  // ---------- the serial execution ----------

  function Apply(file: seq<Record>, s: Session): (z: seq<Record>)
    ensures |z| == |file|
  {
    if s.action.Book? && s.action.outcome.Booked? && s.rec < |file| then
      file[s.rec := Record(file[s.rec].id, s.action.outcome.counts)]
    else file
  }

  // The file after the sessions, one after the other.
  function After(init: seq<Record>, log: seq<Session>): (z: seq<Record>)
    ensures |z| == |init|
  {
    if log == [] then init else Apply(After(init, log[..|log| - 1]), log[|log| - 1])
  }

  // What a session is to see and to get when it runs alone on `file`.
  predicate Alone(file: seq<Record>, s: Session) {
    && s.rec < |file| && s.shown == file[s.rec]
    && (s.action.Book? ==> s.action.outcome == Decide(s.shown.booked, s.action.params))
  }

  predicate AloneAt(init: seq<Record>, log: seq<Session>, j: nat)
    requires j < |log|
  {
    Alone(After(init, log[..j]), log[j])
  }

  ghost predicate AllAlone(init: seq<Record>, log: seq<Session>) {
    forall j | 0 <= j < |log| :: AloneAt(init, log, j)
  }

  // The history is a serial execution, and it leads to the file.
  ghost predicate Serial(init: seq<Record>, k: Store) {
    k.file == After(init, k.log) && AllAlone(init, k.log)
  }

  lemma SerialMore(init: seq<Record>, k: Store, z: Store, s: Session)
    requires Serial(init, k) && Alone(k.file, s) && z.log == k.log + [s] && z.file == Apply(k.file, s)
    ensures Serial(init, z)
  {
    assert z.log[..|z.log| - 1] == k.log;
    forall j | 0 <= j < |z.log| ensures AloneAt(init, z.log, j) {
      if j < |k.log| {
        assert AloneAt(init, k.log, j) && z.log[..j] == k.log[..j];
      } else {
        assert z.log[..j] == k.log;
      }
    }
  }

  // ---------- snapshots ----------

  // What a connection was shown is what the file still holds.
  predicate Current(b: Pair, i: int) {
    Logged(b.s, i) && b.s.reqs[i].shown.Some? && |b.k.file| == RECORDS ==>
      b.s.reqs[i].shown.value == b.k.file[RecordAt(b.s, i)]
  }

  // An accepted command is still acceptable, with the same result, when it is written.
  predicate Ready(b: Pair) {
    b.s.ctl.Saving? && Logged(b.s, b.s.ctl.i) && |b.k.file| == RECORDS ==>
      var x := b.k.file[RecordAt(b.s, b.s.ctl.i)];
      b.s.ctl.target.id == x.id && Decide(x.booked, b.s.ctl.params) == Booked(b.s.ctl.target.booked)
  }

  ghost predicate Stable(b: Pair) {
    Ready(b) && forall i | 0 <= i < |b.s.reqs| :: Current(b, i)
  }

  // Another slot of the same server, whose record did not change.
  lemma StillCurrent(b: Pair, c: Pair, i: nat)
    requires Current(b, i) && i < |b.s.reqs| == |c.s.reqs| && c.s.reqs[i] == b.s.reqs[i]
    requires |c.k.file| == |b.k.file| && (Logged(b.s, i) && |b.k.file| == RECORDS
        ==> c.k.file[RecordAt(b.s, i)] == b.k.file[RecordAt(b.s, i)])
    ensures Current(c, i)
  {}

  // A step that leaves the file alone and changes one slot.
  lemma SlotStable(b: Pair, c: Pair, i: nat)
    requires Stable(b) && c.k.file == b.k.file && i < |b.s.reqs| == |c.s.reqs| && c.s.reqs == b.s.reqs[i := c.s.reqs[i]]
    requires Ready(c) && Current(c, i)
    ensures Stable(c)
  {
    forall j | 0 <= j < |c.s.reqs| ensures Current(c, j) {
      if j != i { StillCurrent(b, c, j); }
    }
  }

  lemma CommandStable(init: seq<Record>, b: Pair, n: nat, p: nat, i: nat, params: Counts)
    requires Orderly(b, n, p) && Stable(b) && Serial(init, b.k) && Can(b.s, Move.Command(i, params))
        && b.s.reqs[i].shown.Some?
    ensures Stable(DoCommand(b, i, params)) && Serial(init, DoCommand(b, i, params).k)
  {
    var c := DoCommand(b, i, params);
    assert Current(b, i) && c.s.reqs[i] == b.s.reqs[i];
    SlotStable(b, c, i);
    var x := b.k.file[RecordAt(b.s, i)];
    var d := Decide(x.booked, params);
    if !d.Booked? { SerialMore(init, b.k, c.k, Session(RecordAt(b.s, i), x, Book(params, d))); }
  }

  // The step that changes the file: only the writing connection was logged in to the record.
  lemma SaveStable(init: seq<Record>, b: Pair, n: nat, p: nat)
    requires Orderly(b, n, p) && Stable(b) && Serial(init, b.k) && b.s.ctl.Saving? && b.s.reqs[b.s.ctl.i].shown.Some?
    ensures Stable(DoSave(b)) && Serial(init, DoSave(b).k)
  {
    var c, i := DoSave(b), b.s.ctl.i;
    var r := RecordAt(b.s, i);
    assert Current(b, i) && Counted(b.s, r);
    forall j | 0 <= j < |c.s.reqs| ensures Current(c, j) {
      if j != i {
        assert Current(b, j);
        if Logged(b.s, j) && RecordAt(b.s, j) == r {
          TwoUsersCount(b.s.reqs, if i < j then i else j, if i < j then j else i, FIRST_ID + r);
        }
        StillCurrent(b, c, j);
      }
    }
    SerialMore(init, b.k, c.k, Session(r, b.k.file[r], Book(b.s.ctl.params, Booked(b.s.ctl.target.booked))));
  }

  lemma QuitStable(init: seq<Record>, b: Pair, n: nat, p: nat, i: nat)
    requires Orderly(b, n, p) && Stable(b) && Serial(init, b.k) && Can(b.s, Move.Quit(i))
    ensures Stable(DoQuit(b, n, p, i)) && Serial(init, DoQuit(b, n, p, i).k)
  {
    var c := DoQuit(b, n, p, i);
    SlotStable(b, c, i);
    if Logged(b.s, i) {
      assert Informed(b.s, i) && Current(b, i);
      SerialMore(init, b.k, c.k, Session(RecordAt(b.s, i), b.s.reqs[i].shown.value, View));
    }
  }

  lemma OwnStable(init: seq<Record>, b: Pair, n: nat, p: nat, m: Move)
    requires Orderly(b, n, p) && Stable(b) && Serial(init, b.k) && Can(b.s, m)
    ensures Stable(Do(b, n, p, m)) && Serial(init, Do(b, n, p, m).k)
  {
    var c := Do(b, n, p, m);
    match m
    case Accept(i) => SlotStable(b, c, i);
    case Login(i, id) => SlotStable(b, c, i);
    case Show => SlotStable(b, c, b.s.ctl.i);
    case Ignore(i) =>
    case Command(i, params) =>
      assert Informed(b.s, i);
      CommandStable(init, b, n, p, i, params);
    case Save =>
      assert Informed(b.s, b.s.ctl.i);
      SaveStable(init, b, n, p);
    case Leave => SlotStable(b, c, b.s.ctl.i);
    case Quit(i) => QuitStable(init, b, n, p, i);
    case Die =>
  }

  // ---------- all servers ----------

  ghost predicate Good(init: seq<Record>, st: State) {
    Locked(st) && Serial(init, st.k) && forall p | 0 <= p < |st.servers| :: Stable(At(st, p))
  }

  // A step changes the file only at the record of the connection it serves.
  lemma FileStep(b: Pair, n: nat, p: nat, m: Move)
    requires Orderly(b, n, p) && Can(b.s, m)
    ensures var z := Do(b, n, p, m).k.file; |z| == |b.k.file| == RECORDS
    ensures forall r | 0 <= r < RECORDS && Do(b, n, p, m).k.file[r] != b.k.file[r] ::
              m.Save? && r == RecordAt(b.s, b.s.ctl.i)
  {}

  // Another server: the lock keeps its clients' records as they were shown.
  lemma OtherStable(st: State, p: nat, m: Move, z: State, q: nat)
    requires Locked(st) && Step(st, p, m, z) && q < |st.servers| && q != p && Stable(At(st, q))
    ensures Stable(At(z, q))
  {
    var b := At(st, p);
    assert Orderly(b, |st.servers|, p);
    FileStep(b, |st.servers|, p, m);
    forall i | Logged(st.servers[q], i)
      ensures z.k.file[RecordAt(st.servers[q], i)] == st.k.file[RecordAt(st.servers[q], i)]
    {
      var r := RecordAt(st.servers[q], i);
      if z.k.file[r] != st.k.file[r] {
        assert On(st, q, i, r) && On(st, p, b.s.ctl.i, r);
        Exclusion(st, p, b.s.ctl.i, q, i, r);
      }
    }
    forall i | 0 <= i < |z.servers[q].reqs| ensures Current(At(z, q), i) {
      assert Current(At(st, q), i);
      StillCurrent(At(st, q), At(z, q), i);
    }
  }

  lemma GoodStep(init: seq<Record>, st: State, p: nat, m: Move, z: State)
    requires Good(init, st) && Step(st, p, m, z)
    ensures Good(init, z)
  {
    LockedStep(st, p, m, z);
    assert Orderly(At(st, p), |st.servers|, p) && Stable(At(st, p));
    OwnStable(init, At(st, p), |st.servers|, p, m);
    forall q | 0 <= q < |z.servers| ensures Stable(At(z, q)) {
      if q != p { OtherStable(st, p, m, z, q); }
    }
  }

  lemma GoodInit(init: seq<Record>, st: State)
    requires Init(st, init)
    ensures Good(init, st)
  {
    LockedInit(st, init);
    forall p | 0 <= p < |st.servers| ensures Stable(At(st, p)) {
      assert Started(st.servers[p]);
    }
  }

  // A schedule: which server makes which move.
  datatype Event = Event(server: nat, move: Move)

  ghost predicate Runs(st: State, events: seq<Event>, z: State)
    decreases |events|
  {
    if events == [] then z == st
    else exists t :: Step(st, events[0].server, events[0].move, t) && Runs(t, events[1..], z)
  }

  ghost predicate Reachable(init: seq<Record>, st: State) {
    exists start, events :: Init(start, init) && Runs(start, events, st)
  }

  lemma {:induction false} RunsGood(init: seq<Record>, st: State, events: seq<Event>, z: State)
    requires Good(init, st) && Runs(st, events, z)
    ensures Good(init, z)
    decreases |events|
  {
    if events != [] {
      var t :| Step(st, events[0].server, events[0].move, t) && Runs(t, events[1..], z);
      GoodStep(init, st, events[0].server, events[0].move, t);
      RunsGood(init, t, events[1..], z);
    }
  }

  lemma ReachableGood(init: seq<Record>, st: State)
    requires Reachable(init, st)
    ensures Good(init, st)
  {
    var start, events :| Init(start, init) && Runs(start, events, st);
    GoodInit(init, start);
    RunsGood(init, start, events, st);
  }

  // Lock exclusion and snapshots, in every reachable state.
  lemma BookingsExclusive(init: seq<Record>, st: State, p: nat, i: nat, q: nat, j: nat, r: nat)
    requires Reachable(init, st) && On(st, p, i, r) && On(st, q, j, r) && (p != q || i != j)
    ensures st.servers[p].kind == Reader && st.servers[q].kind == Reader
  {
    ReachableGood(init, st);
    Exclusion(st, p, i, q, j, r);
  }

  // Counters and locks, in every reachable state.
  lemma CountersExact(init: seq<Record>, st: State, p: nat, r: nat)
    requires Reachable(init, st) && p < |st.servers| && r < RECORDS
    ensures var s := st.servers[p]; var l := st.k.locks;
            && |s.arr| == |l| == RECORDS && |l[r]| == |st.servers| && s.arr[r] == Users(s.reqs, FIRST_ID + r)
            && (l[r][p] != Unlocked <==> s.arr[r] > 0) && (l[r][p] != Unlocked ==> l[r][p] == LockOf(s.kind))
  {
    ReachableGood(init, st);
    assert Orderly(At(st, p), |st.servers|, p);
    assert Counted(st.servers[p], r) && Held(st.k, st.servers[p], p, r);
  }

  lemma LoginsExact(init: seq<Record>, st: State, p: nat, r: nat)
    requires Reachable(init, st) && p < |st.servers| && r < RECORDS
    ensures Fits(At(st, p), |st.servers|, p)
    ensures Refused(At(st, p), p, r) <==> Occupied(st, st.servers[p].kind, r)
  {
    ReachableGood(init, st);
    RefusalExact(st, p, r);
  }

  // A login in any reachable state: the client gets the record exactly if its number is one of the twenty
  // and no connection to the record forbids it, and then only its slot, its counter and its
  // lock change; otherwise its connection is closed and nothing else happens.
  lemma LoginsGranted(init: seq<Record>, st: State, p: nat, i: nat, id: int, z: State)
    requires Reachable(init, st) && Step(st, p, Login(i, id), z)
    ensures |z.servers| == |st.servers| && |z.servers[p].reqs| == |st.servers[p].reqs| > i
    ensures z.servers[p].reqs[i].connected <==>
              902001 <= id <= 902020 && !Occupied(st, st.servers[p].kind, id - 902001)
    ensures z.servers[p].reqs[i].connected ==> On(z, p, i, id - 902001) && GrantedStep(st, p, i, id, z)
    ensures !z.servers[p].reqs[i].connected ==>
              z == st.(servers := st.servers[p := SetReq(st.servers[p], i, CLOSED)])
  {
    ReachableGood(init, st);
    if ValidId(id) { RefusalExact(st, p, RecordOf(id)); }
  }

  // All that changes when server `p` gives client `i` the record `id`.
  predicate GrantedStep(st: State, p: nat, i: nat, id: int, z: State)
    requires p < |st.servers| == |z.servers| && 902001 <= id
  {
    var s, t, r := st.servers[p], z.servers[p], id - 902001;
    && i < |s.reqs| && r < |s.arr| && r < |st.k.locks| && p < |st.k.locks[r]|
    && t.reqs == s.reqs[i := Request(true, id, None)] && t.arr == s.arr[r := s.arr[r] + 1]
    && t.kind == s.kind && t.ctl == Showing(i) && z.servers == st.servers[p := t]
    && z.k.file == st.k.file && z.k.log == st.k.log
    && z.k.locks == st.k.locks[r := st.k.locks[r][p := if s.kind == Reader then Shared else Exclusive]]
  }

  // What a client saw at login is what its command finds.
  lemma SnapshotsStable(init: seq<Record>, st: State, p: nat, i: nat, r: nat)
    requires Reachable(init, st) && On(st, p, i, r) && st.servers[p].reqs[i].shown.Some?
    ensures r < |st.k.file| && st.servers[p].reqs[i].shown.value == st.k.file[r]
  {
    ReachableGood(init, st);
    assert Orderly(At(st, p), |st.servers|, p) && Stable(At(st, p));
    assert Current(At(st, p), i);
  }

  // The file is the serial execution of the finished sessions, each of which saw and got what it
  // would have seen and got alone.
  lemma BookingsSerial(init: seq<Record>, st: State)
    requires Reachable(init, st)
    ensures Serial(init, st.k)
  {
    ReachableGood(init, st);
  }

  // Every finished command got the answer that was due for the record its client saw, which is what the
  // file held after the sessions before it.
  lemma SessionsAnswered(init: seq<Record>, st: State, j: nat)
    requires Reachable(init, st) && j < |st.k.log| && st.k.log[j].action.Book?
    ensures var s := st.k.log[j];
            && s.rec < |init| && s.shown == After(init, st.k.log[..j])[s.rec]
            && Due(s.shown.booked, s.action.params, s.action.outcome)
  {
    BookingsSerial(init, st);
    assert AloneAt(init, st.k.log, j);
    var s := st.k.log[j];
    DecideExact(s.shown.booked, s.action.params, s.action.outcome);
  }

  // ---------- what serial executions keep ----------

  predicate Bookable(c: Counts) {
    c[0] >= 0 && c[1] >= 0 && c[2] >= 0 && c[0] + c[1] + c[2] <= LIMIT
  }

  lemma {:induction false} SerialRecords(init: seq<Record>, log: seq<Session>, r: nat)
    requires r < |init| && AllAlone(init, log)
    ensures After(init, log)[r].id == init[r].id
    ensures After(init, log)[r] == init[r] || Bookable(After(init, log)[r].booked)
    decreases |log|
  {
    if log != [] {
      ShorterAlone(init, log);
      SerialRecords(init, log[..|log| - 1], r);
      assert AloneAt(init, log, |log| - 1);
    }
  }

  lemma ShorterAlone(init: seq<Record>, log: seq<Session>)
    requires log != [] && AllAlone(init, log)
    ensures AllAlone(init, log[..|log| - 1])
  {
    var less := log[..|log| - 1];
    forall j | 0 <= j < |less| ensures AloneAt(init, less, j) {
      assert AloneAt(init, log, j) && less[..j] == log[..j];
    }
  }

  // Sum of the accepted amounts for object `o` of record `r`.
  function Accepted(log: seq<Session>, r: nat, o: nat): int
    requires o < 3
  {
    if log == [] then 0
    else
      var s := log[|log| - 1];
      Accepted(log[..|log| - 1], r, o)
      + (if s.rec == r && s.action.Book? && s.action.outcome.Booked? then s.action.params[o] else 0)
  }

  lemma {:induction false} SerialSums(init: seq<Record>, log: seq<Session>, r: nat, o: nat)
    requires r < |init| && o < 3 && AllAlone(init, log)
    ensures After(init, log)[r].booked[o] == init[r].booked[o] + Accepted(log, r, o)
    decreases |log|
  {
    if log != [] {
      ShorterAlone(init, log);
      SerialSums(init, log[..|log| - 1], r, o);
      assert AloneAt(init, log, |log| - 1);
    }
  }

  // Every record keeps its id; it is as it was at the start or holds no negative count and at
  // most fifteen items; and no accepted amount is lost.
  lemma RecordsSound(init: seq<Record>, st: State, r: nat, o: nat)
    requires Reachable(init, st) && r < |init| && o < 3
    ensures r < |st.k.file| && st.k.file[r].id == init[r].id
    ensures st.k.file[r] == init[r] || Bookable(st.k.file[r].booked)
    ensures st.k.file[r].booked[o] == init[r].booked[o] + Accepted(st.k.log, r, o)
  {
    BookingsSerial(init, st);
    SerialRecords(init, st.k.log, r);
    SerialSums(init, st.k.log, r, o);
  }
}
