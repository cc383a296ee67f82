/**
 What the counters and the record locks of the booking servers achieve, in every reachable state
 (hw1_csiebooking/server.c:113-133, 172-208 and 298-304): a record has readers only or exactly
 one writing connection, and an attempt is refused exactly when this demands it.
 */
module BookingLocks {
  import opened Bookings

  // Number of slots logged in with this id.
  function Users(reqs: seq<Request>, id: int): nat {
    if reqs == [] then 0 else (if reqs[0].connected && reqs[0].id == id then 1 else 0) + Users(reqs[1..], id)
  }

  predicate IdFits(s: Server, i: int)
    requires 0 <= i < |s.reqs|
  {
    s.reqs[i].id == 0 || Logged(s, i)
  }

  // The counter of a record is the number of its connections, at most one on a write server.
  predicate Counted(s: Server, r: int)
    requires 0 <= r < |s.arr|
  {
    s.arr[r] == Users(s.reqs, FIRST_ID + r) && (s.kind == Writer ==> s.arr[r] <= 1)
  }

  // The process holds the record lock of its kind exactly while the counter is not zero.
  predicate Held(k: Store, s: Server, p: nat, r: int)
    requires 0 <= r < |s.arr| && r < |k.locks| && p < |k.locks[r]|
  {
    k.locks[r][p] == if s.arr[r] > 0 then LockOf(s.kind) else Unlocked
  }

  ghost predicate Orderly(b: Pair, n: nat, p: nat) {
    && Fits(b, n, p)
    && (forall i | 0 <= i < |b.s.reqs| :: IdFits(b.s, i))
    && (forall r | 0 <= r < RECORDS :: Counted(b.s, r))
    && (forall r | 0 <= r < RECORDS :: Held(b.k, b.s, p, r))
    && (b.s.ctl.Saving? ==> b.s.kind == Writer)
  }

  // One exclusive holder keeps all the others off a record.
  ghost predicate Compatible(locks: seq<Lock>) {
    forall p, q | 0 <= p < |locks| && 0 <= q < |locks| && p != q :: locks[p] == Exclusive ==> locks[q] == Unlocked
  }

  ghost predicate Locked(st: State) {
    && (forall p | 0 <= p < |st.servers| :: Orderly(At(st, p), |st.servers|, p))
    && |st.k.locks| == RECORDS && (forall r | 0 <= r < RECORDS :: Compatible(st.k.locks[r]))
  }

  // ---------- counting ----------

  predicate UsesId(r: Request, id: int) {
    r.connected && r.id == id
  }

  lemma {:induction false} UsersUpdate(reqs: seq<Request>, i: nat, r: Request, id: int)
    requires i < |reqs|
    ensures Users(reqs[i := r], id) + (if UsesId(reqs[i], id) then 1 else 0)
         == Users(reqs, id) + (if UsesId(r, id) then 1 else 0)
  {
    var z := reqs[i := r];
    if i == 0 {
      assert z[1..] == reqs[1..];
    } else {
      UsersUpdate(reqs[1..], i - 1, r, id);
      assert z[1..] == reqs[1..][i - 1 := r];
    }
  }

  lemma {:induction false} UserCounts(reqs: seq<Request>, i: nat, id: int)
    requires i < |reqs| && UsesId(reqs[i], id)
    ensures Users(reqs, id) >= 1
  {
    if i > 0 { UserCounts(reqs[1..], i - 1, id); }
  }

  lemma {:induction false} TwoUsersCount(reqs: seq<Request>, i: nat, j: nat, id: int)
    requires i < j < |reqs| && UsesId(reqs[i], id) && UsesId(reqs[j], id)
    ensures Users(reqs, id) >= 2
  {
    if i == 0 { UserCounts(reqs[1..], j - 1, id); } else { TwoUsersCount(reqs[1..], i - 1, j - 1, id); }
  }

  lemma {:induction false} SomeUser(reqs: seq<Request>, id: int) returns (i: nat)
    requires Users(reqs, id) >= 1
    ensures i < |reqs| && UsesId(reqs[i], id)
  {
    if UsesId(reqs[0], id) { i := 0; } else { i := SomeUser(reqs[1..], id); i := i + 1; }
  }

  lemma {:induction false} NoUsers(reqs: seq<Request>, id: int)
    requires forall i | 0 <= i < |reqs| :: reqs[i] == CLOSED
    ensures Users(reqs, id) == 0
  {
    if reqs != [] {
      assert reqs[0] == CLOSED;
      NoUsers(reqs[1..], id);
    }
  }

  // ---------- one step of one server ----------

  // Both slots are logged in with one id, or neither is.
  predicate SameUser(a: Request, b: Request) {
    (b.id == a.id && b.connected == a.connected) || a.id == b.id == 0
  }

  // Replacing one slot by one with the same id, or by one without an id, and the counters with it.
  lemma SameId(s: Server, z: Server, i: nat)
    requires |s.arr| == RECORDS && i < |s.reqs| == |z.reqs| && z.kind == s.kind && z.arr == s.arr
    requires z.reqs == s.reqs[i := z.reqs[i]]
    requires SameUser(s.reqs[i], z.reqs[i])
    requires forall r | 0 <= r < RECORDS :: Counted(s, r)
    ensures forall r | 0 <= r < RECORDS :: Counted(z, r)
  {
    forall r | 0 <= r < RECORDS ensures Counted(z, r) {
      assert Counted(s, r);
      UsersUpdate(s.reqs, i, z.reqs[i], FIRST_ID + r);
    }
  }

  lemma LoginCounts(s: Server, z: Server, i: nat, id: int)
    requires |s.arr| == RECORDS && i < |s.reqs| && s.reqs[i].id == 0 && ValidId(id) && z.kind == s.kind
    requires z.reqs == s.reqs[i := Request(true, id, None)] && z.arr == s.arr[RecordOf(id) := s.arr[RecordOf(id)] + 1]
    requires s.kind == Writer ==> s.arr[RecordOf(id)] == 0
    requires forall r | 0 <= r < RECORDS :: Counted(s, r)
    ensures forall r | 0 <= r < RECORDS :: Counted(z, r)
  {
    forall r | 0 <= r < RECORDS ensures Counted(z, r) {
      assert Counted(s, r);
      UsersUpdate(s.reqs, i, z.reqs[i], FIRST_ID + r);
    }
  }

  lemma LogoutCounts(s: Server, z: Server, i: nat)
    requires |s.arr| == RECORDS && Logged(s, i) && z.kind == s.kind
    requires z.reqs == s.reqs[i := CLOSED] && z.arr == s.arr[RecordAt(s, i) := s.arr[RecordAt(s, i)] - 1]
    requires forall r | 0 <= r < RECORDS :: Counted(s, r)
    ensures forall r | 0 <= r < RECORDS :: Counted(z, r)
  {
    forall r | 0 <= r < RECORDS ensures Counted(z, r) {
      assert Counted(s, r);
      UsersUpdate(s.reqs, i, z.reqs[i], FIRST_ID + r);
    }
  }

  // The other slots of the server are not touched.
  lemma SlotsStay(b: Pair, c: Pair, i: nat)
    requires i < |b.s.reqs| == |c.s.reqs| && c.s.reqs == b.s.reqs[i := c.s.reqs[i]]
    requires (forall j | 0 <= j < |b.s.reqs| :: IdFits(b.s, j)) && IdFits(c.s, i)
    requires (forall j | 0 <= j < |b.s.reqs| :: Informed(b.s, j)) && Informed(c.s, i)
    requires b.s.ctl.Showing? ==> b.s.ctl.i == i
    ensures (forall j | 0 <= j < |c.s.reqs| :: IdFits(c.s, j))
    ensures (forall j | 0 <= j < |c.s.reqs| :: Informed(c.s, j))
  {
    forall j | 0 <= j < |c.s.reqs| ensures IdFits(c.s, j) && Informed(c.s, j) {
      if j != i { assert IdFits(b.s, j) && Informed(b.s, j); }
    }
  }

  lemma DisconnectOrderly(b: Pair, n: nat, p: nat, i: nat)
    requires Orderly(b, n, p) && Logged(b.s, i) && (b.s.ctl.Showing? ==> b.s.ctl.i == i)
    ensures Orderly(Disconnect(b, n, p, i), n, p)
  {
    var c := Disconnect(b, n, p, i);
    var r0 := RecordAt(b.s, i);
    LogoutCounts(b.s, c.s, i);
    SlotsStay(b, c, i);
    forall r | 0 <= r < RECORDS ensures Held(c.k, c.s, p, r) {
      assert Held(b.k, b.s, p, r) && Counted(b.s, r);
    }
    assert Counted(c.s, r0);
  }

  // Locks of other processes stay as they are.
  ghost predicate OthersStay(k: Store, z: Store, n: nat, p: nat) {
    && StoreFits(k, n) && StoreFits(z, n)
    && forall r, q | 0 <= r < RECORDS && 0 <= q < n && q != p :: z.locks[r][q] == k.locks[r][q]
  }

  lemma LoginOrderly(b: Pair, n: nat, p: nat, i: nat, id: int)
    requires Orderly(b, n, p) && Can(b.s, Move.Login(i, id))
    ensures Orderly(DoLogin(b, n, p, i, id), n, p)
  {
    var c := DoLogin(b, n, p, i, id);
    if !ValidId(id) || Refused(b, p, RecordOf(id)) {
      SameId(b.s, c.s, i);
      SlotsStay(b, c, i);
      forall r | 0 <= r < RECORDS ensures Held(c.k, c.s, p, r) { assert Held(b.k, b.s, p, r); }
    } else {
      assert Counted(b.s, RecordOf(id));
      LoginCounts(b.s, c.s, i, id);
      SlotsStay(b, c, i);
      forall r | 0 <= r < RECORDS ensures Held(c.k, c.s, p, r) { assert Held(b.k, b.s, p, r) && Counted(b.s, r); }
    }
  }

  lemma DieOrderly(b: Pair, n: nat, p: nat)
    requires Orderly(b, n, p)
    ensures Orderly(DoDie(b, n, p), n, p) && OthersStay(b.k, DoDie(b, n, p).k, n, p)
  {
    var c := DoDie(b, n, p);
    forall r | 0 <= r < RECORDS ensures Counted(c.s, r) && Held(c.k, c.s, p, r) {
      NoUsers(c.s.reqs, FIRST_ID + r);
    }
  }

  // A step that changes one slot but not its id, and no lock.
  lemma SlotOrderly(b: Pair, c: Pair, n: nat, p: nat, i: nat)
    requires Orderly(b, n, p) && StoreFits(c.k, n) && c.k.locks == b.k.locks && c.s.kind == b.s.kind
        && c.s.arr == b.s.arr
    requires i < |b.s.reqs| == |c.s.reqs| && c.s.reqs == b.s.reqs[i := c.s.reqs[i]]
    requires SameUser(b.s.reqs[i], c.s.reqs[i])
    requires IdFits(c.s, i) && Informed(c.s, i) && (b.s.ctl.Showing? ==> b.s.ctl.i == i)
    requires (c.s.ctl.Idle? || (c.s.ctl.i == i && Logged(c.s, i))) && (c.s.ctl.Saving? ==> c.s.kind == Writer)
    ensures Orderly(c, n, p)
  {
    SameId(b.s, c.s, i);
    SlotsStay(b, c, i);
    forall r | 0 <= r < RECORDS ensures Held(c.k, c.s, p, r) { assert Held(b.k, b.s, p, r); }
  }

  lemma LogOrderly(b: Pair, k: Store, n: nat, p: nat)
    requires Orderly(b, n, p) && k.locks == b.k.locks && k.file == b.k.file
    ensures Orderly(b.(k := k), n, p)
  {
    var c := b.(k := k);
    forall r | 0 <= r < RECORDS ensures Held(c.k, c.s, p, r) { assert Held(b.k, b.s, p, r); }
  }

  lemma OwnStep(b: Pair, n: nat, p: nat, m: Move)
    requires Orderly(b, n, p) && Can(b.s, m)
    ensures Orderly(Do(b, n, p, m), n, p) && Do(b, n, p, m).s.kind == b.s.kind
        && OthersStay(b.k, Do(b, n, p, m).k, n, p)
  {
    var c := Do(b, n, p, m);
    match m
    case Accept(i) => assert IdFits(b.s, i); SlotOrderly(b, c, n, p, i);
    case Login(i, id) => LoginOrderly(b, n, p, i, id);
    case Show => SlotOrderly(b, c, n, p, b.s.ctl.i);
    case Ignore(i) =>
    case Command(i, params) =>
      assert Informed(b.s, i) && c.s.reqs[i] == b.s.reqs[i];
      SlotOrderly(b, c, n, p, i);
    case Save =>
      assert Informed(b.s, b.s.ctl.i);
      SlotOrderly(b, c, n, p, b.s.ctl.i);
    case Leave => DisconnectOrderly(b, n, p, b.s.ctl.i);
    case Quit(i) =>
      assert IdFits(b.s, i) && Informed(b.s, i);
      if Logged(b.s, i) {
        LogOrderly(b, Finish(b.k, b.s, i, View), n, p);
        DisconnectOrderly(b.(k := Finish(b.k, b.s, i, View)), n, p, i);
      } else {
        SlotOrderly(b, c, n, p, i);
      }
    case Die => DieOrderly(b, n, p);
  }

  // ---------- all servers ----------

  // A server whose process did nothing.
  lemma OtherOrderly(b: Pair, k: Store, n: nat, p: nat, q: nat)
    requires Orderly(b, n, q) && OthersStay(b.k, k, n, p) && p != q
    ensures Orderly(b.(k := k), n, q)
  {
    forall r | 0 <= r < RECORDS ensures Held(k, b.s, q, r) { assert Held(b.k, b.s, q, r); }
  }

  // The kernel grants a lock only where it fits, and gives locks back.
  lemma LocksCompatible(b: Pair, n: nat, p: nat, m: Move, r: nat)
    requires Orderly(b, n, p) && Can(b.s, m) && r < RECORDS && Compatible(b.k.locks[r])
    ensures Compatible(Do(b, n, p, m).k.locks[r])
  {
    var l, z := b.k.locks[r], Do(b, n, p, m).k.locks[r];
    assert OthersStay(b.k, Do(b, n, p, m).k, n, p) by { OwnStep(b, n, p, m); }
    if z[p] != Unlocked && z[p] != l[p] {
      assert m.Login? && ValidId(m.id) && RecordOf(m.id) == r && !Conflict(l, p, z[p]);
      forall q | 0 <= q < n && q != p ensures !Blocks(z[q], z[p]) { assert !Blocks(l[q], z[p]) && z[q] == l[q]; }
    }
    forall x, y | 0 <= x < n && 0 <= y < n && x != y && z[x] == Exclusive ensures z[y] == Unlocked {
      assert l[x] == Exclusive ==> l[y] == Unlocked;
    }
  }

  lemma LockedStep(st: State, p: nat, m: Move, z: State)
    requires Locked(st) && Step(st, p, m, z)
    ensures Locked(z)
  {
    var n := |st.servers|;
    assert Orderly(At(st, p), n, p);
    OwnStep(At(st, p), n, p, m);
    forall q | 0 <= q < n ensures Orderly(At(z, q), n, q) {
      assert Orderly(At(st, q), n, q);
      if q != p { OtherOrderly(At(st, q), z.k, n, p, q); }
    }
    forall r | 0 <= r < RECORDS ensures Compatible(z.k.locks[r]) { LocksCompatible(At(st, p), n, p, m, r); }
  }

  lemma LockedInit(st: State, file: seq<Record>)
    requires Init(st, file)
    ensures Locked(st)
  {
    var n := |st.servers|;
    forall p | 0 <= p < n ensures Orderly(At(st, p), n, p) {
      var b := At(st, p);
      assert Started(b.s);
      forall r | 0 <= r < RECORDS ensures Counted(b.s, r) && Held(b.k, b.s, p, r) { NoUsers(b.s.reqs, FIRST_ID + r); }
    }
  }

  // A connection of some server, logged in to a record.
  predicate On(st: State, p: int, i: int, r: nat) {
    0 <= p < |st.servers| && Logged(st.servers[p], i) && RecordAt(st.servers[p], i) == r
  }

  lemma Holds(st: State, p: nat, i: nat, r: nat)
    requires Locked(st) && On(st, p, i, r)
    ensures r < RECORDS && p < |st.k.locks[r]| == |st.servers| && |st.servers[p].arr| == RECORDS
    ensures st.k.locks[r][p] == LockOf(st.servers[p].kind) && st.servers[p].arr[r] >= 1
  {
    assert Orderly(At(st, p), |st.servers|, p);
    assert Counted(st.servers[p], r) && Held(st.k, st.servers[p], p, r);
    UserCounts(st.servers[p].reqs, i, FIRST_ID + r);
  }

  // Readers only, or exactly one writing connection: two connections to one record, on the same
  // server or on different ones, are both on read servers.
  lemma Exclusion(st: State, p: nat, i: nat, q: nat, j: nat, r: nat)
    requires Locked(st) && On(st, p, i, r) && On(st, q, j, r) && (p != q || i != j)
    ensures st.servers[p].kind == Reader && st.servers[q].kind == Reader
  {
    Holds(st, p, i, r);
    Holds(st, q, j, r);
    assert Orderly(At(st, p), |st.servers|, p);
    if p == q {
      assert Counted(st.servers[p], r);
      TwoUsersCount(st.servers[p].reqs, if i < j then i else j, if i < j then j else i, FIRST_ID + r);
    } else {
      assert Compatible(st.k.locks[r]);
    }
  }

  // A connection that an attempt of this kind must not meet.
  ghost predicate Occupied(st: State, kind: Kind, r: nat) {
    exists q, j :: On(st, q, j, r) && (kind == Writer || st.servers[q].kind == Writer)
  }

  // The counter and the kernel together refuse exactly the attempts that would break exclusion.
  lemma RefusalExact(st: State, p: nat, r: nat)
    requires Locked(st) && p < |st.servers| && r < RECORDS
    ensures Orderly(At(st, p), |st.servers|, p)
    ensures Refused(At(st, p), p, r) <==> Occupied(st, st.servers[p].kind, r)
  {
    var s, l := st.servers[p], st.k.locks[r];
    assert Orderly(At(st, p), |st.servers|, p);
    assert Counted(s, r);
    if Refused(At(st, p), p, r) {
      if s.kind == Writer && s.arr[r] == 1 {
        var j := SomeUser(s.reqs, FIRST_ID + r);
        assert On(st, p, j, r);
      } else {
        var q :| 0 <= q < |l| && q != p && Blocks(l[q], LockOf(s.kind));
        var j := HolderUses(st, q, r);
      }
    } else if Occupied(st, s.kind, r) {
      var q, j :| On(st, q, j, r) && (s.kind == Writer || st.servers[q].kind == Writer);
      Holds(st, q, j, r);
      assert false;
    }
  }

  // A record that a server of this kind may give away: no other process has a lock that stands
  // against it, and a write server has no connection to it itself.
  predicate Free(b: Pair, p: nat, r: nat)
    requires r < |b.k.locks|
  {
    var l := b.k.locks[r];
    && (forall q | 0 <= q < |l| && q != p :: l[q] == Unlocked || (l[q] == Shared && b.s.kind == Reader))
    && (b.s.kind == Writer ==>
         forall j | 0 <= j < |b.s.reqs| :: !(b.s.reqs[j].connected && b.s.reqs[j].id == 902001 + r))
  }

  // Counter and kernel let through exactly the records that are free.
  lemma FreeExact(b: Pair, n: nat, p: nat, r: nat)
    requires Orderly(b, n, p) && r < RECORDS
    ensures Free(b, p, r) <==> !Refused(b, p, r)
  {
    var l := b.k.locks[r];
    assert Counted(b.s, r);
    if b.s.kind == Writer {
      if b.s.arr[r] == 1 {
        var j := SomeUser(b.s.reqs, FIRST_ID + r);
      } else if j :| 0 <= j < |b.s.reqs| && UsesId(b.s.reqs[j], FIRST_ID + r) {
        UserCounts(b.s.reqs, j, FIRST_ID + r);
      }
    }
    forall q | 0 <= q < |l| && q != p
      ensures Blocks(l[q], LockOf(b.s.kind)) <==> !(l[q] == Unlocked || (l[q] == Shared && b.s.kind == Reader))
    {}
  }

  lemma HolderUses(st: State, q: nat, r: nat) returns (j: nat)
    requires Locked(st) && q < |st.servers| && r < RECORDS && |st.k.locks[r]| == |st.servers|
        && st.k.locks[r][q] != Unlocked
    ensures On(st, q, j, r) && LockOf(st.servers[q].kind) == st.k.locks[r][q]
  {
    assert Orderly(At(st, q), |st.servers|, q);
    assert Held(st.k, st.servers[q], q, r) && Counted(st.servers[q], r);
    j := SomeUser(st.servers[q].reqs, FIRST_ID + r);
  }

  // Why a write server counts: as long as it has a client on a record, the kernel would give it
  // the lock again, so the kernel alone would admit a second one.
  lemma KernelAloneAdmits(st: State, p: nat, i: nat, r: nat)
    requires Locked(st) && On(st, p, i, r) && st.servers[p].kind == Writer
    ensures r < |st.k.locks| && !Conflict(st.k.locks[r], p, Exclusive)
    ensures |st.servers[p].arr| == RECORDS && Refused(At(st, p), p, r) && st.servers[p].arr[r] == 1
  {
    Holds(st, p, i, r);
    assert Orderly(At(st, p), |st.servers|, p) && Counted(st.servers[p], r);
    assert Compatible(st.k.locks[r]);
    forall q | 0 <= q < |st.k.locks[r]| && q != p ensures !Blocks(st.k.locks[r][q], Exclusive) {
      assert st.k.locks[r][p] == Exclusive ==> st.k.locks[r][q] == Unlocked;
    }
  }
}
