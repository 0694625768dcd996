/** Exactly when seeding completes, over any connection, and what it leaves behind. */
module SeedingOutcome {
  import opened Options
  import opened AccountDatabase
  import opened Seeding
  import opened LastWriters

  // ----------------------------------------------------- what a connection allows

  /** The connection stays up for `n` more statements. */
  predicate Enough(budget: Option<nat>, n: nat) {
    budget.Some? ==> n <= budget.value
  }

  function Spend(budget: Option<nat>, n: nat): Option<nat>
    requires Enough(budget, n)
  {
    if budget.Some? then Some(budget.value - n) else None
  }

  /** The row of query number `i` is lost. */
  predicate Lost(rows: seq<bool>, i: nat) {
    i < |rows| && rows[i]
  }

  function Rest(rows: seq<bool>, n: nat): seq<bool> {
    if n <= |rows| then rows[n..] else []
  }

  /** The session once `statements` have been sent and `queries` of them have asked for rows. */
  function After(s: Session, d: Database, statements: nat, queries: nat): Session
    requires Enough(s.budget, statements)
  {
    s.(database := d, budget := Spend(s.budget, statements), lostRows := Rest(s.lostRows, queries))
  }

  lemma {:induction false} AfterTwice(s: Session, d: Database, d': Database, m: nat, n: nat, i: nat, j: nat)
    requires Enough(s.budget, m)
    ensures Enough(After(s, d, m, i).budget, n) <==> Enough(s.budget, m + n)
    ensures Enough(s.budget, m + n) ==> After(After(s, d, m, i), d', n, j) == After(s, d', m + n, i + j)
    ensures Lost(After(s, d, m, i).lostRows, j) <==> Lost(s.lostRows, i + j)
  {
  }

  lemma {:induction false} SendExact(s: Session, statement: Statement)
    requires s.alive
    ensures Send(s, statement).alive <==> Enough(s.budget, 1) && Exec(s.database, statement).Some?
    ensures Send(s, statement).alive ==>
      Send(s, statement) == After(s, Exec(s.database, statement).value, 1, 0)
  {
  }

  // --------------------------------------------------------------- one entry

  /** Whether the server accepts the entry, with the row of its query lost or not. */
  predicate Passes(d: Database, p: PreseededDatabase, lost: bool) {
    if lost then PreseededAccount(p) !in d.accounts
    else NameExists(d, p.user) ==> PreseededAccount(p) in d.accounts
  }

  lemma {:induction false} EnsureUserExact(s: Session, p: PreseededDatabase)
    requires s.alive
    ensures EnsureUser(s, p).alive <==> Enough(s.budget, 2) && Passes(s.database, p, Lost(s.lostRows, 0))
    ensures EnsureUser(s, p).alive ==>
      var a := PreseededAccount(p);
      EnsureUser(s, p) == After(s, SetLogin(s.database, a, Before(s.database, a).(password := p.password)), 2, 1)
  {
    var a := PreseededAccount(p);
    SendExact(s, SelectUser(p.user));
    var asked := Send(s, SelectUser(p.user));
    if asked.alive {
      assert a in asked.database.accounts ==> NameExists(asked.database, p.user);
      SendExact(Fetched(asked), SetPassword(a, p.password));
      SendExact(Fetched(asked), CreateUser(a, p.password));
    }
  }

  lemma {:induction false} GrantExact(s: Session, p: PreseededDatabase)
    requires s.alive && PreseededAccount(p) in s.database.accounts
    ensures Grant(s, p).alive <==> Enough(s.budget, 2)
    ensures Grant(s, p).alive ==>
      var grants := s.database.grants[PreseededKey(p) := DATABASE_PRIVILEGES - {LockTables}];
      Grant(s, p) == After(s, s.database.(grants := grants), 2, 0)
  {
    var key := PreseededKey(p);
    SendExact(s, GrantAllOn(key));
    var granted := Send(s, GrantAllOn(key));
    if granted.alive {
      SendExact(granted, RevokeLockTablesOn(key));
      assert s.database.grants[key := DATABASE_PRIVILEGES][key := DATABASE_PRIVILEGES - {LockTables}]
          == s.database.grants[key := DATABASE_PRIVILEGES - {LockTables}];
    }
  }

  /** `r` is the session that one entry should lead to from `s`. */
  predicate EntryDone(s: Session, r: Session, p: PreseededDatabase) {
    && (r.alive <==> s.alive && Enough(s.budget, 5) && Passes(s.database, p, Lost(s.lostRows, 0)))
    && (r.alive ==> r == After(s, AfterEntry(s.database, p), 5, 1))
  }

  lemma {:induction false} EntryExact(s: Session, p: PreseededDatabase)
    requires s.alive
    ensures EntryDone(s, SeedEntry(s, p), p)
  {
    SendExact(s, CreateDatabaseIfNotExists(p.dbName));
    var created := Send(s, CreateDatabaseIfNotExists(p.dbName));
    if created.alive {
      assert NameExists(created.database, p.user) <==> NameExists(s.database, p.user);
      EnsureUserExact(created, p);
      var ensured := EnsureUser(created, p);
      if ensured.alive { GrantExact(ensured, p); }
    }
  }

  // ------------------------------------------------------- all preseeded databases

  predicate NamedBefore(entries: seq<PreseededDatabase>, i: nat)
    requires i < |entries|
  {
    exists j :: 0 <= j < i && entries[j].user == entries[i].user
  }

  /** Entry `i` gets through: a lost row is harmless only for a user that is not at host `%`
      yet; otherwise a name in use must be in use there, if need be by an earlier entry. */
  predicate PassesAt(d: Database, entries: seq<PreseededDatabase>, rows: seq<bool>, i: nat)
    requires i < |entries|
  {
    var p := entries[i];
    if Lost(rows, i) then PreseededAccount(p) !in d.accounts && !NamedBefore(entries, i)
    else NameExists(d, p.user) ==> PreseededAccount(p) in d.accounts || NamedBefore(entries, i)
  }

  predicate Passable(d: Database, entries: seq<PreseededDatabase>, rows: seq<bool>) {
    forall i :: 0 <= i < |entries| ==> PassesAt(d, entries, rows, i)
  }

  lemma {:induction false} KnownAfter(d: Database, entries: seq<PreseededDatabase>, p: PreseededDatabase)
    ensures var f := Seeded(d, entries, []);
      && (PreseededAccount(p) in f.accounts <==>
            PreseededAccount(p) in d.accounts || NamedBefore(entries + [p], |entries|))
      && (NameExists(f, p.user) <==> NameExists(d, p.user) || NamedBefore(entries + [p], |entries|))
  {
    var f, all := Seeded(d, entries, []), entries + [p];
    if j :| 0 <= j < |entries| && all[j].user == p.user {
      assert Writes(entries, [])[j] in Writes(entries, []) && Writes(entries, [])[j].account == PreseededAccount(p);
    }
    forall a | a in Touched(entries, []) && a.user == p.user
      ensures a == PreseededAccount(p) && NamedBefore(all, |entries|)
    {
      var j :| 0 <= j < |entries| && Writes(entries, [])[j].account == a;
      assert all[j].user == p.user;
    }
  }

  lemma {:induction false} PassesOnTop(
    d: Database, entries: seq<PreseededDatabase>, p: PreseededDatabase, rows: seq<bool>)
    ensures Passes(Seeded(d, entries, []), p, Lost(rows, |entries|)) <==>
            PassesAt(d, entries + [p], rows, |entries|)
  {
    KnownAfter(d, entries, p);
  }

  lemma {:induction false} PassableAdd(
    d: Database, entries: seq<PreseededDatabase>, p: PreseededDatabase, rows: seq<bool>)
    ensures Passable(d, entries + [p], rows) <==>
      Passable(d, entries, rows) && PassesAt(d, entries + [p], rows, |entries|)
  {
    var all := entries + [p];
    forall i | 0 <= i < |entries| ensures PassesAt(d, all, rows, i) <==> PassesAt(d, entries, rows, i) {
      assert NamedBefore(all, i) <==> NamedBefore(entries, i) by {
        assert forall j :: 0 <= j <= i ==> all[j] == entries[j];
      }
    }
  }

  /** `r` is the session that seeding the entries from `s` should lead to. */
  predicate EntriesDone(s: Session, r: Session, entries: seq<PreseededDatabase>) {
    && (r.alive <==> Enough(s.budget, 5 * |entries|) && Passable(s.database, entries, s.lostRows))
    && (r.alive ==> r == EntriesAfter(s, entries))
  }

  function EntriesAfter(s: Session, entries: seq<PreseededDatabase>): Session
    requires Enough(s.budget, 5 * |entries|)
  {
    After(s, Seeded(s.database, entries, []), 5 * |entries|, |entries|)
  }

  lemma {:induction false} EntriesPassAdd(
    s: Session, mid: Session, r: Session, entries: seq<PreseededDatabase>, p: PreseededDatabase)
    requires s.alive && EntriesDone(s, mid, entries) && EntryDone(mid, r, p)
    ensures r.alive <==>
      Enough(s.budget, 5 * |entries + [p]|) && Passable(s.database, entries + [p], s.lostRows)
  {
    PassableAdd(s.database, entries, p, s.lostRows);
    PassesOnTop(s.database, entries, p, s.lostRows);
  }

  lemma {:induction false} EntryAddsToSeeded(
    s: Session, mid: Session, r: Session, entries: seq<PreseededDatabase>, p: PreseededDatabase)
    requires s.alive && EntriesDone(s, mid, entries) && EntryDone(mid, r, p) && r.alive
    ensures r.database == Seeded(s.database, entries + [p], [])
  {
    SeededAddEntry(s.database, entries, p);
  }

  lemma {:induction false} EntriesSpend(s: Session, mid: Session, r: Session, n: nat)
    requires Enough(s.budget, 5 * n) && mid == After(s, mid.database, 5 * n, n)
    requires Enough(mid.budget, 5) && r == After(mid, r.database, 5, 1)
    ensures Enough(s.budget, 5 * n + 5) && r == After(s, r.database, 5 * n + 5, n + 1)
  {
    AfterTwice(s, mid.database, r.database, 5 * n, 5, n, 1);
  }

  lemma {:induction false} EntriesSessionAdd(
    s: Session, mid: Session, r: Session, entries: seq<PreseededDatabase>, p: PreseededDatabase)
    requires s.alive && EntriesDone(s, mid, entries) && EntryDone(mid, r, p) && r.alive
    ensures Enough(s.budget, 5 * |entries + [p]|) && r == EntriesAfter(s, entries + [p])
  {
    EntriesSpend(s, mid, r, |entries|);
    EntryAddsToSeeded(s, mid, r, entries, p);
    assert |entries + [p]| == |entries| + 1;
  }

  lemma {:induction false} EntriesDoneAdd(
    s: Session, mid: Session, r: Session, entries: seq<PreseededDatabase>, p: PreseededDatabase)
    requires s.alive && EntriesDone(s, mid, entries) && EntryDone(mid, r, p)
    ensures EntriesDone(s, r, entries + [p])
  {
    EntriesPassAdd(s, mid, r, entries, p);
    if r.alive {
      EntriesSessionAdd(s, mid, r, entries, p);
    }
  }

  lemma {:induction false} SeedEntriesExact(s: Session, entries: seq<PreseededDatabase>)
    requires s.alive
    ensures EntriesDone(s, SeedEntries(s, entries), entries)
  {
    if entries == [] {
      NothingSeeded(s.database);
    } else {
      var before, p := entries[..|entries| - 1], entries[|entries| - 1];
      assert entries == before + [p];
      var mid := SeedEntries(s, before);
      SeedEntriesExact(s, before);
      if mid.alive { EntryExact(mid, p); }
      EntriesDoneAdd(s, mid, SeedEntry(mid, p), before, p);
    }
  }

  /** How many statements `Seed` sends. */
  function SeedCost(entries: seq<PreseededDatabase>): nat {
    if entries == [] then 0 else 5 * |entries| + 1
  }

  predicate SeedDone(s: Session, r: Session, entries: seq<PreseededDatabase>) {
    && (r.alive <==>
          && (entries == [] || s.openable)
          && Enough(s.budget, SeedCost(entries))
          && Passable(s.database, entries, s.lostRows))
    && (r.alive ==> r == After(s, Seeded(s.database, entries, []), SeedCost(entries), |entries|))
  }

  lemma {:induction false} SeedDoneFrom(s: Session, mid: Session, r: Session, entries: seq<PreseededDatabase>)
    requires s.alive && s.openable && entries != [] && EntriesDone(s, mid, entries)
    requires r.alive <==> mid.alive && Enough(mid.budget, 1)
    requires r.alive ==> r == After(mid, mid.database, 1, 0)
    ensures SeedDone(s, r, entries)
  {
    var n := |entries|;
    if mid.alive { AfterTwice(s, mid.database, mid.database, 5 * n, 1, n, 0); }
  }

  lemma {:induction false} FlushExact(s: Session)
    requires s.alive
    ensures Send(s, FlushPrivileges).alive <==> Enough(s.budget, 1)
    ensures Enough(s.budget, 1) ==> Send(s, FlushPrivileges) == After(s, s.database, 1, 0)
  {
    SendExact(s, FlushPrivileges);
  }

  /** `Seed` over any connection, with any rows lost: exactly when it succeeds, and then the
      whole session it leaves. */
  lemma {:induction false} SeedExact(s: Session, entries: seq<PreseededDatabase>)
    requires s.alive
    ensures SeedDone(s, SeedAll(s, entries), entries)
  {
    if entries == [] {
      NothingSeeded(s.database);
    } else if s.openable {
      var mid := SeedEntries(s, entries);
      SeedEntriesExact(s, entries);
      if mid.alive { FlushExact(mid); }
      SeedDoneFrom(s, mid, Send(mid, FlushPrivileges), entries);
    }
  }

  // --------------------------------------------------------------- seeded users

  predicate UserDone(s: Session, r: Session, u: SeededUser) {
    && (r.alive <==> s.alive && Enough(s.budget, 3) && ValidUser(u))
    && (r.alive ==> r == After(s, AfterUser(s.database, u), 3, 0))
  }

  lemma {:induction false} UserExact(s: Session, u: SeededUser)
    requires s.alive
    ensures UserDone(s, SeedUserEntry(s, u), u)
  {
    if ValidUser(u) {
      var a := SeededAccount(u);
      SendExact(s, CreateUserIfNotExists(a, u.password));
      var s1 := Send(s, CreateUserIfNotExists(a, u.password));
      if s1.alive {
        SendExact(s1, AlterUser(a, u.password));
        var s2 := Send(s1, AlterUser(a, u.password));
        if s2.alive { SendExact(s2, RoleStatement(ParseRole(u.role).value, a)); }
      }
    }
  }

  predicate UsersDone(s: Session, r: Session, d: Database, entries: seq<PreseededDatabase>, users: seq<SeededUser>) {
    && (r.alive <==> Enough(s.budget, 3 * |users|) && AllValid(users))
    && (r.alive ==> r == After(s, Seeded(d, entries, users), 3 * |users|, 0))
  }

  lemma {:induction false} UsersDoneAdd(
    s: Session, mid: Session, r: Session, d: Database,
    entries: seq<PreseededDatabase>, users: seq<SeededUser>, u: SeededUser)
    requires s.alive && UsersDone(s, mid, d, entries, users) && UserDone(mid, r, u)
    ensures UsersDone(s, r, d, entries, users + [u])
  {
    if mid.alive { AfterTwice(s, mid.database, r.database, 3 * |users|, 3, 0, 0); }
    var all := users + [u];
    assert AllValid(all) <==> AllValid(users) && ValidUser(u) by {
      assert all[|users|] == u && forall i :: 0 <= i < |users| ==> all[i] == users[i];
    }
    if r.alive { SeededAddUser(d, entries, users, u); }
  }

  lemma {:induction false} UsersExact(
    s: Session, d: Database, entries: seq<PreseededDatabase>, users: seq<SeededUser>)
    requires s.alive && s.database == Seeded(d, entries, [])
    ensures UsersDone(s, SeedUserEntries(s, users), d, entries, users)
  {
    if users != [] {
      var before, u := users[..|users| - 1], users[|users| - 1];
      assert users == before + [u];
      var mid := SeedUserEntries(s, before);
      UsersExact(s, d, entries, before);
      if mid.alive { UserExact(mid, u); }
      UsersDoneAdd(s, mid, SeedUserEntry(mid, u), d, entries, before, u);
    }
  }

  // ----------------------------------------------------------------- both stages

  predicate SeedUsersDone(
    s: Session, r: Session, d: Database, entries: seq<PreseededDatabase>, users: seq<SeededUser>) {
    && (r.alive <==> s.alive && (users == [] || s.openable) && Enough(s.budget, 3 * |users|) && AllValid(users))
    && (r.alive ==> r == After(s, Seeded(d, entries, users), 3 * |users|, 0))
  }

  lemma {:induction false} SeedUsersExact(
    s: Session, d: Database, entries: seq<PreseededDatabase>, users: seq<SeededUser>)
    requires s.alive && s.database == Seeded(d, entries, [])
    ensures SeedUsersDone(s, SeedAllUsers(s, users), d, entries, users)
  {
    if users != [] && s.openable {
      UsersExact(s, d, entries, users);
    }
  }

  /** Both stages get through: the connection opens and stays up for all statements, the
      server accepts every entry, and every user entry is valid. */
  predicate GetsThrough(s: Session, entries: seq<PreseededDatabase>, users: seq<SeededUser>) {
    && ((entries == [] && users == []) || s.openable)
    && Enough(s.budget, SeedCost(entries) + 3 * |users|)
    && Passable(s.database, entries, s.lostRows)
    && AllValid(users)
  }

  predicate BothDone(s: Session, r: Session, entries: seq<PreseededDatabase>, users: seq<SeededUser>) {
    && (r.alive <==> GetsThrough(s, entries, users))
    && (r.alive ==>
          r == After(s, Seeded(s.database, entries, users), SeedCost(entries) + 3 * |users|, |entries|))
  }

  lemma {:induction false} BothDoneFrom(
    s: Session, mid: Session, r: Session, entries: seq<PreseededDatabase>, users: seq<SeededUser>)
    requires s.alive && SeedDone(s, mid, entries) && SeedUsersDone(mid, r, s.database, entries, users)
    ensures BothDone(s, r, entries, users)
  {
    if mid.alive { AfterTwice(s, mid.database, r.database, SeedCost(entries), 3 * |users|, |entries|, 0); }
  }

  /** Both stages, over any connection and with any rows lost: exactly when they succeed, and
      then they leave exactly the database of the last writers. */
  lemma {:induction false} SeedBothExact(s: Session, entries: seq<PreseededDatabase>, users: seq<SeededUser>)
    requires s.alive
    ensures SeedBoth(s, entries, users).alive <==> GetsThrough(s, entries, users)
    ensures SeedBoth(s, entries, users).alive ==>
      SeedBoth(s, entries, users) ==
      After(s, Seeded(s.database, entries, users), SeedCost(entries) + 3 * |users|, |entries|)
  {
    var mid := SeedAll(s, entries);
    SeedExact(s, entries);
    if mid.alive { SeedUsersExact(mid, s.database, entries, users); }
    BothDoneFrom(s, mid, SeedAllUsers(mid, users), entries, users);
  }

  /** So a seeding that reports success has left that database, whatever the connection did. */
  lemma {:induction false} SuccessLeavesSeeded(s: Session, entries: seq<PreseededDatabase>, users: seq<SeededUser>)
    requires SeedBoth(s, entries, users).alive
    ensures AllValid(users)
    ensures SeedBoth(s, entries, users).database == Seeded(s.database, entries, users)
  {
    SeedBothExact(s, entries, users);
  }

  // ------------------------------------------------------- when no row is lost

  /** A preseeded user name in use under some host must be in use at host `%`. */
  predicate Seedable(d: Database, entries: seq<PreseededDatabase>) {
    forall p :: p in entries ==> NameExists(d, p.user) ==> PreseededAccount(p) in d.accounts
  }

  lemma {:induction false} NamedBeforeIsKnown(d: Database, entries: seq<PreseededDatabase>, i: nat)
    requires Passable(d, entries, []) && i < |entries| && NameExists(d, entries[i].user)
    ensures PreseededAccount(entries[i]) in d.accounts
  {
    assert PassesAt(d, entries, [], i);
    if j :| 0 <= j < i && entries[j].user == entries[i].user {
      NamedBeforeIsKnown(d, entries, j);
    }
  }

  /** With no row lost, earlier entries make no difference. */
  lemma {:induction false} PassableWithoutLoss(d: Database, entries: seq<PreseededDatabase>)
    ensures Passable(d, entries, []) <==> Seedable(d, entries)
  {
    if Passable(d, entries, []) {
      forall p | p in entries && NameExists(d, p.user) ensures PreseededAccount(p) in d.accounts {
        var i: nat :| i < |entries| && entries[i] == p;
        NamedBeforeIsKnown(d, entries, i);
      }
    }
  }

  /** Entries seeded before do not change whether the remaining ones can be. */
  lemma {:induction false} SeedablePreserved(d: Database, done: seq<PreseededDatabase>, p: PreseededDatabase)
    requires Seedable(d, done)
    ensures var f := Seeded(d, done, []);
      (NameExists(f, p.user) ==> PreseededAccount(p) in f.accounts) <==>
      (NameExists(d, p.user) ==> PreseededAccount(p) in d.accounts)
  {
  }

  /** Over a connection that does not fail, `Seed` succeeds exactly when every preseeded
      user name in use under some host is in use at host `%`. */
  lemma {:induction false} SeedSucceedsExactlyWhen(d: Database, entries: seq<PreseededDatabase>)
    ensures SeedAll(Reliable(d), entries).alive <==> Seedable(d, entries)
    ensures Seedable(d, entries) ==> SeedAll(Reliable(d), entries) == Reliable(Seeded(d, entries, []))
  {
    SeedExact(Reliable(d), entries);
    PassableWithoutLoss(d, entries);
  }

  /** Both stages succeed exactly when the databases can be seeded and every user entry is
      valid, and then leave exactly the database of the last writers. */
  lemma {:induction false} SeedBothOutcome(d: Database, entries: seq<PreseededDatabase>, users: seq<SeededUser>)
    ensures SeedBoth(Reliable(d), entries, users).alive <==> Seedable(d, entries) && AllValid(users)
    ensures Seedable(d, entries) && AllValid(users) ==>
      SeedBoth(Reliable(d), entries, users) == Reliable(Seeded(d, entries, users))
  {
    SeedBothExact(Reliable(d), entries, users);
    PassableWithoutLoss(d, entries);
  }

  /** A lost row lets a seeding through that must fail otherwise: the name is in use under
      another host only, is taken for unknown, and gets an account at host `%`. */
  lemma {:induction false} LostRowLetsThrough(d: Database, p: PreseededDatabase)
    requires NameExists(d, p.user) && PreseededAccount(p) !in d.accounts
    ensures !SeedAll(Reliable(d), [p]).alive
    ensures SeedAll(Reliable(d).(lostRows := [true]), [p]).alive
  {
    SeedSucceedsExactlyWhen(d, [p]);
    assert p in [p];
    SeedExact(Reliable(d).(lostRows := [true]), [p]);
  }

  /** And it makes a seeding fail that succeeds otherwise: the account is there, but is
      created once more. */
  lemma {:induction false} LostRowBlocks(d: Database, p: PreseededDatabase)
    requires PreseededAccount(p) in d.accounts
    ensures SeedAll(Reliable(d), [p]).alive
    ensures !SeedAll(Reliable(d).(lostRows := [true]), [p]).alive
  {
    SeedSucceedsExactlyWhen(d, [p]);
    SeedExact(Reliable(d).(lostRows := [true]), [p]);
    assert !PassesAt(d, [p], [true], 0);
  }

  // ------------------------------------------- the outcome, point by point

  /** After a successful seeding the password of a seeded user and host is that of its last
      entry; that of a preseeded user at host `%` is that of its last preseeded database,
      unless a seeded user at host `any` has the same name. */
  lemma {:induction false} PasswordIsThatOfLastWriter(
    s: Session, entries: seq<PreseededDatabase>, users: seq<SeededUser>, k: nat)
    requires SeedBoth(s, entries, users).alive
    ensures AllValid(users)
    ensures LastEntry(users, k) ==>
      HasPassword(SeedBoth(s, entries, users).database, NamedAccount(users[k]), users[k].password)
    ensures LastPreseeded(entries, users, k) ==>
      HasPassword(SeedBoth(s, entries, users).database, Account(entries[k].user, "%"), entries[k].password)
  {
    SuccessLeavesSeeded(s, entries, users);
    if LastEntry(users, k) {
      NamedIsSeeded(users[k]);
      LastEntryPassword(s.database, entries, users, k);
    }
    if LastPreseeded(entries, users, k) { LastPreseededPassword(s.database, entries, users, k); }
  }

  /** The global privileges are those of the role in the last seeded user entry: all there
      are for `admin`, none for `minimal`. */
  lemma {:induction false} PrivilegesAreThoseOfLastRole(
    s: Session, entries: seq<PreseededDatabase>, users: seq<SeededUser>, k: nat)
    requires SeedBoth(s, entries, users).alive
    ensures AllValid(users)
    ensures LastEntry(users, k) ==>
      var a, after := NamedAccount(users[k]), SeedBoth(s, entries, users).database;
      && a in after.accounts && users[k].role in ["admin", "minimal"]
      && (users[k].role == "admin" ==> forall x: Privilege :: x in after.accounts[a].global)
      && (users[k].role == "minimal" ==> after.accounts[a].global == {})
  {
    SuccessLeavesSeeded(s, entries, users);
    if LastEntry(users, k) {
      NamedIsSeeded(users[k]);
      SeededRole(s.database, entries, users, k);
    }
  }

  /** The grant option is never taken away: afterwards an account has it exactly when it
      had it before or some seeded user entry, not only the last, makes it an admin. */
  lemma {:induction false} GrantOptionIsSticky(
    s: Session, entries: seq<PreseededDatabase>, users: seq<SeededUser>, a: Account)
    requires SeedBoth(s, entries, users).alive
    requires a in SeedBoth(s, entries, users).database.accounts
    ensures AllValid(users)
    ensures SeedBoth(s, entries, users).database.accounts[a].grantOption <==>
      (a in s.database.accounts && s.database.accounts[a].grantOption) || EverAdmin(users, a)
  {
    SuccessLeavesSeeded(s, entries, users);
  }

  /** So the role `minimal` does not remove what the role `admin` gave. */
  lemma {:induction false} MinimalKeepsGrantOption(d: Database, name: string)
    ensures var a := Account(name, "localhost");
      var users := [SeededUser(name, "p", "localhost", "admin"), SeededUser(name, "p", "localhost", "minimal")];
      var after := SeedBoth(Reliable(d), [], users);
      after.alive && a in after.database.accounts
      && after.database.accounts[a].global == {} && after.database.accounts[a].grantOption
  {
    var users := [SeededUser(name, "p", "localhost", "admin"), SeededUser(name, "p", "localhost", "minimal")];
    assert ValidUser(users[0]) && ValidUser(users[1]);
    SeedBothOutcome(d, [], users);
    PrivilegesAreThoseOfLastRole(Reliable(d), [], users, 1);
    GrantOptionIsSticky(Reliable(d), [], users, Account(name, "localhost"));
    assert EverAdmin(users, SeededAccount(users[0]));
  }

  /** Every preseeded database exists and its user at host `%` has exactly the privileges
      listed on it; everything that no entry names is as it was. */
  lemma {:induction false} SeedingFrames(s: Session, entries: seq<PreseededDatabase>, users: seq<SeededUser>)
    requires SeedBoth(s, entries, users).alive
    ensures AllValid(users)
    ensures var d, after := s.database, SeedBoth(s, entries, users).database;
      && (forall p :: p in entries ==> p.dbName in after.databases)
      && (forall p :: p in entries ==> HasPreseededGrant(after, GrantKey(p.dbName, Account(p.user, "%"))))
      && (forall name :: (forall p :: p in entries ==> p.dbName != name) ==>
            (name in after.databases <==> name in d.databases))
      && (forall key :: (forall p :: p in entries ==> key != GrantKey(p.dbName, Account(p.user, "%"))) ==>
            (key in after.grants <==> key in d.grants) && (key in d.grants ==> after.grants[key] == d.grants[key]))
      && (forall a :: NotNamed(entries, users, a) ==>
            (a in after.accounts <==> a in d.accounts) && (a in d.accounts ==> after.accounts[a] == d.accounts[a]))
  {
    SuccessLeavesSeeded(s, entries, users);
    PreseededPrivilegesAre();
    assert forall p :: p in entries ==> PreseededKey(p) in Keys(entries);
    forall a | NotNamed(entries, users, a) && a in s.database.accounts
      ensures LoginAfter(s.database, entries, users, a) == s.database.accounts[a]
    {
      NotNamedIsUntouched(entries, users, a);
      TouchedIffWritten(entries, users, a);
      UntouchedHasNoRole(entries, users, a);
    }
    forall a | NotNamed(entries, users, a) ensures a !in Touched(entries, users) {
      NotNamedIsUntouched(entries, users, a);
    }
  }

  predicate HasPreseededGrant(d: Database, key: GrantKey) {
    key in d.grants && d.grants[key] == PRESEEDED_PRIVILEGES
  }

  /** No entry is about the account. */
  predicate NotNamed(entries: seq<PreseededDatabase>, users: seq<SeededUser>, a: Account) {
    && (forall p :: p in entries ==> a != Account(p.user, "%"))
    && (forall u :: u in users ==> a != NamedAccount(u))
  }

  lemma {:induction false} NotNamedIsUntouched(
    entries: seq<PreseededDatabase>, users: seq<SeededUser>, a: Account)
    requires AllValid(users) && NotNamed(entries, users, a)
    ensures a !in Touched(entries, users)
  {
    var writes := Writes(entries, users);
    forall i | 0 <= i < |writes| ensures writes[i].account != a {
      if i >= |entries| {
        NamedIsSeeded(users[i - |entries|]);
        assert users[i - |entries|] in users;
      } else {
        assert entries[i] in entries;
      }
    }
  }

  /** If entry `i` is the first with an invalid role or host, `SeedUsers` stops there: the
      database is what the entries before it made of it. */
  lemma {:induction false} InvalidUserStopsCleanly(s: Session, users: seq<SeededUser>, i: nat)
    requires i < |users|
    requires users[i].role !in ["admin", "minimal"] || users[i].host !in ["localhost", "loopback", "any"]
    requires SeedUserEntries(Open(s), users[..i]).alive
    ensures SeedAllUsers(s, users) == SeedUserEntries(Open(s), users[..i]).(alive := false)
  {
    assert users[..i + 1][..i] == users[..i];
    SeedUserEntriesStop(Open(s), users, i + 1);
  }

  lemma {:induction false} SeededUserIsValid(s: Session, u: SeededUser)
    requires SeedUserEntry(s, u).alive
    ensures s.alive && ValidUser(u)
  {
  }

  lemma {:induction false} AllValidAdd(users: seq<SeededUser>, u: SeededUser)
    requires AllValid(users) && ValidUser(u)
    ensures AllValid(users + [u])
  {
  }

  lemma {:induction false} SuccessMeansValid(s: Session, users: seq<SeededUser>)
    requires SeedUserEntries(s, users).alive
    ensures AllValid(users)
  {
    if users != [] {
      var before, u := users[..|users| - 1], users[|users| - 1];
      var mid := SeedUserEntries(s, before);
      SeededUserIsValid(mid, u);
      SuccessMeansValid(s, before);
      AllValidAdd(before, u);
      assert users == before + [u];
    }
  }

  /** Success means that every entry had a valid role and host. */
  lemma {:induction false} SuccessMeansAllValid(s: Session, users: seq<SeededUser>)
    requires SeedAllUsers(s, users).alive
    ensures forall u :: u in users ==> u.role in ["admin", "minimal"] && u.host in ["localhost", "loopback", "any"]
  {
    if users != [] {
      SuccessMeansValid(Open(s), users);
      forall u | u in users ensures ValidUser(u) {
        var i :| 0 <= i < |users| && users[i] == u;
      }
    }
  }
}
