/** Seeding that is cut off at any point and tried again ends where it would have ended. */
module SeedingRetry {
  import opened Options
  import opened AccountDatabase
  import opened Seeding
  import opened LastWriters
  import opened SeedingOutcome

  /** How far the login of an account may be from where it started, part-way through. */
  predicate LoginDrift(was: Login, now: Login, users: seq<SeededUser>, touched: bool, a: Account)
    requires AllValid(users)
  {
    && (!touched ==> now == was)
    && (LastRole(users, a).None? ==> now.global == was.global)
    && (was.grantOption ==> now.grantOption)
    && (now.grantOption ==> was.grantOption || EverAdmin(users, a))
  }

  /** `d` is a database that seeding may have left when it stopped on its way from `d0`. */
  ghost predicate PartWay(d0: Database, d: Database, entries: seq<PreseededDatabase>, users: seq<SeededUser>)
    requires AllValid(users)
  {
    && d0.databases <= d.databases <= d0.databases + Names(entries)
    && d0.accounts.Keys <= d.accounts.Keys <= d0.accounts.Keys + Touched(entries, users)
    && (forall a :: a in d.accounts ==>
          LoginDrift(Before(d0, a), d.accounts[a], users, a in Touched(entries, users), a))
    && d0.grants.Keys <= d.grants.Keys <= d0.grants.Keys + Keys(entries)
    && (forall k :: k in d0.grants && k !in Keys(entries) ==> d.grants[k] == d0.grants[k])
  }

  /** Completing the seeding from part-way leads to the same database. */
  lemma {:induction false} PartWayLeadsToSame(
    d0: Database, d: Database, entries: seq<PreseededDatabase>, users: seq<SeededUser>)
    requires AllValid(users) && PartWay(d0, d, entries, users)
    ensures Seeded(d, entries, users) == Seeded(d0, entries, users)
  {
    forall a | a in d.accounts.Keys + Touched(entries, users)
      ensures LoginAfter(d, entries, users, a) == LoginAfter(d0, entries, users, a)
    {
      TouchedIffWritten(entries, users, a);
    }
    assert Seeded(d, entries, users).accounts == Seeded(d0, entries, users).accounts;
    assert GrantsAfter(d, entries) == GrantsAfter(d0, entries);
  }

  // ---------------------------------------- every statement stays part-way

  predicate Preseeds(entries: seq<PreseededDatabase>, a: Account) {
    exists p :: p in entries && PreseededAccount(p) == a
  }

  predicate Seeds(users: seq<SeededUser>, a: Account)
    requires AllValid(users)
  {
    exists i :: 0 <= i < |users| && SeededAccount(users[i]) == a
  }

  /** The statements that seeding with these entries and users can send. */
  predicate Sendable(statement: Statement, entries: seq<PreseededDatabase>, users: seq<SeededUser>)
    requires AllValid(users)
  {
    match statement
    case CreateDatabaseIfNotExists(name) => name in Names(entries)
    case SelectUser(_) => true
    case CreateUser(a, _) => Preseeds(entries, a)
    case SetPassword(a, _) => Preseeds(entries, a)
    case GrantAllOn(key) => key in Keys(entries)
    case RevokeLockTablesOn(key) => key in Keys(entries)
    case FlushPrivileges => true
    case CreateUserIfNotExists(a, _) => Seeds(users, a)
    case AlterUser(a, _) => Seeds(users, a)
    case GrantAllWithGrantOption(a) => Seeds(users, a) && EverAdmin(users, a)
    case RevokeAll(a) => Seeds(users, a)
  }

  lemma {:induction false} SeededHasRole(users: seq<SeededUser>, a: Account)
    requires AllValid(users) && Seeds(users, a)
    ensures LastRole(users, a).Some?
  {
    var i :| 0 <= i < |users| && SeededAccount(users[i]) == a;
    if i < |users| - 1 {
      var before := users[..|users| - 1];
      assert SeededAccount(before[i]) == a;
      SeededHasRole(before, a);
    }
  }

  lemma {:induction false} NamedAccountsAreTouched(entries: seq<PreseededDatabase>, users: seq<SeededUser>, a: Account)
    requires AllValid(users) && (Preseeds(entries, a) || Seeds(users, a))
    ensures a in Touched(entries, users)
  {
    var writes := Writes(entries, users);
    if Preseeds(entries, a) {
      var p :| p in entries && PreseededAccount(p) == a;
      var i :| 0 <= i < |entries| && entries[i] == p;
      assert writes[i].account == a && writes[i] in writes;
    } else {
      var i :| 0 <= i < |users| && SeededAccount(users[i]) == a;
      assert writes[|entries| + i].account == a && writes[|entries| + i] in writes;
    }
  }

  lemma {:induction false} LoginStaysPartWay(
    d0: Database, d: Database, a: Account, login: Login, entries: seq<PreseededDatabase>, users: seq<SeededUser>)
    requires AllValid(users) && PartWay(d0, d, entries, users) && a in Touched(entries, users)
    requires LoginDrift(Before(d0, a), login, users, true, a)
    ensures PartWay(d0, SetLogin(d, a, login), entries, users)
  {
  }

  lemma {:induction false} GrantStaysPartWay(
    d0: Database, d: Database, key: GrantKey, privileges: set<Privilege>,
    entries: seq<PreseededDatabase>, users: seq<SeededUser>)
    requires AllValid(users) && PartWay(d0, d, entries, users) && key in Keys(entries)
    ensures PartWay(d0, d.(grants := d.grants[key := privileges]), entries, users)
  {
  }

  lemma {:induction false} StatementStaysPartWay(
    d0: Database, d: Database, statement: Statement, entries: seq<PreseededDatabase>, users: seq<SeededUser>)
    requires AllValid(users) && PartWay(d0, d, entries, users) && Sendable(statement, entries, users)
    ensures Exec(d, statement).Some? ==> PartWay(d0, Exec(d, statement).value, entries, users)
  {
    var r := Exec(d, statement);
    match statement
    case CreateDatabaseIfNotExists(_) =>
    case SelectUser(_) =>
    case FlushPrivileges =>
    case GrantAllOn(key) =>
      GrantStaysPartWay(d0, d, key, DATABASE_PRIVILEGES, entries, users);
    case RevokeLockTablesOn(key) =>
      if r.Some? { GrantStaysPartWay(d0, d, key, d.grants[key] - {LockTables}, entries, users); }
    case _ =>
      var a := statement.account;
      NamedAccountsAreTouched(entries, users, a);
      if Seeds(users, a) { SeededHasRole(users, a); }
      if r.Some? && r.value != d {
        LoginStaysPartWay(d0, d, a, r.value.accounts[a], entries, users);
        assert r.value == SetLogin(d, a, r.value.accounts[a]);
      }
  }

  lemma {:induction false} SendStaysPartWay(
    d0: Database, s: Session, statement: Statement, entries: seq<PreseededDatabase>, users: seq<SeededUser>)
    requires AllValid(users) && PartWay(d0, s.database, entries, users) && Sendable(statement, entries, users)
    ensures PartWay(d0, Send(s, statement).database, entries, users)
  {
    StatementStaysPartWay(d0, s.database, statement, entries, users);
  }

  lemma {:induction false} SeedEntryStaysPartWay(
    d0: Database, s: Session, p: PreseededDatabase, entries: seq<PreseededDatabase>, users: seq<SeededUser>)
    requires AllValid(users) && PartWay(d0, s.database, entries, users) && p in entries
    ensures PartWay(d0, SeedEntry(s, p).database, entries, users)
  {
    var s1 := Send(s, CreateDatabaseIfNotExists(p.dbName));
    SendStaysPartWay(d0, s, CreateDatabaseIfNotExists(p.dbName), entries, users);
    var s2 := Fetched(Send(s1, SelectUser(p.user)));
    SendStaysPartWay(d0, s1, SelectUser(p.user), entries, users);
    var s3 := EnsureUser(s1, p);
    SendStaysPartWay(d0, s2, SetPassword(PreseededAccount(p), p.password), entries, users);
    SendStaysPartWay(d0, s2, CreateUser(PreseededAccount(p), p.password), entries, users);
    SendStaysPartWay(d0, s3, GrantAllOn(PreseededKey(p)), entries, users);
    SendStaysPartWay(d0, Send(s3, GrantAllOn(PreseededKey(p))), RevokeLockTablesOn(PreseededKey(p)), entries, users);
  }

  lemma {:induction false} SeedUserStaysPartWay(
    d0: Database, s: Session, i: nat, entries: seq<PreseededDatabase>, users: seq<SeededUser>)
    requires AllValid(users) && PartWay(d0, s.database, entries, users) && i < |users|
    ensures PartWay(d0, SeedUserEntry(s, users[i]).database, entries, users)
  {
    var u := users[i];
    var a := SeededAccount(u);
    var s1 := Send(s, CreateUserIfNotExists(a, u.password));
    SendStaysPartWay(d0, s, CreateUserIfNotExists(a, u.password), entries, users);
    var s2 := Send(s1, AlterUser(a, u.password));
    SendStaysPartWay(d0, s1, AlterUser(a, u.password), entries, users);
    SendStaysPartWay(d0, s2, RoleStatement(ParseRole(u.role).value, a), entries, users);
  }

  lemma {:induction false} SeedEntriesStayPartWay(
    d0: Database, s: Session, k: nat, entries: seq<PreseededDatabase>, users: seq<SeededUser>)
    requires AllValid(users) && PartWay(d0, s.database, entries, users) && k <= |entries|
    ensures PartWay(d0, SeedEntries(s, entries[..k]).database, entries, users)
  {
    if k > 0 {
      assert entries[..k][..k - 1] == entries[..k - 1];
      SeedEntriesStayPartWay(d0, s, k - 1, entries, users);
      SeedEntryStaysPartWay(d0, SeedEntries(s, entries[..k - 1]), entries[k - 1], entries, users);
    }
  }

  lemma {:induction false} SeedUserEntriesStayPartWay(
    d0: Database, s: Session, k: nat, entries: seq<PreseededDatabase>, users: seq<SeededUser>)
    requires AllValid(users) && PartWay(d0, s.database, entries, users) && k <= |users|
    ensures PartWay(d0, SeedUserEntries(s, users[..k]).database, entries, users)
  {
    if k > 0 {
      assert users[..k][..k - 1] == users[..k - 1];
      SeedUserEntriesStayPartWay(d0, s, k - 1, entries, users);
      SeedUserStaysPartWay(d0, SeedUserEntries(s, users[..k - 1]), k - 1, entries, users);
    }
  }

  lemma {:induction false} SeedBothStaysPartWay(
    d0: Database, s: Session, entries: seq<PreseededDatabase>, users: seq<SeededUser>)
    requires AllValid(users) && PartWay(d0, s.database, entries, users)
    ensures PartWay(d0, SeedBoth(s, entries, users).database, entries, users)
  {
    assert entries[..|entries|] == entries && users[..|users|] == users;
    SeedEntriesStayPartWay(d0, Open(s), |entries|, entries, users);
    SendStaysPartWay(d0, SeedEntries(Open(s), entries), FlushPrivileges, entries, users);
    SeedUserEntriesStayPartWay(d0, Open(SeedAll(s, entries)), |users|, entries, users);
  }

  // --------------------------------------- and can still be completed

  /** Adding an account at host `%`, or for a name whose `%` account exists, is harmless. */
  predicate SafeForSeeding(d: Database, statement: Statement, entries: seq<PreseededDatabase>) {
    match statement
    case CreateUser(a, _) => a.host == ANY_HOST
    case CreateUserIfNotExists(a, _) => forall p :: p in entries ==> PreseededAccount(p) in d.accounts
    case _ => true
  }

  lemma {:induction false} SendKeepsSeedable(s: Session, statement: Statement, entries: seq<PreseededDatabase>)
    requires Seedable(s.database, entries) && SafeForSeeding(s.database, statement, entries)
    ensures Seedable(Send(s, statement).database, entries)
  {
  }

  lemma {:induction false} EnsureUserKeepsSeedable(s: Session, p: PreseededDatabase, entries: seq<PreseededDatabase>)
    requires Seedable(s.database, entries)
    ensures Seedable(EnsureUser(s, p).database, entries)
    ensures s.database.accounts.Keys <= EnsureUser(s, p).database.accounts.Keys
    ensures EnsureUser(s, p).alive ==> s.alive && PreseededAccount(p) in EnsureUser(s, p).database.accounts
  {
    var asked := Fetched(Send(s, SelectUser(p.user)));
    SendKeepsSeedable(s, SelectUser(p.user), entries);
    SendKeepsSeedable(asked, SetPassword(PreseededAccount(p), p.password), entries);
    SendKeepsSeedable(asked, CreateUser(PreseededAccount(p), p.password), entries);
  }

  lemma {:induction false} SeedEntryKeepsSeedable(s: Session, p: PreseededDatabase, entries: seq<PreseededDatabase>)
    requires Seedable(s.database, entries)
    ensures Seedable(SeedEntry(s, p).database, entries)
    ensures s.database.accounts.Keys <= SeedEntry(s, p).database.accounts.Keys
    ensures SeedEntry(s, p).alive ==> s.alive && PreseededAccount(p) in SeedEntry(s, p).database.accounts
  {
    var s1 := Send(s, CreateDatabaseIfNotExists(p.dbName));
    SendKeepsSeedable(s, CreateDatabaseIfNotExists(p.dbName), entries);
    var s3 := EnsureUser(s1, p);
    EnsureUserKeepsSeedable(s1, p, entries);
    SendKeepsSeedable(s3, GrantAllOn(PreseededKey(p)), entries);
    var s4 := Send(s3, GrantAllOn(PreseededKey(p)));
    SendKeepsSeedable(s4, RevokeLockTablesOn(PreseededKey(p)), entries);
  }

  lemma {:induction false} SeedEntriesKeepSeedable(s: Session, k: nat, entries: seq<PreseededDatabase>)
    requires Seedable(s.database, entries) && k <= |entries|
    ensures Seedable(SeedEntries(s, entries[..k]).database, entries)
    ensures SeedEntries(s, entries[..k]).alive ==>
      forall p :: p in entries[..k] ==> PreseededAccount(p) in SeedEntries(s, entries[..k]).database.accounts
  {
    if k > 0 {
      assert entries[..k][..k - 1] == entries[..k - 1];
      assert entries[..k] == entries[..k - 1] + [entries[k - 1]];
      SeedEntriesKeepSeedable(s, k - 1, entries);
      SeedEntryKeepsSeedable(SeedEntries(s, entries[..k - 1]), entries[k - 1], entries);
    }
  }

  lemma {:induction false} SeedUserKeepsSeedable(s: Session, u: SeededUser, entries: seq<PreseededDatabase>)
    requires Seedable(s.database, entries)
    requires s.alive ==> forall p :: p in entries ==> PreseededAccount(p) in s.database.accounts
    ensures Seedable(SeedUserEntry(s, u).database, entries)
    ensures SeedUserEntry(s, u).alive ==>
      s.alive && forall p :: p in entries ==> PreseededAccount(p) in SeedUserEntry(s, u).database.accounts
  {
    if ValidUser(u) && s.alive {
      var a := SeededAccount(u);
      var s1 := Send(s, CreateUserIfNotExists(a, u.password));
      SendKeepsSeedable(s, CreateUserIfNotExists(a, u.password), entries);
      var s2 := Send(s1, AlterUser(a, u.password));
      SendKeepsSeedable(s1, AlterUser(a, u.password), entries);
      SendKeepsSeedable(s2, RoleStatement(ParseRole(u.role).value, a), entries);
    }
  }

  lemma {:induction false} SeedUserEntriesKeepSeedable(
    s: Session, users: seq<SeededUser>, entries: seq<PreseededDatabase>)
    requires Seedable(s.database, entries)
    requires s.alive ==> forall p :: p in entries ==> PreseededAccount(p) in s.database.accounts
    ensures Seedable(SeedUserEntries(s, users).database, entries)
    ensures SeedUserEntries(s, users).alive ==>
      forall p :: p in entries ==> PreseededAccount(p) in SeedUserEntries(s, users).database.accounts
  {
    if users != [] {
      var before := users[..|users| - 1];
      SeedUserEntriesKeepSeedable(s, before, entries);
      SeedUserKeepsSeedable(SeedUserEntries(s, before), users[|users| - 1], entries);
    }
  }

  lemma {:induction false} SeedBothKeepsSeedable(s: Session, entries: seq<PreseededDatabase>, users: seq<SeededUser>)
    requires Seedable(s.database, entries)
    ensures Seedable(SeedBoth(s, entries, users).database, entries)
  {
    assert entries[..|entries|] == entries;
    SeedEntriesKeepSeedable(Open(s), |entries|, entries);
    SeedUserEntriesKeepSeedable(Open(SeedAll(s, entries)), users, entries);
  }

  // ------------------------------------------------------------- the theorem

  /** One attempt: after how many statements the connection fails, if it does, which rows
      get lost, and whether it can be opened at all. */
  datatype Attempt = Attempt(budget: Option<nat>, lostRows: seq<bool>, openable: bool)

  function Connect(d: Database, attempt: Attempt): Session {
    Session(d, attempt.budget, attempt.lostRows, attempt.openable, true)
  }

  function AfterAttempt(
    d: Database, attempt: Attempt, entries: seq<PreseededDatabase>, users: seq<SeededUser>): Database {
    SeedBoth(Connect(d, attempt), entries, users).database
  }

  function AfterAttempts(
    d: Database, attempts: seq<Attempt>, entries: seq<PreseededDatabase>, users: seq<SeededUser>): Database {
    if attempts == [] then d
    else
      var before := AfterAttempts(d, attempts[..|attempts| - 1], entries, users);
      AfterAttempt(before, attempts[|attempts| - 1], entries, users)
  }

  /** Each attempt starts from what the ones before it left, over a connection that goes down
      after `budget` statements and loses the rows it says. */
  lemma {:induction false} AttemptGoesOn(
    d: Database, attempts: seq<Attempt>, budget: Option<nat>, lostRows: seq<bool>, openable: bool,
    entries: seq<PreseededDatabase>, users: seq<SeededUser>)
    ensures AfterAttempts(d, attempts + [Attempt(budget, lostRows, openable)], entries, users) ==
      SeedBoth(Session(AfterAttempts(d, attempts, entries, users), budget, lostRows, openable, true),
               entries, users).database
  {
    assert (attempts + [Attempt(budget, lostRows, openable)])[..|attempts|] == attempts;
  }

  lemma {:induction false} AttemptsStayPartWay(
    d: Database, attempts: seq<Attempt>, entries: seq<PreseededDatabase>, users: seq<SeededUser>)
    requires AllValid(users)
    ensures PartWay(d, AfterAttempts(d, attempts, entries, users), entries, users)
  {
    if attempts != [] {
      var before, last := attempts[..|attempts| - 1], attempts[|attempts| - 1];
      AttemptsStayPartWay(d, before, entries, users);
      SeedBothStaysPartWay(d, Connect(AfterAttempts(d, before, entries, users), last), entries, users);
    }
  }

  lemma {:induction false} AttemptsKeepSeedable(
    d: Database, attempts: seq<Attempt>, entries: seq<PreseededDatabase>, users: seq<SeededUser>)
    requires Seedable(d, entries)
    ensures Seedable(AfterAttempts(d, attempts, entries, users), entries)
  {
    if attempts != [] {
      var before, last := attempts[..|attempts| - 1], attempts[|attempts| - 1];
      AttemptsKeepSeedable(d, before, entries, users);
      SeedBothKeepsSeedable(Connect(AfterAttempts(d, before, entries, users), last), entries, users);
    }
  }

  /** However many attempts were cut off, and wherever, an attempt that reports success, over
      whatever connection, has left the database of the last writers on top of the original. */
  lemma {:induction false} AnySuccessConverges(
    d: Database, attempts: seq<Attempt>, last: Attempt, entries: seq<PreseededDatabase>, users: seq<SeededUser>)
    requires SeedBoth(Connect(AfterAttempts(d, attempts, entries, users), last), entries, users).alive
    ensures AllValid(users)
    ensures AfterAttempts(d, attempts + [last], entries, users) == Seeded(d, entries, users)
  {
    var mid := AfterAttempts(d, attempts, entries, users);
    SuccessLeavesSeeded(Connect(mid, last), entries, users);
    AttemptsStayPartWay(d, attempts, entries, users);
    PartWayLeadsToSame(d, mid, entries, users);
    assert (attempts + [last])[..|attempts|] == attempts;
  }

  /** And a seeding that is not cut off then succeeds and ends in the database an undisturbed
      seeding would have ended in, if that one succeeds. */
  lemma {:induction false} RetryConverges(
    d: Database, attempts: seq<Attempt>, entries: seq<PreseededDatabase>, users: seq<SeededUser>)
    requires SeedBoth(Reliable(d), entries, users).alive
    ensures SeedBoth(Reliable(AfterAttempts(d, attempts, entries, users)), entries, users)
         == SeedBoth(Reliable(d), entries, users)
  {
    SeedBothOutcome(d, entries, users);
    AttemptsStayPartWay(d, attempts, entries, users);
    AttemptsKeepSeedable(d, attempts, entries, users);
    var mid := AfterAttempts(d, attempts, entries, users);
    SeedBothOutcome(mid, entries, users);
    PartWayLeadsToSame(d, mid, entries, users);
  }
}
