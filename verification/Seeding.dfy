/** Seeding of databases and users: the statements that `Seed` and `SeedUsers` send. */
module Seeding {
  import opened Options
  import opened AccountDatabase

  datatype PreseededDatabase = PreseededDatabase(dbName: string, user: string, password: string)

  datatype SeededUser = SeededUser(user: string, password: string, host: string, role: string)

  datatype Role = Admin | Minimal

  function ParseRole(role: string): Option<Role> {
    if role == "admin" then Some(Admin) else if role == "minimal" then Some(Minimal) else None
  }

  function HostString(host: string): Option<string> {
    if host == "localhost" then Some("localhost")
    else if host == "loopback" then Some("127.0.0.1")
    else if host == "any" then Some(ANY_HOST)
    else None
  }

  predicate ValidUser(u: SeededUser): (valid: bool)
    ensures valid <==> u.role in ["admin", "minimal"] && u.host in ["localhost", "loopback", "any"]
  {
    ParseRole(u.role).Some? && HostString(u.host).Some?
  }

  function PreseededAccount(p: PreseededDatabase): Account {
    Account(p.user, ANY_HOST)
  }

  function PreseededKey(p: PreseededDatabase): GrantKey {
    GrantKey(p.dbName, PreseededAccount(p))
  }

  function SeededAccount(u: SeededUser): Account
    requires ValidUser(u)
  {
    Account(u.user, HostString(u.host).value)
  }

  function Grant(s: Session, p: PreseededDatabase): (r: Session)
    ensures !s.alive ==> r == s
    ensures s.budget.None? ==> r.budget.None?
  {
    Send(Send(s, GrantAllOn(PreseededKey(p))), RevokeLockTablesOn(PreseededKey(p)))
  }

  /** The user is created or updated, depending on whether the name was found. */
  function EnsureUser(s: Session, p: PreseededDatabase): (r: Session)
    ensures !s.alive ==> r == s
    ensures s.budget.None? ==> r.budget.None?
  {
    var asked := Send(s, SelectUser(p.user));
    if Found(asked, p.user)
    then Send(Fetched(asked), SetPassword(PreseededAccount(p), p.password))
    else Send(Fetched(asked), CreateUser(PreseededAccount(p), p.password))
  }

  function SeedEntry(s: Session, p: PreseededDatabase): (r: Session)
    ensures !s.alive ==> r == s
    ensures s.budget.None? ==> r.budget.None?
  {
    Grant(EnsureUser(Send(s, CreateDatabaseIfNotExists(p.dbName)), p), p)
  }

  function SeedEntries(s: Session, entries: seq<PreseededDatabase>): (r: Session)
    ensures !s.alive ==> r == s
    ensures s.budget.None? ==> r.budget.None?
  {
    if entries == [] then s
    else SeedEntry(SeedEntries(s, entries[..|entries| - 1]), entries[|entries| - 1])
  }

  function SeedAll(s: Session, entries: seq<PreseededDatabase>): (r: Session)
    ensures !s.alive ==> r == s
  {
    if entries == [] then s else Send(SeedEntries(Open(s), entries), FlushPrivileges)
  }

  function RoleStatement(role: Role, a: Account): Statement {
    match role
    case Admin => GrantAllWithGrantOption(a)
    case Minimal => RevokeAll(a)
  }

  function SeedUserEntry(s: Session, u: SeededUser): (r: Session)
    ensures !s.alive ==> r == s
    ensures s.budget.None? ==> r.budget.None?
  {
    if !ValidUser(u) then s.(alive := false)
    else
      var a := SeededAccount(u);
      Send(Send(Send(s, CreateUserIfNotExists(a, u.password)), AlterUser(a, u.password)),
           RoleStatement(ParseRole(u.role).value, a))
  }

  function SeedUserEntries(s: Session, users: seq<SeededUser>): (r: Session)
    ensures !s.alive ==> r == s
    ensures s.budget.None? ==> r.budget.None?
  {
    if users == [] then s
    else SeedUserEntry(SeedUserEntries(s, users[..|users| - 1]), users[|users| - 1])
  }

  function SeedAllUsers(s: Session, users: seq<SeededUser>): (r: Session)
    ensures !s.alive ==> r == s
  {
    if users == [] then s else SeedUserEntries(Open(s), users)
  }

  /** The two seeding stages of a start, in order. */
  function SeedBoth(s: Session, entries: seq<PreseededDatabase>, users: seq<SeededUser>): Session {
    SeedAllUsers(SeedAll(s, entries), users)
  }

  // -------------------------------------------------- the procedures themselves

  /** The database helper with its connection; each method stops at the first error. */
  class DbHelper {
    const preseededDatabases: seq<PreseededDatabase>
    const seededUsers: seq<SeededUser>
    var session: Session

    constructor (preseededDatabases: seq<PreseededDatabase>, seededUsers: seq<SeededUser>, session: Session)
      ensures this.preseededDatabases == preseededDatabases && this.seededUsers == seededUsers
      ensures this.session == session
    {
      this.preseededDatabases, this.seededUsers := preseededDatabases, seededUsers;
      this.session := session;
    }

    method Execute(statement: Statement) returns (ok: bool)
      requires session.alive
      modifies this`session
      ensures session == Send(old(session), statement) && ok == session.alive
    {
      session := Send(session, statement);
      ok := session.alive;
    }

    method CreateDBIfNeeded(p: PreseededDatabase) returns (ok: bool)
      requires session.alive
      modifies this`session
      ensures session == Send(old(session), CreateDatabaseIfNotExists(p.dbName)) && ok == session.alive
      ensures ok <==> old(session).budget != Some(0)
      ensures ok ==> forall name :: name in session.database.databases <==>
        name == p.dbName || name in old(session).database.databases
      ensures session.database.accounts == old(session).database.accounts
      ensures session.database.grants == old(session).database.grants
      ensures !ok ==> session.database == old(session).database
    {
      ok := Execute(CreateDatabaseIfNotExists(p.dbName));
    }

    /** A row that cannot be fetched is taken for an unknown user. */
    method IsExistingUser(p: PreseededDatabase) returns (found: bool, ok: bool)
      requires session.alive
      modifies this`session
      ensures session == Fetched(Send(old(session), SelectUser(p.user))) && ok == session.alive
      ensures ok ==> found == Found(Send(old(session), SelectUser(p.user)), p.user)
      ensures found ==> exists a :: a in session.database.accounts && a.user == p.user
      ensures ok && !found && old(session).lostRows == [] ==>
        forall a :: a in session.database.accounts ==> a.user != p.user
      ensures session.database == old(session).database
    {
      ok := Execute(SelectUser(p.user));
      found := ok && Found(session, p.user);
      session := Fetched(session);
    }

    method GrantUserPrivileges(p: PreseededDatabase) returns (ok: bool)
      requires session.alive
      modifies this`session
      ensures session == Grant(old(session), p) && ok == session.alive
      ensures ok ==> Account(p.user, "%") in session.database.accounts
      ensures ok ==>
        var key := GrantKey(p.dbName, Account(p.user, "%"));
        && key in session.database.grants && session.database.grants[key] == PRESEEDED_PRIVILEGES
        && session.database.grants - {key} == old(session).database.grants - {key}
      ensures session.database.accounts == old(session).database.accounts
      ensures session.database.databases == old(session).database.databases
    {
      PreseededPrivilegesAre();
      ok := Execute(GrantAllOn(PreseededKey(p)));
      if !ok { return; }
      ok := Execute(RevokeLockTablesOn(PreseededKey(p)));
    }

    method SeedDatabase(p: PreseededDatabase) returns (ok: bool)
      requires session.alive
      modifies this`session
      ensures session == SeedEntry(old(session), p) && ok == session.alive
    {
      ok := CreateDBIfNeeded(p);
      if !ok { return; }
      var userAlreadyExists;
      userAlreadyExists, ok := IsExistingUser(p);
      if !ok { return; }
      if !userAlreadyExists {
        ok := Execute(CreateUser(PreseededAccount(p), p.password));
      } else {
        ok := Execute(SetPassword(PreseededAccount(p), p.password));
      }
      if !ok { return; }
      ok := GrantUserPrivileges(p);
    }

    method Seed() returns (ok: bool)
      requires session.alive
      modifies this`session
      ensures session == SeedAll(old(session), preseededDatabases) && ok == session.alive
    {
      if |preseededDatabases| == 0 {
        return true;
      }
      session := Open(session);
      if !session.alive {
        return false;
      }
      var i := 0;
      while i < |preseededDatabases|
        invariant 0 <= i <= |preseededDatabases|
        invariant session.alive
        invariant session == SeedEntries(Open(old(session)), preseededDatabases[..i])
      {
        ok := SeedDatabase(preseededDatabases[i]);
        assert preseededDatabases[..i + 1][..i] == preseededDatabases[..i];
        i := i + 1;
        if !ok {
          SeedEntriesStop(Open(old(session)), preseededDatabases, i);
          return;
        }
      }
      assert preseededDatabases[..i] == preseededDatabases;
      ok := Execute(FlushPrivileges);
    }

    method SeedUser(u: SeededUser) returns (ok: bool)
      requires session.alive
      modifies this`session
      ensures session == SeedUserEntry(old(session), u) && ok == session.alive
    {
      if ParseRole(u.role).None? || HostString(u.host).None? {
        session := session.(alive := false);
        return false;
      }
      var a := SeededAccount(u);
      ok := Execute(CreateUserIfNotExists(a, u.password));
      if !ok { return; }
      ok := Execute(AlterUser(a, u.password));
      if !ok { return; }
      ok := Execute(RoleStatement(ParseRole(u.role).value, a));
    }

    method SeedUsers() returns (ok: bool)
      requires session.alive
      modifies this`session
      ensures session == SeedAllUsers(old(session), seededUsers) && ok == session.alive
    {
      if |seededUsers| == 0 {
        return true;
      }
      session := Open(session);
      if !session.alive {
        return false;
      }
      var i := 0;
      while i < |seededUsers|
        invariant 0 <= i <= |seededUsers|
        invariant session.alive
        invariant session == SeedUserEntries(Open(old(session)), seededUsers[..i])
      {
        ok := SeedUser(seededUsers[i]);
        assert seededUsers[..i + 1][..i] == seededUsers[..i];
        i := i + 1;
        if !ok {
          SeedUserEntriesStop(Open(old(session)), seededUsers, i);
          return;
        }
      }
      assert seededUsers[..i] == seededUsers;
      ok := true;
    }
  }

  // ------------------------------------------- nothing is sent after an error

  lemma {:induction false} SeedEntriesStop(s: Session, entries: seq<PreseededDatabase>, i: nat)
    requires i <= |entries| && !SeedEntries(s, entries[..i]).alive
    ensures SeedEntries(s, entries) == SeedEntries(s, entries[..i])
  {
    if i == |entries| {
      assert entries[..i] == entries;
    } else {
      var before := entries[..|entries| - 1];
      assert before[..i] == entries[..i];
      SeedEntriesStop(s, before, i);
    }
  }

  lemma {:induction false} SeedUserEntriesStop(s: Session, users: seq<SeededUser>, i: nat)
    requires i <= |users| && !SeedUserEntries(s, users[..i]).alive
    ensures SeedUserEntries(s, users) == SeedUserEntries(s, users[..i])
  {
    if i == |users| {
      assert users[..i] == users;
    } else {
      var before := users[..|users| - 1];
      assert before[..i] == users[..i];
      SeedUserEntriesStop(s, before, i);
    }
  }
}
