/** The database that a completed seeding leaves behind, said without following its
    statements: for each account, database and grant, what the last entry naming it asks. */
module LastWriters {
  import opened Options
  import opened AccountDatabase
  import opened Seeding

  datatype Write = Write(account: Account, password: string)

  predicate AllValid(users: seq<SeededUser>) {
    forall i :: 0 <= i < |users| ==> ValidUser(users[i])
  }

  /** The account a seeded user entry is about. */
  function NamedAccount(u: SeededUser): Account {
    Account(u.user, if u.host == "localhost" then "localhost" else if u.host == "loopback" then "127.0.0.1" else "%")
  }

  lemma {:induction false} NamedIsSeeded(u: SeededUser)
    requires ValidUser(u)
    ensures SeededAccount(u) == NamedAccount(u)
  {
  }

  /** Every password seeding sets, in order: the preseeded databases, then the users. */
  function Writes(entries: seq<PreseededDatabase>, users: seq<SeededUser>): seq<Write>
    requires AllValid(users)
  {
    seq(|entries|, i requires 0 <= i < |entries| => Write(PreseededAccount(entries[i]), entries[i].password)) +
    seq(|users|, i requires 0 <= i < |users| => Write(SeededAccount(users[i]), users[i].password))
  }

  function LastPassword(writes: seq<Write>, a: Account): Option<string> {
    if writes == [] then None
    else if writes[|writes| - 1].account == a then Some(writes[|writes| - 1].password)
    else LastPassword(writes[..|writes| - 1], a)
  }

  function LastRole(users: seq<SeededUser>, a: Account): Option<Role>
    requires AllValid(users)
  {
    if users == [] then None
    else if SeededAccount(users[|users| - 1]) == a then ParseRole(users[|users| - 1].role)
    else LastRole(users[..|users| - 1], a)
  }

  predicate EverAdmin(users: seq<SeededUser>, a: Account)
    requires AllValid(users)
  {
    exists i :: 0 <= i < |users| && SeededAccount(users[i]) == a && users[i].role == "admin"
  }

  /** The login of an account beforehand; a new account starts with nothing. */
  function Before(d: Database, a: Account): Login {
    if a in d.accounts then d.accounts[a] else Login("", {}, false)
  }

  function RolePrivileges(role: Role): set<Privilege> {
    match role
    case Admin => GLOBAL_PRIVILEGES
    case Minimal => {}
  }

  function LoginAfter(d: Database, entries: seq<PreseededDatabase>, users: seq<SeededUser>, a: Account): Login
    requires AllValid(users)
  {
    var password, role := LastPassword(Writes(entries, users), a), LastRole(users, a);
    Login(
      if password.Some? then password.value else Before(d, a).password,
      if role.Some? then RolePrivileges(role.value) else Before(d, a).global,
      Before(d, a).grantOption || EverAdmin(users, a))
  }

  function Names(entries: seq<PreseededDatabase>): set<string> {
    set p | p in entries :: p.dbName
  }

  function Keys(entries: seq<PreseededDatabase>): set<GrantKey> {
    set p | p in entries :: PreseededKey(p)
  }

  function Touched(entries: seq<PreseededDatabase>, users: seq<SeededUser>): set<Account>
    requires AllValid(users)
  {
    set w | w in Writes(entries, users) :: w.account
  }

  /** The database after a completed seeding. */
  function Seeded(d: Database, entries: seq<PreseededDatabase>, users: seq<SeededUser>): Database
    requires AllValid(users)
  {
    Database(
      d.databases + Names(entries),
      map a | a in d.accounts.Keys + Touched(entries, users) :: LoginAfter(d, entries, users, a),
      GrantsAfter(d, entries))
  }

  function GrantsAfter(d: Database, entries: seq<PreseededDatabase>): map<GrantKey, set<Privilege>> {
    map k | k in d.grants.Keys + Keys(entries) ::
      if k in Keys(entries) then DATABASE_PRIVILEGES - {LockTables} else d.grants[k]
  }

  lemma {:induction false} NothingSeeded(d: Database)
    ensures Seeded(d, [], []) == d
  {
    assert Writes([], []) == [];
  }

  // --------------------------------------------------------- one entry more

  /** What one preseeded entry adds. */
  function AfterEntry(d: Database, p: PreseededDatabase): Database {
    var a := PreseededAccount(p);
    Database(
      d.databases + {p.dbName},
      d.accounts[a := Before(d, a).(password := p.password)],
      d.grants[PreseededKey(p) := DATABASE_PRIVILEGES - {LockTables}])
  }

  lemma {:induction false} WritesAddEntry(entries: seq<PreseededDatabase>, p: PreseededDatabase)
    ensures Writes(entries + [p], []) == Writes(entries, []) + [Write(PreseededAccount(p), p.password)]
  {
  }

  lemma {:induction false} WritesAddUser(entries: seq<PreseededDatabase>, users: seq<SeededUser>, u: SeededUser)
    requires AllValid(users + [u])
    ensures AllValid(users) && ValidUser(u)
    ensures Writes(entries, users + [u]) == Writes(entries, users) + [Write(SeededAccount(u), u.password)]
  {
    assert (users + [u])[|users|] == u;
    forall i | 0 <= i < |users| ensures ValidUser(users[i]) { assert users[i] == (users + [u])[i]; }
  }

  lemma {:induction false} LastPasswordAdd(writes: seq<Write>, w: Write, a: Account)
    ensures LastPassword(writes + [w], a) == if w.account == a then Some(w.password) else LastPassword(writes, a)
  {
  }

  lemma {:induction false} LastPasswordIffTouched(writes: seq<Write>, a: Account)
    ensures LastPassword(writes, a).Some? <==> exists w :: w in writes && w.account == a
  {
    if writes != [] {
      var before, w := writes[..|writes| - 1], writes[|writes| - 1];
      LastPasswordIffTouched(before, a);
      assert writes == before + [w];
    }
  }

  lemma {:induction false} TouchedIffWritten(entries: seq<PreseededDatabase>, users: seq<SeededUser>, a: Account)
    requires AllValid(users)
    ensures a in Touched(entries, users) <==> LastPassword(Writes(entries, users), a).Some?
  {
    LastPasswordIffTouched(Writes(entries, users), a);
  }

  lemma {:induction false} UntouchedHasNoRole(entries: seq<PreseededDatabase>, users: seq<SeededUser>, a: Account)
    requires AllValid(users) && a !in Touched(entries, users)
    ensures LastRole(users, a).None? && !EverAdmin(users, a)
  {
    forall i | 0 <= i < |users| ensures SeededAccount(users[i]) != a {
      assert Writes(entries, users)[|entries| + i].account == SeededAccount(users[i]);
      assert Writes(entries, users)[|entries| + i] in Writes(entries, users);
    }
    NoRole(users, a);
  }

  lemma {:induction false} NoRole(users: seq<SeededUser>, a: Account)
    requires AllValid(users)
    requires forall i :: 0 <= i < |users| ==> SeededAccount(users[i]) != a
    ensures LastRole(users, a).None?
  {
    if users != [] { NoRole(users[..|users| - 1], a); }
  }

  /** The expected login is the one found, also for an account that does not exist. */
  lemma {:induction false} BeforeSeeded(
    d: Database, entries: seq<PreseededDatabase>, users: seq<SeededUser>, a: Account)
    requires AllValid(users)
    ensures Before(Seeded(d, entries, users), a) == LoginAfter(d, entries, users, a)
  {
    if a !in d.accounts && a !in Touched(entries, users) {
      TouchedIffWritten(entries, users, a);
      UntouchedHasNoRole(entries, users, a);
    }
  }

  lemma {:induction false} LoginAddEntry(d: Database, entries: seq<PreseededDatabase>, p: PreseededDatabase, a: Account)
    ensures LoginAfter(d, entries + [p], [], a) ==
      var login := LoginAfter(d, entries, [], a);
      if a == PreseededAccount(p) then login.(password := p.password) else login
  {
    WritesAddEntry(entries, p);
    LastPasswordAdd(Writes(entries, []), Write(PreseededAccount(p), p.password), a);
  }

  lemma {:induction false} TouchedAddEntry(entries: seq<PreseededDatabase>, p: PreseededDatabase)
    ensures Touched(entries + [p], []) == Touched(entries, []) + {PreseededAccount(p)}
  {
    WritesAddEntry(entries, p);
  }

  lemma {:induction false} AccountsAddEntry(d: Database, entries: seq<PreseededDatabase>, p: PreseededDatabase)
    ensures Seeded(d, entries + [p], []).accounts == AfterEntry(Seeded(d, entries, []), p).accounts
  {
    var f, g := AfterEntry(Seeded(d, entries, []), p), Seeded(d, entries + [p], []);
    TouchedAddEntry(entries, p);
    assert g.accounts.Keys == f.accounts.Keys;
    BeforeSeeded(d, entries, [], PreseededAccount(p));
    forall a | a in g.accounts ensures g.accounts[a] == f.accounts[a] {
      LoginAddEntry(d, entries, p, a);
    }
  }

  lemma {:induction false} SeededAddEntry(d: Database, entries: seq<PreseededDatabase>, p: PreseededDatabase)
    ensures Seeded(d, entries + [p], []) == AfterEntry(Seeded(d, entries, []), p)
  {
    AccountsAddEntry(d, entries, p);
    GrantsAddEntry(d, entries, p);
    assert Names(entries + [p]) == Names(entries) + {p.dbName};
  }

  lemma {:induction false} GrantsAddEntry(d: Database, entries: seq<PreseededDatabase>, p: PreseededDatabase)
    ensures GrantsAfter(d, entries + [p]) ==
      GrantsAfter(d, entries)[PreseededKey(p) := DATABASE_PRIVILEGES - {LockTables}]
  {
  }

  // ------------------------------------------------------------ one user more

  lemma {:induction false} LoginAddUser(
    d: Database, entries: seq<PreseededDatabase>, users: seq<SeededUser>, u: SeededUser, a: Account)
    requires AllValid(users + [u])
    ensures AllValid(users) && ValidUser(u)
    ensures LoginAfter(d, entries, users + [u], a) ==
      var login := LoginAfter(d, entries, users, a);
      if a == SeededAccount(u) then UserLogin(login, u) else login
  {
    WritesAddUser(entries, users, u);
    LastPasswordAdd(Writes(entries, users), Write(SeededAccount(u), u.password), a);
    assert (users + [u])[..|users|] == users && (users + [u])[|users|] == u;
    assert EverAdmin(users + [u], a) <==>
      EverAdmin(users, a) || (SeededAccount(u) == a && u.role == "admin") by
    {
      if i :| 0 <= i < |users| && SeededAccount(users[i]) == a && users[i].role == "admin" {
        assert (users + [u])[i] == users[i];
      }
    }
  }

  /** What one seeded user does to its account. */
  function UserLogin(login: Login, u: SeededUser): Login
    requires ValidUser(u)
  {
    var role := ParseRole(u.role).value;
    Login(u.password, RolePrivileges(role), login.grantOption || role == Admin)
  }

  function AfterUser(d: Database, u: SeededUser): Database
    requires ValidUser(u)
  {
    var a := SeededAccount(u);
    d.(accounts := d.accounts[a := UserLogin(Before(d, a), u)])
  }

  lemma {:induction false} TouchedAddUser(entries: seq<PreseededDatabase>, users: seq<SeededUser>, u: SeededUser)
    requires AllValid(users + [u])
    ensures AllValid(users) && ValidUser(u)
    ensures Touched(entries, users + [u]) == Touched(entries, users) + {SeededAccount(u)}
  {
    WritesAddUser(entries, users, u);
  }

  lemma {:induction false} AccountAddUser(
    d: Database, entries: seq<PreseededDatabase>, users: seq<SeededUser>, u: SeededUser, a: Account)
    requires AllValid(users + [u]) && AllValid(users) && ValidUser(u)
    requires a in Seeded(d, entries, users + [u]).accounts && a in AfterUser(Seeded(d, entries, users), u).accounts
    ensures Seeded(d, entries, users + [u]).accounts[a] == AfterUser(Seeded(d, entries, users), u).accounts[a]
  {
    BeforeSeeded(d, entries, users, SeededAccount(u));
    LoginAddUser(d, entries, users, u, a);
  }

  lemma {:induction false} SeededAddUser(
    d: Database, entries: seq<PreseededDatabase>, users: seq<SeededUser>, u: SeededUser)
    requires AllValid(users + [u])
    ensures AllValid(users) && ValidUser(u)
    ensures Seeded(d, entries, users + [u]) == AfterUser(Seeded(d, entries, users), u)
  {
    TouchedAddUser(entries, users, u);
    var f, g := AfterUser(Seeded(d, entries, users), u), Seeded(d, entries, users + [u]);
    assert g.accounts.Keys == f.accounts.Keys;
    forall a | a in g.accounts ensures g.accounts[a] == f.accounts[a] {
      AccountAddUser(d, entries, users, u, a);
    }
    assert g.accounts == f.accounts;
  }

  // -------------------------------------------------------- the last of its kind

  /** `writes[k]` is the last write to its account. */
  predicate LastWrite(writes: seq<Write>, k: nat) {
    k < |writes| && forall j :: k < j < |writes| ==> writes[j].account != writes[k].account
  }

  lemma {:induction false} LastWriteIsLastPassword(writes: seq<Write>, k: nat)
    requires LastWrite(writes, k)
    ensures LastPassword(writes, writes[k].account) == Some(writes[k].password)
  {
    if k < |writes| - 1 {
      LastWriteIsLastPassword(writes[..|writes| - 1], k);
    }
  }

  /** No later entry names the user and host of `users[k]`. */
  predicate LastEntry(users: seq<SeededUser>, k: nat) {
    k < |users| &&
    forall j :: k < j < |users| ==> users[j].user != users[k].user || users[j].host != users[k].host
  }

  lemma {:induction false} LastEntryIsLastRole(users: seq<SeededUser>, k: nat)
    requires AllValid(users) && LastEntry(users, k)
    ensures LastRole(users, SeededAccount(users[k])) == ParseRole(users[k].role)
  {
    if k < |users| - 1 {
      LastEntryIsLastRole(users[..|users| - 1], k);
    }
  }

  /** No later preseeded database names the user of `entries[k]`, and no seeded user names
      it with the host `any`. */
  predicate LastPreseeded(entries: seq<PreseededDatabase>, users: seq<SeededUser>, k: nat) {
    && k < |entries|
    && (forall j :: k < j < |entries| ==> entries[j].user != entries[k].user)
    && (forall j :: 0 <= j < |users| ==> users[j].user != entries[k].user || users[j].host != "any")
  }

  lemma {:induction false} LastEntryWritesLast(
    entries: seq<PreseededDatabase>, users: seq<SeededUser>, k: nat)
    requires AllValid(users) && LastEntry(users, k)
    ensures LastWrite(Writes(entries, users), |entries| + k)
    ensures Writes(entries, users)[|entries| + k] == Write(SeededAccount(users[k]), users[k].password)
  {
  }

  lemma {:induction false} LastPreseededWritesLast(
    entries: seq<PreseededDatabase>, users: seq<SeededUser>, k: nat)
    requires AllValid(users) && LastPreseeded(entries, users, k)
    ensures LastWrite(Writes(entries, users), k)
    ensures Writes(entries, users)[k] == Write(PreseededAccount(entries[k]), entries[k].password)
  {
  }

  predicate HasPassword(d: Database, a: Account, password: string) {
    a in d.accounts && d.accounts[a].password == password
  }

  lemma {:induction false} LastWriteStays(
    d: Database, entries: seq<PreseededDatabase>, users: seq<SeededUser>, k: nat)
    requires AllValid(users) && LastWrite(Writes(entries, users), k)
    ensures var w := Writes(entries, users)[k]; HasPassword(Seeded(d, entries, users), w.account, w.password)
  {
    LastWriteIsLastPassword(Writes(entries, users), k);
    assert Writes(entries, users)[k] in Writes(entries, users);
  }

  lemma {:induction false} LastEntryPassword(
    d: Database, entries: seq<PreseededDatabase>, users: seq<SeededUser>, k: nat)
    requires AllValid(users) && LastEntry(users, k)
    ensures HasPassword(Seeded(d, entries, users), SeededAccount(users[k]), users[k].password)
  {
    LastEntryWritesLast(entries, users, k);
    LastWriteStays(d, entries, users, |entries| + k);
  }

  lemma {:induction false} LastPreseededPassword(
    d: Database, entries: seq<PreseededDatabase>, users: seq<SeededUser>, k: nat)
    requires AllValid(users) && LastPreseeded(entries, users, k)
    ensures HasPassword(Seeded(d, entries, users), PreseededAccount(entries[k]), entries[k].password)
  {
    LastPreseededWritesLast(entries, users, k);
    LastWriteStays(d, entries, users, k);
  }

  lemma {:induction false} SeededRole(d: Database, entries: seq<PreseededDatabase>, users: seq<SeededUser>, k: nat)
    requires AllValid(users) && LastEntry(users, k)
    ensures var a, after := SeededAccount(users[k]), Seeded(d, entries, users);
      a in after.accounts && after.accounts[a].global == RolePrivileges(ParseRole(users[k].role).value)
  {
    var w := Writes(entries, users)[|entries| + k];
    LastEntryIsLastRole(users, k);
    assert w.account == SeededAccount(users[k]) && w in Writes(entries, users);
  }
}
