/** The few things about a MySQL server that seeding reads and changes, and the
    statements that do so. A statement either fails or yields the next database. */
module AccountDatabase {
  import opened Options

  datatype Privilege =
    | Alter | AlterRoutine | Create | CreateRoutine | CreateTemporaryTables | CreateView
    | Delete | Drop | Event | Execute | Index | Insert | LockTables | References
    | Select | ShowView | Trigger | Update
    | CreateTablespace | CreateUserPrivilege | File | Process | Reload
    | ReplicationClient | ReplicationSlave | ShowDatabases | Shutdown | Super

  predicate OnDatabase(p: Privilege) {
    p !in {CreateTablespace, CreateUserPrivilege, File, Process, Reload,
           ReplicationClient, ReplicationSlave, ShowDatabases, Shutdown, Super}
  }

  /** The privileges that can be held on one database. */
  const DATABASE_PRIVILEGES := set p: Privilege | OnDatabase(p)

  /** What a preseeded user ends up with on its database: all of these but LOCK TABLES. */
  const PRESEEDED_PRIVILEGES: set<Privilege> := {
    Alter, AlterRoutine, Create, CreateRoutine, CreateTemporaryTables, CreateView, Delete, Drop, Event,
    Privilege.Execute, Index, Insert, References, Select, ShowView, Trigger, Update}

  lemma {:induction false} PreseededPrivilegesAre()
    ensures DATABASE_PRIVILEGES - {LockTables} == PRESEEDED_PRIVILEGES
  {
    forall p: Privilege ensures p in PRESEEDED_PRIVILEGES <==> OnDatabase(p) && p != LockTables {
      PrivilegeIsListed(p);
    }
  }

  lemma {:induction false} PrivilegeIsListed(p: Privilege)
    ensures p in PRESEEDED_PRIVILEGES <==> OnDatabase(p) && p != LockTables
  {
  }

  const GLOBAL_PRIVILEGES := set p: Privilege | true

  const ANY_HOST := "%"

  datatype Account = Account(user: string, host: string)

  /** The grant option is held beside the global privileges, not among them. */
  datatype Login = Login(password: string, global: set<Privilege>, grantOption: bool)

  datatype GrantKey = GrantKey(database: string, account: Account)

  datatype Database = Database(
    databases: set<string>,
    accounts: map<Account, Login>,
    grants: map<GrantKey, set<Privilege>>)

  datatype Statement =
    | CreateDatabaseIfNotExists(database: string)
    | SelectUser(user: string)
    | CreateUser(account: Account, password: string)
    | SetPassword(account: Account, password: string)
    | GrantAllOn(key: GrantKey)
    | RevokeLockTablesOn(key: GrantKey)
    | FlushPrivileges
    | CreateUserIfNotExists(account: Account, password: string)
    | AlterUser(account: Account, password: string)
    | GrantAllWithGrantOption(account: Account)
    | RevokeAll(account: Account)

  predicate NameExists(d: Database, user: string) {
    exists a :: a in d.accounts && a.user == user
  }

  function SetLogin(d: Database, a: Account, login: Login): Database {
    d.(accounts := d.accounts[a := login])
  }

  function SetPasswordOf(d: Database, a: Account, password: string): Option<Database> {
    if a in d.accounts then Some(SetLogin(d, a, d.accounts[a].(password := password))) else None
  }

  /** The effect of a statement; `None` when the server rejects it. */
  function Exec(d: Database, statement: Statement): Option<Database> {
    match statement
    case CreateDatabaseIfNotExists(database) => Some(d.(databases := d.databases + {database}))
    case SelectUser(_) => Some(d)
    case CreateUser(a, password) =>
      if a in d.accounts then None else Some(SetLogin(d, a, Login(password, {}, false)))
    case SetPassword(a, password) => SetPasswordOf(d, a, password)
    case GrantAllOn(key) =>
      if key.account in d.accounts then Some(d.(grants := d.grants[key := DATABASE_PRIVILEGES])) else None
    case RevokeLockTablesOn(key) =>
      if key.account in d.accounts && key in d.grants then
        Some(d.(grants := d.grants[key := d.grants[key] - {LockTables}]))
      else None
    case FlushPrivileges => Some(d)
    case CreateUserIfNotExists(a, password) =>
      if a in d.accounts then Some(d) else Some(SetLogin(d, a, Login(password, {}, false)))
    case AlterUser(a, password) => SetPasswordOf(d, a, password)
    case GrantAllWithGrantOption(a) =>
      if a in d.accounts then
        Some(SetLogin(d, a, d.accounts[a].(global := GLOBAL_PRIVILEGES, grantOption := true)))
      else None
    case RevokeAll(a) =>
      if a in d.accounts then Some(SetLogin(d, a, d.accounts[a].(global := {}))) else None
  }

  /** A user that exists is left alone by the statement that creates users if need be. */
  lemma {:induction false} ExistingUserIsKept(d: Database, user: string, host: string, password: string)
    ensures var a := Account(user, host);
      var after := Exec(d, CreateUserIfNotExists(a, password));
      after.Some? && a in after.value.accounts && (a in d.accounts ==> after.value == d)
  {
  }

  /** No statement but the two that create users gets through for a user that does not exist. */
  lemma {:induction false} UnknownUserIsRejected(d: Database, a: Account, database: string, password: string)
    requires a !in d.accounts
    ensures Exec(d, SetPassword(a, password)).None? && Exec(d, AlterUser(a, password)).None?
    ensures Exec(d, GrantAllOn(GrantKey(database, a))).None?
    ensures Exec(d, RevokeLockTablesOn(GrantKey(database, a))).None?
    ensures Exec(d, GrantAllWithGrantOption(a)).None? && Exec(d, RevokeAll(a)).None?
    ensures Exec(d, CreateUser(a, password)).Some? && Exec(d, CreateUserIfNotExists(a, password)).Some?
  {
  }

  /** A connection to the server. `budget` is how many statements still get through
      before the connection fails, if it does; `lostRows` says for the next queries whether
      fetching the row fails after the query went through; `alive` turns false at the first
      error that is noticed, after which nothing is sent any more. */
  datatype Session = Session(
    database: Database, budget: Option<nat>, lostRows: seq<bool>, openable: bool, alive: bool)

  function Open(s: Session): Session {
    s.(alive := s.alive && s.openable)
  }

  function Send(s: Session, statement: Statement): (r: Session)
    ensures !s.alive ==> r == s
    ensures s.budget.None? ==> r.budget.None?
  {
    if !s.alive then s
    else if s.budget == Some(0) then s.(alive := false)
    else
      var spent := s.(budget := if s.budget.Some? then Some(s.budget.value - 1) else None);
      match Exec(s.database, statement)
      case Some(d) => spent.(database := d)
      case None => spent.(alive := false)
  }

  /** Whether the query for a user name yields a row; a row that is lost looks like none. */
  predicate Found(s: Session, user: string) {
    NameExists(s.database, user) && !(s.lostRows != [] && s.lostRows[0])
  }

  function Fetched(s: Session): Session {
    if s.alive && s.lostRows != [] then s.(lostRows := s.lostRows[1..]) else s
  }

  /** A connection that never fails for outside reasons. */
  function Reliable(d: Database): Session {
    Session(d, None, [], true, true)
  }
}
