/** DELETE and UPDATE over the tables of `Schema`, with the ON DELETE behaviour of its foreign keys.

    RESTRICT is taken at its strictest: a delete is refused when any row that the statement finds
    in the database refers, through a restricting key, to a row the statement would remove. That is
    the reading the account purge is written against. */
module Sql {
  import opened Schema
  import opened Wrappers

  /** A row holds its non-NULL columns; a NULL column is absent. */
  type Row = map<Column, string>

  datatype Ref = Ref(table: Table, id: string)

  type Database = map<Ref, Row>

  /** `c` refers to `p` through `fk`. */
  predicate Refers(db: Database, fk: ForeignKey, c: Ref, p: Ref) {
    && c in db
    && c.table == KeyOf(fk).child
    && KeyOf(fk).column in db[c]
    && p == Ref(KeyOf(fk).parent, db[c][KeyOf(fk).column])
  }

  /** Column `col` of `r` names a row of `parent` that is there, whether or not a foreign key says so. */
  predicate Leads(db: Database, r: Ref, col: Column, parent: Table)
    requires r in db
  {
    col in db[r] && Ref(parent, db[r][col]) in db
  }

  ghost predicate Consistent(db: Database) {
    forall fk, c, p :: Refers(db, fk, c, p) ==> p in db
  }

  // ---------------------------------------------------------------- Selection

  /** The WHERE clauses of the purge: columns compared with the user or a constant, and `IN (SELECT id
      FROM parent WHERE ...)`, nested as deep as the joins of the statement. */
  datatype Selector =
    | IsUser(column: Column)
    | Equals(column: Column, value: string)
    | In(column: Column, parent: Table, inner: Selector)
    | Both(left: Selector, right: Selector)

  predicate Matches(db: Database, row: Row, sel: Selector, user: string)
    decreases sel
  {
    match sel
    case IsUser(c) => c in row && row[c] == user
    case Equals(c, v) => c in row && row[c] == v
    case In(c, parent, inner) =>
      && c in row
      && Ref(parent, row[c]) in db
      && Matches(db, db[Ref(parent, row[c])], inner, user)
    case Both(left, right) => Matches(db, row, left, user) && Matches(db, row, right, user)
  }

  function Targets(db: Database, t: Table, sel: Selector, user: string): set<Ref> {
    set r | r in db && r.table == t && Matches(db, db[r], sel, user)
  }

  // ---------------------------------------------------------------- Foreign keys

  predicate HitsThrough(db: Database, fk: ForeignKey, c: Ref, col: Column, action: Action, doomed: set<Ref>) {
    && KeyOf(fk).action == action
    && KeyOf(fk).column == col
    && c in db
    && col in db[c]
    && c.table == KeyOf(fk).child
    && Ref(KeyOf(fk).parent, db[c][col]) in doomed
  }

  /** Column `col` of `c` refers to a doomed row through a key with this action. */
  predicate Hits(db: Database, c: Ref, col: Column, action: Action, doomed: set<Ref>)
  {
    || (exists k: ChatKey :: HitsThrough(db, IntoChats(k), c, col, action, doomed))
    || (exists k: ThreadKey :: HitsThrough(db, IntoThreads(k), c, col, action, doomed))
    || (exists k: MessageKey :: HitsThrough(db, IntoMessages(k), c, col, action, doomed))
    || (exists k: ToolCallKey :: HitsThrough(db, IntoToolCalls(k), c, col, action, doomed))
    || (exists k: ProjectKey :: HitsThrough(db, IntoProjects(k), c, col, action, doomed))
    || (exists k: WorkspaceKey :: HitsThrough(db, IntoWorkspace(k), c, col, action, doomed))
    || (exists k: CredentialKey :: HitsThrough(db, IntoCredentials(k), c, col, action, doomed))
  }

  lemma HitsAnyKey(db: Database, fk: ForeignKey, c: Ref, col: Column, action: Action, doomed: set<Ref>)
    requires HitsThrough(db, fk, c, col, action, doomed)
    ensures Hits(db, c, col, action, doomed)
  {
    match fk
    case IntoChats(k) => assert HitsThrough(db, IntoChats(k), c, col, action, doomed);
    case IntoThreads(k) => assert HitsThrough(db, IntoThreads(k), c, col, action, doomed);
    case IntoMessages(k) => assert HitsThrough(db, IntoMessages(k), c, col, action, doomed);
    case IntoToolCalls(k) => assert HitsThrough(db, IntoToolCalls(k), c, col, action, doomed);
    case IntoProjects(k) => assert HitsThrough(db, IntoProjects(k), c, col, action, doomed);
    case IntoWorkspace(k) => assert HitsThrough(db, IntoWorkspace(k), c, col, action, doomed);
    case IntoCredentials(k) => assert HitsThrough(db, IntoCredentials(k), c, col, action, doomed);
  }

  lemma HitsHasKey(db: Database, c: Ref, col: Column, action: Action, doomed: set<Ref>) returns (fk: ForeignKey)
    requires Hits(db, c, col, action, doomed)
    ensures HitsThrough(db, fk, c, col, action, doomed)
  {
    fk :| HitsThrough(db, fk, c, col, action, doomed);
  }

  /** Some column of `c` refers to a doomed row through a key with this action. */
  predicate DependsOn(db: Database, c: Ref, action: Action, doomed: set<Ref>) {
    c in db && exists col | col in db[c] :: Hits(db, c, col, action, doomed)
  }

  /** The rows that go when `doomed` goes: the least superset closed under ON DELETE CASCADE. */
  function Cascaded(db: Database, doomed: set<Ref>): (all: set<Ref>)
    requires doomed <= db.Keys
    ensures doomed <= all <= db.Keys
    ensures forall c | c in db && DependsOn(db, c, Cascade, all) :: c in all
    decreases db.Keys - doomed
  {
    var next := doomed + set c | c in db && DependsOn(db, c, Cascade, doomed);
    if next == doomed then doomed else Cascaded(db, next)
  }

  predicate Refused(db: Database, all: set<Ref>) {
    exists c | c in db ::
      DependsOn(db, c, Restrict, all) || (c !in all && DependsOn(db, c, NoAction, all))
  }

  /** What is left once `all` is removed: the other rows, with ON DELETE SET NULL applied. */
  function Removed(db: Database, all: set<Ref>): Database {
    map r | r in db && r !in all :: Unlinked(db, r, all)
  }

  function Unlinked(db: Database, r: Ref, all: set<Ref>): Row
    requires r in db
  {
    map col | col in db[r] && !Hits(db, r, col, SetNull, all) :: db[r][col]
  }

  // ---------------------------------------------------------------- Statements

  datatype Statement =
    | DeleteFrom(table: Table, where: Selector)
    | ClearColumn(table: Table, column: Column, where: Selector)

  /** The rows a statement names itself, which is what RowsAffected reports: cascades do not count. */
  function Touched(db: Database, s: Statement, user: string): set<Ref> {
    match s
    case DeleteFrom(t, sel) => Targets(db, t, sel, user)
    case ClearColumn(t, col, sel) => set r | r in Targets(db, t, sel, user) && col in db[r]
  }

  function Cleared(db: Database, col: Column, touched: set<Ref>): Database {
    map r | r in db :: if r in touched then db[r] - {col} else db[r]
  }

  function Deleted(db: Database, doomed: set<Ref>): Option<Database>
    requires doomed <= db.Keys
  {
    var all := Cascaded(db, doomed);
    if Refused(db, all) then None else Some(Removed(db, all))
  }

  /** The database after the statement, or None when a foreign key refuses it. */
  function Execute(db: Database, s: Statement, user: string): Option<Database> {
    match s
    case DeleteFrom(_, _) => Deleted(db, Touched(db, s, user))
    case ClearColumn(_, col, _) => Some(Cleared(db, col, Touched(db, s, user)))
  }
}
