/** Why an ordered list of deletes is safe: a condition on the list alone, and the proof that a list
    meeting it erases one user, and only that user, from every database. */
module PurgeOrder {
  import opened Schema
  import opened Sql
  import opened PurgePlan
  import opened Ownership

  // ---------------------------------------------------------------- The condition on the list

  ghost predicate DeletedBefore(steps: seq<Step>, k: nat, t: Table, sel: Selector)
    requires k <= |steps|
  {
    exists j | 0 <= j < k :: steps[j].statement == DeleteFrom(t, sel)
  }

  ghost predicate ClearedBefore(steps: seq<Step>, k: nat, t: Table, col: Column, sel: Selector)
    requires k <= |steps|
  {
    exists j | 0 <= j < k :: steps[j].statement == ClearColumn(t, col, sel)
  }

  /** No earlier delete can have removed a row of `t`, directly or by cascade. */
  ghost predicate Untouched(steps: seq<Step>, k: nat, t: Table)
    requires k <= |steps|
  {
    forall j | 0 <= j < k && steps[j].statement.DeleteFrom? :: !Reaches(steps[j].statement.table, t)
  }

  /** The columns a purge may set to NULL: those with an ON DELETE SET NULL key, and fork pointers. */
  predicate Loose(t: Table, col: Column) {
    match t
    case Threads => col.ForkAtMessageId? || col.WorktreeId?
    case AgentMessages => col.DeliveredMessageId?
    case BackgroundProcesses => col.ChatId? || col.ProjectId? || col.WorktreeId?
    case Triggers => col.WorktreeId? || col.ConnectionId?
    case TriggerEvents => col.TriggerId? || col.ChatId?
    case _ => false
  }

  lemma SetNullIsLoose(fk: ForeignKey)
    requires KeyOf(fk).action == SetNull
    ensures Loose(KeyOf(fk).child, KeyOf(fk).column)
  {
  }

  /** The WHERE clause still finds everything it found at the start: it reads no column that may have
      been cleared, and joins through no table that may have lost rows. */
  ghost predicate Readable(steps: seq<Step>, k: nat, t: Table, sel: Selector)
    requires k <= |steps|
    decreases sel
  {
    match sel
    case IsUser(c) => !Loose(t, c)
    case Equals(c, _) => !Loose(t, c)
    case In(c, p, inner) => !Loose(t, c) && Untouched(steps, k, p) && Readable(steps, k, p, inner)
    case Both(left, right) => Readable(steps, k, t, left) && Readable(steps, k, t, right)
  }

  /** No row of `t` selected by `sel` can be left: a step deleted them, or the rows they refer to
      through a foreign key are all gone. */
  ghost predicate Gone(steps: seq<Step>, k: nat, t: Table, sel: Selector)
    requires k <= |steps|
    decreases sel
  {
    || DeletedBefore(steps, k, t, sel)
    || (sel.In? && Linked(t, sel.column, sel.parent) && !Loose(t, sel.column)
        && Gone(steps, k, sel.parent, sel.inner))
  }

  predicate Refusing(a: Action) {
    a == Restrict || a == NoAction
  }

  /** Every row that could refuse a delete from `root` has been deleted or has let go. */
  ghost predicate Unblocked(steps: seq<Step>, k: nat, root: Table)
    requires k <= |steps|
  {
    forall fk, sel | Refusing(KeyOf(fk).action) && Reaches(root, KeyOf(fk).parent) && Finds(KeyOf(fk).child, sel) ::
      Gone(steps, k, KeyOf(fk).child, sel) || ClearedBefore(steps, k, KeyOf(fk).child, KeyOf(fk).column, sel)
  }

  ghost predicate StepSafe(steps: seq<Step>, k: nat)
    requires k < |steps|
  {
    match steps[k].statement
    case DeleteFrom(t, sel) => Finds(t, sel) && Readable(steps, k, t, sel) && Unblocked(steps, k, t)
    case ClearColumn(t, col, sel) => Finds(t, sel) && Readable(steps, k, t, sel) && Loose(t, col)
  }

  ghost predicate OrderSafe(steps: seq<Step>) {
    forall k | 0 <= k < |steps| :: StepSafe(steps, k)
  }

  // ---------------------------------------------------------------- What every prefix keeps

  /** `db` is `start` without some rows and some columns. */
  ghost predicate Less(start: Database, db: Database) {
    && db.Keys <= start.Keys
    && (forall r, col | r in db && col in db[r] :: col in start[r] && start[r][col] == db[r][col])
  }

  /** And the columns gone from the rows that remain are loose. */
  ghost predicate Shrunk(start: Database, db: Database) {
    && Less(start, db)
    && (forall r, col | r in db && col in start[r] && !Loose(r.table, col) :: col in db[r])
  }

  ghost predicate OthersKept(start: Database, db: Database, user: string) {
    forall r | r in start && !Owned(start, user, r) :: r in db && db[r] == start[r]
  }

  ghost predicate UnfoundStay(start: Database, db: Database, user: string) {
    forall r | r in start && !Found(start, user, r) :: r in db
  }

  ghost predicate Selected(start: Database, user: string, t: Table, sel: Selector, r: Ref) {
    r in start && r.table == t && Matches(start, start[r], sel, user)
  }

  ghost predicate StepDone(start: Database, db: Database, user: string, s: Statement) {
    match s
    case DeleteFrom(t, sel) => forall r | Selected(start, user, t, sel, r) :: r !in db
    case ClearColumn(t, col, sel) =>
      forall r | r in db && Selected(start, user, t, sel, r) :: col !in db[r]
  }

  /** What every prefix that goes through keeps, on any database: it has finished its own steps and touched nothing
      their cascades do not reach. */
  ghost predicate Underway(start: Database, db: Database, user: string, steps: seq<Step>, k: nat)
    requires k <= |steps|
  {
    && Shrunk(start, db)
    && (forall r | r in start && Untouched(steps, k, r.table) :: r in db)
    && (forall j | 0 <= j < k :: StepDone(start, db, user, steps[j].statement))
  }

  /** And for an isolated user: nobody else's row has changed. */
  ghost predicate Progress(start: Database, db: Database, user: string, steps: seq<Step>, k: nat)
    requires k <= |steps|
  {
    && Underway(start, db, user, steps, k)
    && OthersKept(start, db, user)
    && UnfoundStay(start, db, user)
    && Consistent(db)
  }

  lemma {:induction false} ShrinkingSelectsLess(start: Database, db: Database, r: Ref, sel: Selector, user: string)
    requires Less(start, db) && r in db
    requires Matches(db, db[r], sel, user)
    ensures Matches(start, start[r], sel, user)
    decreases sel
  {
    match sel
    case IsUser(_) =>
    case Equals(_, _) =>
    case In(c, p, inner) => ShrinkingSelectsLess(start, db, Ref(p, db[r][c]), inner, user);
    case Both(left, right) =>
      ShrinkingSelectsLess(start, db, r, left, user);
      ShrinkingSelectsLess(start, db, r, right, user);
  }

  lemma {:induction false} ReadableSelectsAll(start: Database, db: Database, user: string, steps: seq<Step>, k: nat,
                                              r: Ref, sel: Selector)
    requires k <= |steps| && Underway(start, db, user, steps, k)
    requires r in db && Readable(steps, k, r.table, sel)
    requires Matches(start, start[r], sel, user)
    ensures Matches(db, db[r], sel, user)
    decreases sel
  {
    match sel
    case IsUser(_) =>
    case Equals(_, _) =>
    case In(c, p, inner) => ReadableSelectsAll(start, db, user, steps, k, Ref(p, start[r][c]), inner);
    case Both(left, right) =>
      ReadableSelectsAll(start, db, user, steps, k, r, left);
      ReadableSelectsAll(start, db, user, steps, k, r, right);
  }

  lemma {:induction false} GoneMeansAbsent(start: Database, db: Database, user: string, steps: seq<Step>, k: nat,
                                           t: Table, sel: Selector, r: Ref)
    requires k <= |steps| && Progress(start, db, user, steps, k)
    requires Gone(steps, k, t, sel) && Selected(start, user, t, sel, r)
    ensures r !in db
    decreases sel
  {
    if DeletedBefore(steps, k, t, sel) {
      var j :| 0 <= j < k && steps[j].statement == DeleteFrom(t, sel);
      assert StepDone(start, db, user, steps[j].statement);
    } else if r in db {
      var fk :| KeyOf(fk).child == t && KeyOf(fk).column == sel.column && KeyOf(fk).parent == sel.parent;
      var p := Ref(sel.parent, start[r][sel.column]);
      assert Refers(db, fk, r, p);
      GoneMeansAbsent(start, db, user, steps, k, sel.parent, sel.inner, p);
    }
  }

  // ---------------------------------------------------------------- One safe delete

  ghost predicate WithinUser(start: Database, user: string, root: Table, doomed: set<Ref>) {
    forall r | r in doomed :: Owned(start, user, r) && Found(start, user, r) && Reaches(root, r.table)
  }

  /** A reference seen now was there at the start, so whoever refers to an owned row is owned, and found with it. */
  lemma ReferrerIsOwned(start: Database, db: Database, user: string, fk: ForeignKey, c: Ref, col: Column,
                        doomed: set<Ref>)
    requires Shrunk(start, db) && Isolated(start, user)
    requires forall r | r in doomed :: Owned(start, user, r) && Found(start, user, r)
    requires HitsThrough(db, fk, c, col, KeyOf(fk).action, doomed)
    ensures Owned(start, user, c)
    ensures KeyOf(fk).action != SetNull ==> Found(start, user, c)
  {
    hide Owned, Found;
    assert Refers(start, fk, c, Ref(KeyOf(fk).parent, start[c][col]));
    if KeyOf(fk).action != SetNull {
      DependentIsFound(start, user, fk, c, Ref(KeyOf(fk).parent, start[c][col]));
    }
  }

  lemma {:induction false} CascadeStaysWithin(start: Database, db: Database, user: string, root: Table,
                                              doomed: set<Ref>)
    requires Shrunk(start, db) && Isolated(start, user)
    requires doomed <= db.Keys && WithinUser(start, user, root, doomed)
    ensures WithinUser(start, user, root, Cascaded(db, doomed))
    decreases db.Keys - doomed
  {
    var next := doomed + set c | c in db && DependsOn(db, c, Cascade, doomed);
    if next != doomed {
      forall c | c in db && DependsOn(db, c, Cascade, doomed)
        ensures Owned(start, user, c) && Found(start, user, c) && Reaches(root, c.table)
      {
        var col :| col in db[c] && Hits(db, c, col, Cascade, doomed);
        var fk := HitsHasKey(db, c, col, Cascade, doomed);
        ReferrerIsOwned(start, db, user, fk, c, col, doomed);
        ReachesFollowsCascades(root, fk);
      }
      CascadeStaysWithin(start, db, user, root, next);
    }
  }

  /** A row of the user that could refuse a delete from `root` is gone, or no longer holds the reference. */
  lemma RefuserHasLetGo(start: Database, db: Database, user: string, steps: seq<Step>, k: nat, root: Table,
                        fk: ForeignKey, c: Ref)
    requires k <= |steps| && Progress(start, db, user, steps, k) && Unblocked(steps, k, root)
    requires Refusing(KeyOf(fk).action) && Reaches(root, KeyOf(fk).parent)
    requires Found(start, user, c) && c.table == KeyOf(fk).child
    ensures c !in db || KeyOf(fk).column !in db[c]
  {
    var sel :| Finds(c.table, sel) && Matches(start, start[c], sel, user);
    assert Selected(start, user, c.table, sel, c);
    if Gone(steps, k, c.table, sel) {
      GoneMeansAbsent(start, db, user, steps, k, c.table, sel, c);
    } else {
      var j :| 0 <= j < k && steps[j].statement == ClearColumn(c.table, KeyOf(fk).column, sel);
      assert StepDone(start, db, user, steps[j].statement);
    }
  }

  lemma NothingRefuses(start: Database, db: Database, user: string, steps: seq<Step>, k: nat, root: Table,
                       all: set<Ref>, c: Ref, action: Action)
    requires k <= |steps| && Progress(start, db, user, steps, k) && Isolated(start, user)
    requires Unblocked(steps, k, root) && WithinUser(start, user, root, all)
    requires Refusing(action)
    ensures !DependsOn(db, c, action, all)
  {
    if DependsOn(db, c, action, all) {
      var col :| col in db[c] && Hits(db, c, col, action, all);
      var fk := HitsHasKey(db, c, col, action, all);
      ReferrerIsOwned(start, db, user, fk, c, col, all);
      RefuserHasLetGo(start, db, user, steps, k, root, fk, c);
    }
  }

  lemma RemovalShrinks(start: Database, db: Database, all: set<Ref>)
    requires Shrunk(start, db)
    ensures Shrunk(start, Removed(db, all))
  {
    var after := Removed(db, all);
    forall r, col | r in after && col in start[r] && !Loose(r.table, col)
      ensures col in after[r]
    {
      if Hits(db, r, col, SetNull, all) {
        var fk := HitsHasKey(db, r, col, SetNull, all);
        SetNullIsLoose(fk);
      }
    }
  }

  lemma RemovalKeepsOthers(start: Database, db: Database, user: string, root: Table, all: set<Ref>)
    requires Shrunk(start, db) && OthersKept(start, db, user) && Isolated(start, user)
    requires WithinUser(start, user, root, all) && UnfoundStay(start, db, user)
    ensures OthersKept(start, Removed(db, all), user) && UnfoundStay(start, Removed(db, all), user)
  {
    hide Owned, Found;
    forall r | r in start && !Owned(start, user, r)
      ensures r in Removed(db, all) && Removed(db, all)[r] == start[r]
    {
      forall col | col in db[r] ensures !Hits(db, r, col, SetNull, all) {
        if Hits(db, r, col, SetNull, all) {
          var fk := HitsHasKey(db, r, col, SetNull, all);
          ReferrerIsOwned(start, db, user, fk, r, col, all);
        }
      }
      assert Unlinked(db, r, all) == db[r];
    }
  }

  /** Each remaining reference either kept its row, or was cascaded, refused or cleared. */
  lemma RemovalStaysConsistent(db: Database, doomed: set<Ref>)
    requires Consistent(db) && doomed <= db.Keys && !Refused(db, Cascaded(db, doomed))
    ensures Consistent(Removed(db, Cascaded(db, doomed)))
  {
    var all := Cascaded(db, doomed);
    var after := Removed(db, all);
    forall fk, c, p | Refers(after, fk, c, p) ensures p in after {
      assert Refers(db, fk, c, p);
      if p in all {
        var col := KeyOf(fk).column;
        assert HitsThrough(db, fk, c, col, KeyOf(fk).action, all);
        HitsAnyKey(db, fk, c, col, KeyOf(fk).action, all);
        assert DependsOn(db, c, KeyOf(fk).action, all);
      }
    }
  }

  /** What a delete step removes: only rows of the user, and never in the face of a refusal. */
  lemma DeleteStaysWithin(start: Database, db: Database, user: string, steps: seq<Step>, k: nat, t: Table,
                          sel: Selector)
    requires k <= |steps| && Progress(start, db, user, steps, k) && Isolated(start, user)
    requires Finds(t, sel) && Unblocked(steps, k, t)
    ensures WithinUser(start, user, t, Cascaded(db, Targets(db, t, sel, user)))
    ensures !Refused(db, Cascaded(db, Targets(db, t, sel, user)))
  {
    var doomed := Targets(db, t, sel, user);
    TargetsAreOwned(start, db, user, t, sel);
    hide Owned, Found, Finds, Matches, Isolated, Unblocked, DependsOn, Reaches, WithinUser;
    CascadeStaysWithin(start, db, user, t, doomed);
    forall c, action | c in db && Refusing(action) ensures !DependsOn(db, c, action, Cascaded(db, doomed)) {
      NothingRefuses(start, db, user, steps, k, t, Cascaded(db, doomed), c, action);
    }
  }

  lemma DeleteIsDone(start: Database, db: Database, user: string, steps: seq<Step>, k: nat, t: Table, sel: Selector,
                     all: set<Ref>)
    requires k <= |steps| && Underway(start, db, user, steps, k) && Readable(steps, k, t, sel)
    requires Targets(db, t, sel, user) <= all
    ensures forall r | Selected(start, user, t, sel, r) :: r !in Removed(db, all)
  {
    forall r | Selected(start, user, t, sel, r) && r in db ensures r in all {
      ReadableSelectsAll(start, db, user, steps, k, r, sel);
      assert r in Targets(db, t, sel, user);
    }
  }

  lemma EarlierStepsStayDone(start: Database, db: Database, after: Database, user: string, steps: seq<Step>, k: nat)
    requires k <= |steps| && Underway(start, db, user, steps, k)
    requires after.Keys <= db.Keys && forall r | r in after :: after[r].Keys <= db[r].Keys
    ensures forall j | 0 <= j < k :: StepDone(start, after, user, steps[j].statement)
  {
    forall j | 0 <= j < k ensures StepDone(start, after, user, steps[j].statement) {
      assert StepDone(start, db, user, steps[j].statement);
    }
  }

  lemma UnderwayAdvances(start: Database, db: Database, after: Database, user: string, steps: seq<Step>, k: nat)
    requires k < |steps| && Underway(start, db, user, steps, k)
    requires after.Keys <= db.Keys && forall r | r in after :: after[r].Keys <= db[r].Keys
    requires Shrunk(start, after) && StepDone(start, after, user, steps[k].statement)
    requires forall r | r in db && r !in after ::
               steps[k].statement.DeleteFrom? && Reaches(steps[k].statement.table, r.table)
    ensures Underway(start, after, user, steps, k + 1)
  {
    EarlierStepsStayDone(start, db, after, user, steps, k);
    forall r | r in start && Untouched(steps, k + 1, r.table) ensures r in after {
      assert Untouched(steps, k, r.table);
    }
  }

  lemma DeleteAdvances(start: Database, db: Database, user: string, steps: seq<Step>, k: nat)
    requires k < |steps| && steps[k].statement.DeleteFrom?
    requires Progress(start, db, user, steps, k) && Isolated(start, user) && StepSafe(steps, k)
    ensures Execute(db, steps[k].statement, user).Some?
    ensures Progress(start, Execute(db, steps[k].statement, user).value, user, steps, k + 1)
  {
    var t, sel := steps[k].statement.table, steps[k].statement.where;
    var doomed := Targets(db, t, sel, user);
    var all := Cascaded(db, doomed);
    DeleteStaysWithin(start, db, user, steps, k, t, sel);
    RemovalShrinks(start, db, all);
    RemovalKeepsOthers(start, db, user, t, all);
    RemovalStaysConsistent(db, doomed);
    DeleteIsDone(start, db, user, steps, k, t, sel, all);
    UnderwayAdvances(start, db, Removed(db, all), user, steps, k);
  }

  lemma TargetsAreOwned(start: Database, db: Database, user: string, t: Table, sel: Selector)
    requires Shrunk(start, db) && Isolated(start, user) && Finds(t, sel)
    ensures WithinUser(start, user, t, Targets(db, t, sel, user))
  {
    forall r | r in Targets(db, t, sel, user) ensures Owned(start, user, r) && Found(start, user, r) {
      ShrinkingSelectsLess(start, db, r, sel, user);
      FoundIsOwned(start, user, r, sel);
    }
  }

  lemma ClearStaysConsistent(db: Database, col: Column, touched: set<Ref>)
    requires Consistent(db)
    ensures Consistent(Cleared(db, col, touched))
  {
    var after := Cleared(db, col, touched);
    forall fk, c, p | Refers(after, fk, c, p) ensures p in after {
      assert Refers(db, fk, c, p);
    }
  }

  lemma ClearShrinks(start: Database, db: Database, user: string, col: Column, touched: set<Ref>)
    requires Shrunk(start, db) && OthersKept(start, db, user) && UnfoundStay(start, db, user)
    requires forall r | r in touched :: Owned(start, user, r) && Loose(r.table, col)
    ensures var after := Cleared(db, col, touched);
            Shrunk(start, after) && OthersKept(start, after, user) && UnfoundStay(start, after, user)
  {
    hide Owned, Found, Loose;
  }

  lemma ClearIsDone(start: Database, db: Database, user: string, steps: seq<Step>, k: nat, t: Table, col: Column,
                    sel: Selector)
    requires k <= |steps| && Underway(start, db, user, steps, k) && Readable(steps, k, t, sel)
    ensures StepDone(start, Execute(db, ClearColumn(t, col, sel), user).value, user, ClearColumn(t, col, sel))
  {
    var after := Execute(db, ClearColumn(t, col, sel), user).value;
    forall r | r in after && Selected(start, user, t, sel, r) ensures col !in after[r] {
      ReadableSelectsAll(start, db, user, steps, k, r, sel);
      assert r in Targets(db, t, sel, user);
    }
  }

  lemma ClearAdvances(start: Database, db: Database, user: string, steps: seq<Step>, k: nat)
    requires k < |steps| && steps[k].statement.ClearColumn?
    requires Progress(start, db, user, steps, k) && Isolated(start, user) && StepSafe(steps, k)
    ensures Execute(db, steps[k].statement, user).Some?
    ensures Progress(start, Execute(db, steps[k].statement, user).value, user, steps, k + 1)
  {
    var ClearColumn(t, col, sel) := steps[k].statement;
    var touched := Touched(db, steps[k].statement, user);
    TargetsAreOwned(start, db, user, t, sel);
    ClearShrinks(start, db, user, col, touched);
    ClearStaysConsistent(db, col, touched);
    ClearIsDone(start, db, user, steps, k, t, col, sel);
    UnderwayAdvances(start, db, Cleared(db, col, touched), user, steps, k);
  }

  lemma NothingDoneYet(db: Database, user: string, steps: seq<Step>)
    requires Consistent(db)
    ensures Progress(db, db, user, steps, 0)
  {
  }

  lemma StepAdvances(start: Database, db: Database, user: string, steps: seq<Step>, k: nat)
    requires k < |steps| && Progress(start, db, user, steps, k) && Isolated(start, user) && StepSafe(steps, k)
    ensures Execute(db, steps[k].statement, user).Some?
    ensures Progress(start, Execute(db, steps[k].statement, user).value, user, steps, k + 1)
  {
    hide Progress, Isolated, Unblocked, Readable, Finds;
    if steps[k].statement.DeleteFrom? {
      DeleteAdvances(start, db, user, steps, k);
    } else {
      ClearAdvances(start, db, user, steps, k);
    }
  }

  /** A safe order goes through, and every prefix of it keeps the invariant. */
  lemma {:induction false} SafeOrderProgresses(db: Database, user: string, steps: seq<Step>, k: nat)
    requires Consistent(db) && Isolated(db, user) && OrderSafe(steps) && k <= |steps|
    ensures RunFirst(db, steps, k, user).Some?
    ensures Progress(db, RunFirst(db, steps, k, user).value.db, user, steps, k)
  {
    hide Execute, Touched, Progress, Isolated, StepSafe;
    if k == 0 {
      NothingDoneYet(db, user, steps);
    } else {
      SafeOrderProgresses(db, user, steps, k - 1);
      StepAdvances(db, RunFirst(db, steps, k - 1, user).value.db, user, steps, k - 1);
    }
  }

  // ---------------------------------------------------------------- On any database

  lemma {:induction false} CascadeIsReached(db: Database, root: Table, doomed: set<Ref>)
    requires doomed <= db.Keys && forall r | r in doomed :: Reaches(root, r.table)
    ensures forall r | r in Cascaded(db, doomed) :: Reaches(root, r.table)
    decreases db.Keys - doomed
  {
    var next := doomed + set c | c in db && DependsOn(db, c, Cascade, doomed);
    if next != doomed {
      forall c | c in db && DependsOn(db, c, Cascade, doomed) ensures Reaches(root, c.table) {
        var col :| col in db[c] && Hits(db, c, col, Cascade, doomed);
        var fk := HitsHasKey(db, c, col, Cascade, doomed);
        ReachesFollowsCascades(root, fk);
      }
      CascadeIsReached(db, root, next);
    }
  }

  lemma DeleteStaysUnderway(start: Database, db: Database, user: string, steps: seq<Step>, k: nat)
    requires k < |steps| && steps[k].statement.DeleteFrom?
    requires Underway(start, db, user, steps, k) && StepSafe(steps, k)
    requires Execute(db, steps[k].statement, user).Some?
    ensures Underway(start, Execute(db, steps[k].statement, user).value, user, steps, k + 1)
  {
    var t, sel := steps[k].statement.table, steps[k].statement.where;
    var all := Cascaded(db, Targets(db, t, sel, user));
    CascadeIsReached(db, t, Targets(db, t, sel, user));
    RemovalShrinks(start, db, all);
    DeleteIsDone(start, db, user, steps, k, t, sel, all);
    UnderwayAdvances(start, db, Removed(db, all), user, steps, k);
  }

  lemma LooseClearShrinks(start: Database, db: Database, col: Column, touched: set<Ref>)
    requires Shrunk(start, db) && forall r | r in touched :: Loose(r.table, col)
    ensures Shrunk(start, Cleared(db, col, touched))
  {
    hide Loose;
  }

  lemma ClearStaysUnderway(start: Database, db: Database, user: string, steps: seq<Step>, k: nat)
    requires k < |steps| && steps[k].statement.ClearColumn?
    requires Underway(start, db, user, steps, k) && StepSafe(steps, k)
    ensures Underway(start, Execute(db, steps[k].statement, user).value, user, steps, k + 1)
  {
    var ClearColumn(t, col, sel) := steps[k].statement;
    LooseClearShrinks(start, db, col, Touched(db, steps[k].statement, user));
    ClearIsDone(start, db, user, steps, k, t, col, sel);
    UnderwayAdvances(start, db, Cleared(db, col, Touched(db, steps[k].statement, user)), user, steps, k);
  }

  /** A prefix of a safe order that goes through has done its own steps, whoever owns what: all that their WHERE clauses
      selected at the start is gone. */
  lemma {:induction false} FinishedStepsAreDone(db: Database, user: string, steps: seq<Step>, k: nat)
    requires OrderSafe(steps) && k <= |steps| && RunFirst(db, steps, k, user).Some?
    ensures Underway(db, RunFirst(db, steps, k, user).value.db, user, steps, k)
  {
    hide Execute, Touched, Underway, StepSafe;
    if k == 0 {
      NothingDone(db, user, steps);
    } else {
      FinishedStepsAreDone(db, user, steps, k - 1);
      if steps[k - 1].statement.DeleteFrom? {
        DeleteStaysUnderway(db, RunFirst(db, steps, k - 1, user).value.db, user, steps, k - 1);
      } else {
        ClearStaysUnderway(db, RunFirst(db, steps, k - 1, user).value.db, user, steps, k - 1);
      }
    }
  }

  lemma NothingDone(db: Database, user: string, steps: seq<Step>)
    ensures Underway(db, db, user, steps, 0)
  {
  }
}
