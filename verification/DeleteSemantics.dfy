/** What one delete does, told from which row refers to which: it takes the least set closed under cascading references,
    it is refused by exactly the rows that may refuse, and it clears exactly the references that are to be cleared. */
module DeleteSemantics {
  import opened Schema
  import opened Sql
  import opened Wrappers

  /** Whatever refers to one of these rows through a cascading key is one of them. */
  ghost predicate Closed(db: Database, rows: set<Ref>) {
    forall fk, c, p | Refers(db, fk, c, p) && KeyOf(fk).action == Cascade && p in rows :: c in rows
  }

  lemma ReferrersDepend(db: Database, fk: ForeignKey, c: Ref, p: Ref, rows: set<Ref>)
    requires Refers(db, fk, c, p) && p in rows
    ensures DependsOn(db, c, KeyOf(fk).action, rows) && Hits(db, c, KeyOf(fk).column, KeyOf(fk).action, rows)
  {
    HitsAnyKey(db, fk, c, KeyOf(fk).column, KeyOf(fk).action, rows);
    hide Hits;
  }

  lemma DependentsRefer(db: Database, c: Ref, action: Action, rows: set<Ref>) returns (fk: ForeignKey, p: Ref)
    requires DependsOn(db, c, action, rows)
    ensures KeyOf(fk).action == action && Refers(db, fk, c, p) && p in rows
  {
    var col :| col in db[c] && Hits(db, c, col, action, rows);
    fk := HitsHasKey(db, c, col, action, rows);
    p := Ref(KeyOf(fk).parent, db[c][col]);
  }

  lemma CascadeIsClosed(db: Database, doomed: set<Ref>)
    requires doomed <= db.Keys
    ensures doomed <= Cascaded(db, doomed) && Closed(db, Cascaded(db, doomed))
  {
    hide Refers, DependsOn, Hits;
    var all := Cascaded(db, doomed);
    forall fk, c, p | Refers(db, fk, c, p) && KeyOf(fk).action == Cascade && p in all ensures c in all {
      ReferrersDepend(db, fk, c, p, all);
      ReferrersAreThere(db, fk, c, p);
    }
  }

  lemma ReferrersAreThere(db: Database, fk: ForeignKey, c: Ref, p: Ref)
    requires Refers(db, fk, c, p)
    ensures c in db
  {
  }

  /** The rows that go are the ones named and those that hang off them, and no more. */
  lemma {:induction false} CascadeIsLeast(db: Database, doomed: set<Ref>, rows: set<Ref>)
    requires doomed <= db.Keys && doomed <= rows && Closed(db, rows)
    ensures Cascaded(db, doomed) <= rows
    decreases db.Keys - doomed
  {
    var next := doomed + set c | c in db && DependsOn(db, c, Cascade, doomed);
    if next != doomed {
      hide DependsOn, Refers;
      forall c | c in db && DependsOn(db, c, Cascade, doomed) ensures c in rows {
        var fk, p := DependentsRefer(db, c, Cascade, doomed);
      }
      CascadeIsLeast(db, next, rows);
    }
  }

  /** A row that refers to one that would go, and that no clause lets go: by RESTRICT in any case, by NO ACTION when it
      would stay itself. */
  ghost predicate Forbids(db: Database, all: set<Ref>, fk: ForeignKey, c: Ref, p: Ref) {
    && Refers(db, fk, c, p) && p in all
    && (KeyOf(fk).action == Restrict || (KeyOf(fk).action == NoAction && c !in all))
  }

  /** A delete is refused exactly by such a row. */
  lemma RefusedExactly(db: Database, all: set<Ref>)
    ensures Refused(db, all) <==> exists fk, c, p :: Forbids(db, all, fk, c, p)
  {
    hide Refers, DependsOn, Hits;
    if Refused(db, all) {
      var c :| c in db && (DependsOn(db, c, Restrict, all) || (c !in all && DependsOn(db, c, NoAction, all)));
      var fk, p := DependentsRefer(db, c, if DependsOn(db, c, Restrict, all) then Restrict else NoAction, all);
      assert Forbids(db, all, fk, c, p);
    }
    if exists fk, c, p :: Forbids(db, all, fk, c, p) {
      var fk, c, p :| Forbids(db, all, fk, c, p);
      ReferrersDepend(db, fk, c, p, all);
      ReferrersAreThere(db, fk, c, p);
    }
  }

  /** The column names a row that goes, through a key that clears it. */
  ghost predicate IsCleared(db: Database, all: set<Ref>, r: Ref, col: Column) {
    exists fk, p :: Refers(db, fk, r, p) && KeyOf(fk).action == SetNull && KeyOf(fk).column == col && p in all
  }

  /** What stays keeps every column but those that named a row that went and are to be cleared. */
  lemma RemovedExactly(db: Database, all: set<Ref>, r: Ref, col: Column)
    ensures r in Removed(db, all) <==> r in db && r !in all
    ensures r in Removed(db, all) ==>
              && (col in Removed(db, all)[r] <==> col in db[r] && !IsCleared(db, all, r, col))
              && (col in Removed(db, all)[r] ==> Removed(db, all)[r][col] == db[r][col])
  {
    if r in db && col in db[r] {
      ClearedMeansHit(db, all, r, col);
      hide Hits, IsCleared;
    }
  }

  lemma ClearedMeansHit(db: Database, all: set<Ref>, r: Ref, col: Column)
    requires r in db && col in db[r]
    ensures Hits(db, r, col, SetNull, all) <==> IsCleared(db, all, r, col)
  {
    hide Hits;
    if Hits(db, r, col, SetNull, all) {
      var fk := HitsHasKey(db, r, col, SetNull, all);
      assert Refers(db, fk, r, Ref(KeyOf(fk).parent, db[r][col]));
    }
    if IsCleared(db, all, r, col) {
      var fk, p :| Refers(db, fk, r, p) && KeyOf(fk).action == SetNull && KeyOf(fk).column == col && p in all;
      ReferrersDepend(db, fk, r, p, all);
    }
  }
}
