/**
 How pods bring SchemaBot's own storage schema up to date at startup
 (pkg/api/ensure_schema.go): plan, take the advisory lock, clean Spirit's left
 over tables, plan again, and run what is not destructive.

 Plans are whatever the differ returns; statements are as the parser classifies
 them. A run interleaves any number of pods, each with its own binary and so its
 own plans, with crashes at any point.
 */
module StorageSchema {
  import opened Wrappers

  datatype Clause =
    | AddColumn(column: string)
    | DropColumn(column: string)
    | RenameColumn(column: string, to: string)
    | RenameTo(table: string)
    | OtherClause

  datatype Statement =
    | CreateTable(table: string, columns: set<string>)
    | DropTable(table: string)
    | AlterTable(table: string, clauses: seq<Clause>)
    | RenameTable(table: string, to: string)
    | OtherStatement
    | Unparsable

  // One namespace of a plan.
  datatype SchemaChange = SchemaChange(namespace: string, statements: seq<Statement>)

  // --- classifying and partitioning ----------------------------------------

  predicate DropsColumn(clauses: seq<Clause>) {
    exists i :: 0 <= i < |clauses| && clauses[i].DropColumn?
  }

  predicate Destructive(s: Statement) {
    s.DropTable? || (s.AlterTable? && DropsColumn(s.clauses))
  }

  function Flat(changes: seq<SchemaChange>): seq<Statement> {
    if |changes| == 0 then [] else Flat(changes[..|changes| - 1]) + changes[|changes| - 1].statements
  }

  function Safe(statements: seq<Statement>): seq<Statement> {
    if |statements| == 0 then []
    else
      var s := statements[|statements| - 1];
      Safe(statements[..|statements| - 1]) + if Destructive(s) then [] else [s]
  }

  function Refused(statements: seq<Statement>): seq<Statement> {
    if |statements| == 0 then []
    else
      var s := statements[|statements| - 1];
      Refused(statements[..|statements| - 1]) + if Destructive(s) then [s] else []
  }

  method HasDropColumn(clauses: seq<Clause>) returns (found: bool)
    ensures found == DropsColumn(clauses)
  {
    for i := 0 to |clauses|
      invariant forall j :: 0 <= j < i ==> !clauses[j].DropColumn?
    {
      if clauses[i].DropColumn? {
        return true;
      }
    }
    found := false;
  }

  method Classify(s: Statement) returns (r: Result<bool, ()>)
    ensures r == if s.Unparsable? then Err(()) else Ok(Destructive(s))
  {
    if s.Unparsable? {
      return Err(());
    }
    if s.DropTable? {
      return Ok(true);
    }
    if s.AlterTable? {
      var found := HasDropColumn(s.clauses);
      return Ok(found);
    }
    r := Ok(false);
  }

  lemma SnocSafe(statements: seq<Statement>, s: Statement)
    ensures Safe(statements + [s]) == Safe(statements) + if Destructive(s) then [] else [s]
    ensures Refused(statements + [s]) == Refused(statements) + if Destructive(s) then [s] else []
  {
    assert (statements + [s])[..|statements|] == statements;
  }

  // One namespace's statements, appended to those kept and refused so far.
  method PartitionOne(statements: seq<Statement>) returns (ok: bool, kept: seq<Statement>, refused: seq<Statement>)
    ensures ok <==> Unparsable !in statements
    ensures ok ==> kept == Safe(statements) && refused == Refused(statements)
  {
    kept, refused := [], [];
    for i := 0 to |statements|
      invariant Unparsable !in statements[..i]
      invariant kept == Safe(statements[..i]) && refused == Refused(statements[..i])
    {
      assert statements[..i + 1] == statements[..i] + [statements[i]];
      SnocSafe(statements[..i], statements[i]);
      var destructive := Classify(statements[i]);
      if destructive.Err? {
        return false, kept, refused;
      }
      if destructive.value {
        refused := refused + [statements[i]];
      } else {
        kept := kept + [statements[i]];
      }
    }
    assert statements[..|statements|] == statements;
    ok := true;
  }

  /** The partition: in order, everything not destructive is kept and everything
      destructive refused; a statement that cannot be classified stops it. */
  method PartitionDestructiveChanges(changes: seq<SchemaChange>)
    returns (ok: bool, allowed: seq<SchemaChange>, refused: seq<Statement>)
    ensures ok <==> Unparsable !in Flat(changes)
    ensures ok ==> Flat(allowed) == Safe(Flat(changes)) && refused == Refused(Flat(changes))
    ensures ok ==> forall i :: 0 <= i < |allowed| ==> |allowed[i].statements| > 0
    ensures ok ==> forall s :: s in refused ==> s in Flat(changes) && LosesData(s)
    ensures ok ==> forall s :: s in Flat(allowed) <==> s in Flat(changes) && !LosesData(s)
  {
    allowed, refused := [], [];
    for i := 0 to |changes|
      invariant Unparsable !in Flat(changes[..i])
      invariant Flat(allowed) == Safe(Flat(changes[..i])) && refused == Refused(Flat(changes[..i]))
      invariant forall j :: 0 <= j < |allowed| ==> |allowed[j].statements| > 0
    {
      assert changes[..i + 1][..i] == changes[..i];
      var sc := changes[i];
      var fine, kept, dropped := PartitionOne(sc.statements);
      SafeAppends(Flat(changes[..i]), sc.statements);
      if !fine {
        ok := false;
        FlatHolds(changes, i, Unparsable);
        return;
      }
      refused := refused + dropped;
      if |kept| > 0 {
        FlatSnoc(allowed, SchemaChange(sc.namespace, kept));
        allowed := allowed + [SchemaChange(sc.namespace, kept)];
      }
    }
    assert changes[..|changes|] == changes;
    ok := true;
    PartitionMeans(Flat(changes));
  }

  lemma FlatSnoc(changes: seq<SchemaChange>, sc: SchemaChange)
    ensures Flat(changes + [sc]) == Flat(changes) + sc.statements
  {
    assert (changes + [sc])[..|changes|] == changes;
  }

  lemma {:induction false} FlatHolds(changes: seq<SchemaChange>, i: nat, s: Statement)
    requires i < |changes| && s in changes[i].statements
    ensures s in Flat(changes)
  {
    if i == |changes| - 1 {
    } else {
      FlatHolds(changes[..|changes| - 1], i, s);
    }
  }

  lemma {:induction false} SafeAppends(a: seq<Statement>, b: seq<Statement>)
    ensures Safe(a + b) == Safe(a) + Safe(b) && Refused(a + b) == Refused(a) + Refused(b)
  {
    if |b| == 0 {
      assert a + b == a;
    } else {
      var init, s := b[..|b| - 1], b[|b| - 1];
      SafeAppends(a, init);
      assert a + b == (a + init) + [s];
      SnocSafe(a + init, s);
      assert b == init + [s];
    }
  }

  /** The two parts are disjoint and exhaustive, each in the plan's order. */
  lemma {:induction false} PartitionIsExact(statements: seq<Statement>)
    ensures multiset(Safe(statements)) + multiset(Refused(statements)) == multiset(statements)
    ensures forall s :: s in Safe(statements) ==> !Destructive(s)
    ensures forall s :: s in Refused(statements) ==> Destructive(s)
  {
    if |statements| == 0 {
    } else {
      var init, s := statements[..|statements| - 1], statements[|statements| - 1];
      PartitionIsExact(init);
      assert statements == init + [s];
    }
  }

  // --- what statements do --------------------------------------------------

  type Schema = map<string, set<string>>

  // The columns an ALTER takes away, by name, and those it brings. Clauses name
  // the columns the table had before the statement.
  function Taken(clauses: seq<Clause>): set<string> {
    set i | 0 <= i < |clauses| && (clauses[i].DropColumn? || clauses[i].RenameColumn?) :: clauses[i].column
  }

  function Brought(columns: set<string>, clauses: seq<Clause>): set<string> {
    (set i | 0 <= i < |clauses| && clauses[i].AddColumn? :: clauses[i].column)
    + (set i | 0 <= i < |clauses| && clauses[i].RenameColumn? && clauses[i].column in columns :: clauses[i].to)
  }

  function Alter(columns: set<string>, clauses: seq<Clause>): set<string> {
    (columns - Taken(clauses)) + Brought(columns, clauses)
  }

  // The name the table has after the clauses.
  function NameAfter(t: string, clauses: seq<Clause>): string {
    if |clauses| == 0 then t
    else if clauses[|clauses| - 1].RenameTo? then clauses[|clauses| - 1].table
    else NameAfter(t, clauses[..|clauses| - 1])
  }

  // Moving a table onto one that exists fails and changes nothing.
  function Moved(db: Schema, t: string, to: string, columns: set<string>): Schema {
    if t !in db || (to != t && to in db) then db else (db - {t})[to := columns]
  }

  function Execute(db: Schema, s: Statement): Schema {
    match s
    case CreateTable(t, columns) => if t in db then db else db[t := columns]
    case DropTable(t) => db - {t}
    case AlterTable(t, clauses) => if t in db then Moved(db, t, NameAfter(t, clauses), Alter(db[t], clauses)) else db
    case RenameTable(t, to) => if t in db then Moved(db, t, to, db[t]) else db
    case OtherStatement => db
    case Unparsable => db
  }

  // --- what statements do to the data --------------------------------------

  // What a column of a table holds.
  datatype Cell = Cell(table: string, column: string)

  // Where it is after the statement, or None when the statement gives it up.
  function Fate(x: Cell, s: Statement): Option<Cell> {
    match s
    case DropTable(t) => if x.table == t then None else Some(x)
    case RenameTable(t, to) => Some(if x.table == t then x.(table := to) else x)
    case AlterTable(t, clauses) =>
      if x.table != t then Some(x)
      else if DropColumn(x.column) in clauses then None
      else Some(Cell(NameAfter(t, clauses), ColumnAfter(x.column, clauses)))
    case _ => Some(x)
  }

  // The name the column has after the clauses, of which the first that renames it
  // counts.
  function ColumnAfter(c: string, clauses: seq<Clause>): string {
    if |clauses| == 0 then c
    else if clauses[0].RenameColumn? && clauses[0].column == c then clauses[0].to
    else ColumnAfter(c, clauses[1..])
  }

  ghost predicate LosesData(s: Statement) {
    exists x :: Fate(x, s) == None
  }

  // The statement is carried out on the schema.
  predicate Takes(db: Schema, s: Statement) {
    match s
    case RenameTable(t, to) => t in db && (to == t || to !in db)
    case AlterTable(t, clauses) => t in db && (NameAfter(t, clauses) == t || NameAfter(t, clauses) !in db)
    case _ => true
  }

  lemma {:induction false} ColumnIsThere(columns: set<string>, clauses: seq<Clause>, c: string)
    requires c in columns && DropColumn(c) !in clauses
    ensures ColumnAfter(c, clauses) in Alter(columns, clauses)
  {
    var to := RenamedBy(c, clauses);
    if to.Some? {
      assert clauses[to.value].to in Brought(columns, clauses);
    } else {
      assert c !in Taken(clauses);
    }
  }

  // The first clause that renames the column.
  lemma {:induction false} RenamedBy(c: string, clauses: seq<Clause>) returns (i: Option<nat>)
    ensures i.None? ==> ColumnAfter(c, clauses) == c
    ensures i.None? ==> forall k :: 0 <= k < |clauses| && clauses[k].RenameColumn? ==> clauses[k].column != c
    ensures i.Some? ==> i.value < |clauses| && clauses[i.value].RenameColumn? && clauses[i.value].column == c
    ensures i.Some? ==> ColumnAfter(c, clauses) == clauses[i.value].to
  {
    if |clauses| == 0 {
      i := None;
    } else if clauses[0].RenameColumn? && clauses[0].column == c {
      i := Some(0);
    } else {
      var rest := RenamedBy(c, clauses[1..]);
      i := if rest.None? then None else Some(rest.value + 1);
      forall k | 0 < k < |clauses| && clauses[k].RenameColumn? && rest.None?
        ensures clauses[k].column != c
      {
        assert clauses[1..][k - 1] == clauses[k];
      }
    }
  }

  /** The two readings agree: data that is not given up is under its new name in the
      schema the statement leaves. */
  lemma DataFollowsTheSchema(db: Schema, s: Statement, x: Cell)
    requires x.table in db && x.column in db[x.table] && Takes(db, s) && Fate(x, s).Some?
    ensures var y := Fate(x, s).value;
            y.table in Execute(db, s) && y.column in Execute(db, s)[y.table]
  {
    if s.AlterTable? && s.table == x.table {
      ColumnIsThere(db[x.table], s.clauses, x.column);
    }
  }

  /** The guard refuses exactly the statements that can give up data. Renames lose a
      name and keep what it held. */
  lemma RefusedIffDataIsLost(s: Statement)
    ensures Destructive(s) <==> LosesData(s)
  {
    if s.DropTable? {
      assert Fate(Cell(s.table, ""), s) == None;
    } else if s.AlterTable? {
      if i :| 0 <= i < |s.clauses| && s.clauses[i].DropColumn? {
        assert s.clauses[i] == DropColumn(s.clauses[i].column);
        assert Fate(Cell(s.table, s.clauses[i].column), s) == None;
      }
      if x :| Fate(x, s) == None {
        var i :| 0 <= i < |s.clauses| && s.clauses[i] == DropColumn(x.column);
      }
    }
  }

  lemma PartitionMeans(statements: seq<Statement>)
    ensures forall s :: s in Refused(statements) ==> s in statements && LosesData(s)
    ensures forall s :: s in Safe(statements) <==> s in statements && !LosesData(s)
  {
    PartitionHolds(statements);
    forall s: Statement
      ensures Destructive(s) <==> LosesData(s)
    {
      RefusedIffDataIsLost(s);
    }
  }

  lemma {:induction false} PartitionHolds(statements: seq<Statement>)
    ensures forall s :: s in Refused(statements) <==> s in statements && Destructive(s)
    ensures forall s :: s in Safe(statements) <==> s in statements && !Destructive(s)
  {
    if |statements| == 0 {
    } else {
      var init, last := statements[..|statements| - 1], statements[|statements| - 1];
      PartitionHolds(init);
      assert statements == init + [last];
    }
  }

  predicate EndsWith(s: string, suffix: string) {
    |suffix| <= |s| && s[|s| - |suffix|..] == suffix
  }

  predicate IsSpiritInternal(t: string) {
    || t == "_spirit_sentinel" || t == "_spirit_checkpoint"
    || (|t| > 0 && t[0] == '_' && (EndsWith(t, "_new") || EndsWith(t, "_old") || EndsWith(t, "_chkpnt")))
  }

  /** Spirit's tables are its two own and those that begin with an underscore and end
      in one of three suffixes. */
  lemma SpiritNames(name: string, suffix: string)
    requires suffix in {"_new", "_old", "_chkpnt"}
    ensures IsSpiritInternal(['_'] + name + suffix)
    ensures IsSpiritInternal("_spirit_sentinel") && IsSpiritInternal("_spirit_checkpoint")
    ensures name != "" && name[0] != '_' ==> !IsSpiritInternal(name)
  {
    var t := ['_'] + name + suffix;
    assert t[|t| - |suffix|..] == suffix;
  }

  // Nothing but Spirit's own tables is gone.
  ghost predicate Preserved(internal: string -> bool, before: Schema, after: Schema) {
    forall t :: t in before && !internal(t) ==> t in after && before[t] <= after[t]
  }

  // Table t goes on under its own name, or does not move because the new one is
  // in use.
  predicate Stays(db: Schema, t: string, to: string) {
    to == t || to in db
  }

  // What a statement must meet in the schema it finds, so that no name is lost.
  predicate KeepsNames(internal: string -> bool, db: Schema, s: Statement) {
    match s
    case DropTable(t) => t !in db || internal(t)
    case RenameTable(t, to) => t !in db || internal(t) || Stays(db, t, to)
    case AlterTable(t, clauses) =>
      var to := NameAfter(t, clauses);
      t !in db || internal(t) || (Stays(db, t, to) && (to == t ==> db[t] * Taken(clauses) <= Brought(db[t], clauses)))
    case _ => true
  }

  /** Exactly when a statement, destructive or not, loses no table and no column
      name outside Spirit's tables. */
  lemma StatementPreservesIff(internal: string -> bool, db: Schema, s: Statement)
    ensures Preserved(internal, db, Execute(db, s)) <==> KeepsNames(internal, db, s)
  {
    match s
    case AlterTable(t, clauses) =>
      if t in db && !internal(t) && NameAfter(t, clauses) == t {
        AlterKeepsColumnsIff(db[t], clauses);
        assert Execute(db, s)[t] == Alter(db[t], clauses);
      }
    case _ =>
  }

  lemma AlterKeepsColumnsIff(columns: set<string>, clauses: seq<Clause>)
    ensures columns <= Alter(columns, clauses) <==> columns * Taken(clauses) <= Brought(columns, clauses)
  {
    var taken, brought := Taken(clauses), Brought(columns, clauses);
    assert forall c :: c in columns ==> (c in (columns - taken) + brought <==> c !in taken || c in brought);
    assert forall c :: c in columns * taken <==> c in columns && c in taken;
  }

  predicate Renames(s: Statement) {
    || s.RenameTable?
    || (s.AlterTable? && exists i :: 0 <= i < |s.clauses| && (s.clauses[i].RenameColumn? || s.clauses[i].RenameTo?))
  }

  lemma {:induction false} NoRenameToKeepsTheName(t: string, clauses: seq<Clause>)
    requires forall i :: 0 <= i < |clauses| ==> !clauses[i].RenameTo?
    ensures NameAfter(t, clauses) == t
  {
    if |clauses| == 0 {
    } else {
      NoRenameToKeepsTheName(t, clauses[..|clauses| - 1]);
    }
  }

  // What the guard keeps loses nothing unless it renames.
  lemma SafeStatementPreserves(internal: string -> bool, db: Schema, s: Statement)
    requires !Destructive(s)
    ensures Preserved(internal, db, Execute(db, s)) || Renames(s)
  {
    StatementPreservesIff(internal, db, s);
    if s.AlterTable? && !Renames(s) {
      NoRenameToKeepsTheName(s.table, s.clauses);
      assert Taken(s.clauses) == {};
    }
  }

  // --- pods ----------------------------------------------------------------

  datatype Phase = Starting | WantsLock | Locked | Cleaned | Applying(statements: seq<Statement>) | Done

  datatype World = World(db: Schema, holder: Option<nat>, pods: map<nat, Phase>)

  datatype Event =
    | FastPlan(pod: nat, changes: seq<SchemaChange>, stale: bool)
    | Acquire(pod: nat)
    | DropStale(pod: nat, table: string)
    | FinishCleaning(pod: nat)
    | PlanAgain(pod: nat, changes: seq<SchemaChange>)
    | RunStatement(pod: nat)
      // Spirit creates, rewrites or drops a shadow table while it works
    | Shadow(pod: nat, table: string, columns: Option<set<string>>)
    | Finish(pod: nat)
    | Crash(pod: nat)

  function PhaseOf(w: World, pod: nat): Phase {
    if pod in w.pods then w.pods[pod] else Starting
  }

  function Released(w: World, pod: nat, phase: Phase): World {
    w.(pods := w.pods[pod := phase], holder := if w.holder == Some(pod) then None else w.holder)
  }

  predicate NoChanges(changes: seq<SchemaChange>) {
    |changes| == 0
  }

  // An event that its pod is not ready for does nothing.
  function Step(internal: string -> bool, optedIn: set<nat>, w: World, e: Event): World {
    var phase := PhaseOf(w, e.pod);
    match e
    case FastPlan(p, changes, stale) =>
      if phase != Starting then w
      else w.(pods := w.pods[p := if NoChanges(changes) && !stale then Done else WantsLock])
    case Acquire(p) =>
      if phase != WantsLock || w.holder.Some? then w else w.(pods := w.pods[p := Locked], holder := Some(p))
    case DropStale(_, t) =>
      if phase != Locked || !internal(t) then w else w.(db := w.db - {t})
    case FinishCleaning(p) =>
      if phase != Locked then w else w.(pods := w.pods[p := Cleaned])
    case PlanAgain(p, changes) =>
      if phase != Cleaned then w
      else if p in optedIn then w.(pods := w.pods[p := Applying(Flat(changes))])
      else if Unparsable in Flat(changes) then Released(w, p, Done)
      else w.(pods := w.pods[p := Applying(Safe(Flat(changes)))])
    case RunStatement(p) =>
      if !phase.Applying? || |phase.statements| == 0 then w
      else w.(db := Execute(w.db, phase.statements[0]), pods := w.pods[p := Applying(phase.statements[1..])])
    case Shadow(_, t, columns) =>
      if !phase.Applying? || !internal(t) then w
      else w.(db := match columns case None => w.db - {t} case Some(cs) => w.db[t := cs])
    case Finish(p) =>
      if !phase.Applying? || |phase.statements| > 0 then w else Released(w, p, Done)
    case Crash(p) => Released(w, p, Starting)
  }

  function Run(internal: string -> bool, optedIn: set<nat>, w: World, events: seq<Event>): World {
    if |events| == 0 then w
    else Step(internal, optedIn, Run(internal, optedIn, w, events[..|events| - 1]), events[|events| - 1])
  }

  predicate InsideLock(phase: Phase) {
    phase.Locked? || phase.Cleaned? || phase.Applying?
  }

  // Only the lock holder is past the lock, and without the opt-in it has
  // nothing destructive left to run.
  ghost predicate Orderly(optedIn: set<nat>, w: World) {
    && (forall p :: p in w.pods && InsideLock(w.pods[p]) ==> w.holder == Some(p))
    && (forall p :: p in w.pods && w.pods[p].Applying? && p !in optedIn ==>
          forall s :: s in w.pods[p].statements ==> !Destructive(s))
  }

  // What a pod may move to: past the lock only as its holder, and with nothing
  // destructive to run unless it opted in.
  ghost predicate MayMoveTo(optedIn: set<nat>, p: nat, phase: Phase, holder: Option<nat>) {
    && (InsideLock(phase) ==> holder == Some(p))
    && (phase.Applying? && p !in optedIn ==> forall s :: s in phase.statements ==> !Destructive(s))
  }

  lemma MoveIsOrderly(optedIn: set<nat>, w: World, p: nat, phase: Phase, holder: Option<nat>, db: Schema)
    requires Orderly(optedIn, w) && MayMoveTo(optedIn, p, phase, holder)
    requires holder == w.holder || w.holder == None || w.holder == Some(p)
    ensures Orderly(optedIn, World(db, holder, w.pods[p := phase]))
  {
  }

  lemma PlanAgainIsOrderly(internal: string -> bool, optedIn: set<nat>, w: World, p: nat, changes: seq<SchemaChange>)
    requires Orderly(optedIn, w) && PhaseOf(w, p) == Cleaned
    ensures Orderly(optedIn, Step(internal, optedIn, w, PlanAgain(p, changes)))
  {
    PartitionIsExact(Flat(changes));
    if p in optedIn {
      MoveIsOrderly(optedIn, w, p, Applying(Flat(changes)), w.holder, w.db);
    } else if Unparsable in Flat(changes) {
      MoveIsOrderly(optedIn, w, p, Done, None, w.db);
    } else {
      MoveIsOrderly(optedIn, w, p, Applying(Safe(Flat(changes))), w.holder, w.db);
    }
  }

  lemma RunStatementIsOrderly(internal: string -> bool, optedIn: set<nat>, w: World, p: nat)
    requires Orderly(optedIn, w) && PhaseOf(w, p).Applying? && |PhaseOf(w, p).statements| > 0
    ensures Orderly(optedIn, Step(internal, optedIn, w, RunStatement(p)))
  {
    var statements := w.pods[p].statements;
    assert forall s :: s in statements[1..] ==> s in statements;
    MoveIsOrderly(optedIn, w, p, Applying(statements[1..]), w.holder, Execute(w.db, statements[0]));
  }

  lemma StepIsOrderly(internal: string -> bool, optedIn: set<nat>, w: World, e: Event)
    requires Orderly(optedIn, w)
    ensures Orderly(optedIn, Step(internal, optedIn, w, e))
  {
    var w' := Step(internal, optedIn, w, e);
    var phase := PhaseOf(w, e.pod);
    if e.PlanAgain? && phase == Cleaned {
      PlanAgainIsOrderly(internal, optedIn, w, e.pod, e.changes);
    } else if e.RunStatement? && phase.Applying? && |phase.statements| > 0 {
      RunStatementIsOrderly(internal, optedIn, w, e.pod);
    } else if w'.pods != w.pods {
      assert !PhaseOf(w', e.pod).Applying?;
      MoveIsOrderly(optedIn, w, e.pod, PhaseOf(w', e.pod), w'.holder, w'.db);
      assert w' == World(w'.db, w'.holder, w.pods[e.pod := PhaseOf(w', e.pod)]);
    }
  }

  // The statement a step runs, if any.
  function Runs(w: World, e: Event): Option<Statement> {
    var phase := PhaseOf(w, e.pod);
    if e.RunStatement? && phase.Applying? && |phase.statements| > 0 then Some(phase.statements[0]) else None
  }

  lemma StepPreservesIff(internal: string -> bool, optedIn: set<nat>, w: World, e: Event)
    ensures !Preserved(internal, w.db, Step(internal, optedIn, w, e).db)
            <==> Runs(w, e).Some? && !KeepsNames(internal, w.db, Runs(w, e).value)
  {
    if Runs(w, e).Some? {
      StatementPreservesIff(internal, w.db, Runs(w, e).value);
    }
  }

  ghost predicate Fresh(w: World) {
    w.holder == None && forall p :: p in w.pods ==> w.pods[p] == Starting
  }

  lemma {:induction false} RunsAreOrderly(internal: string -> bool, optedIn: set<nat>, w: World, events: seq<Event>)
    requires Fresh(w)
    ensures Orderly(optedIn, Run(internal, optedIn, w, events))
  {
    if |events| == 0 {
    } else {
      var before := Run(internal, optedIn, w, events[..|events| - 1]);
      RunsAreOrderly(internal, optedIn, w, events[..|events| - 1]);
      StepIsOrderly(internal, optedIn, before, events[|events| - 1]);
    }
  }

  /** In every run, at most one pod at a time is past the lock. */
  lemma OnePodPastTheLock(internal: string -> bool, optedIn: set<nat>, w: World, events: seq<Event>, p: nat, q: nat)
    requires Fresh(w)
    requires InsideLock(PhaseOf(Run(internal, optedIn, w, events), p))
    requires InsideLock(PhaseOf(Run(internal, optedIn, w, events), q))
    ensures p == q
  {
    RunsAreOrderly(internal, optedIn, w, events);
  }

  /** In every run a step loses a name exactly when the lock holder runs a statement
      that does not keep it; and such a statement is a rename unless its pod opted
      in. */
  lemma NamesAreLostIff(internal: string -> bool, optedIn: set<nat>, w: World, events: seq<Event>, e: Event)
    requires Fresh(w)
    ensures var before := Run(internal, optedIn, w, events);
            var s := Runs(before, e);
            && (!Preserved(internal, before.db, Step(internal, optedIn, before, e).db)
                <==> s.Some? && !KeepsNames(internal, before.db, s.value))
            && (s.Some? ==> before.holder == Some(e.pod))
            && (s.Some? && !KeepsNames(internal, before.db, s.value) ==> e.pod in optedIn || Renames(s.value))
  {
    var before := Run(internal, optedIn, w, events);
    RunsAreOrderly(internal, optedIn, w, events);
    StepPreservesIff(internal, optedIn, before, e);
    var s := Runs(before, e);
    if s.Some? && e.pod !in optedIn {
      assert s.value in before.pods[e.pod].statements;
      SafeStatementPreserves(internal, before.db, s.value);
      StatementPreservesIff(internal, before.db, s.value);
    }
  }

  ghost predicate NoRenames(statements: seq<Statement>) {
    forall s :: s in statements ==> !Renames(s)
  }

  ghost predicate PlansNoRenames(events: seq<Event>) {
    forall e :: e in events && e.PlanAgain? ==> NoRenames(Flat(e.changes))
  }

  ghost predicate RunsNoRenames(w: World) {
    forall p :: p in w.pods && w.pods[p].Applying? ==> NoRenames(w.pods[p].statements)
  }

  lemma {:induction false} SafeIsPlanned(statements: seq<Statement>)
    ensures forall s :: s in Safe(statements) ==> s in statements
  {
    if |statements| == 0 {
    } else {
      SafeIsPlanned(statements[..|statements| - 1]);
    }
  }

  lemma StepRunsNoRenames(internal: string -> bool, optedIn: set<nat>, w: World, e: Event)
    requires RunsNoRenames(w) && (e.PlanAgain? ==> NoRenames(Flat(e.changes)))
    ensures RunsNoRenames(Step(internal, optedIn, w, e))
  {
    if e.PlanAgain? {
      SafeIsPlanned(Flat(e.changes));
    }
  }

  /** Without the opt-in, no run of any pods, crashes and plans without renames
      removes a table or a column outside Spirit's own tables. */
  lemma {:induction false} NothingIsDestroyed(internal: string -> bool, w: World, events: seq<Event>)
    requires Fresh(w) && PlansNoRenames(events)
    ensures RunsNoRenames(Run(internal, {}, w, events))
    ensures Preserved(internal, w.db, Run(internal, {}, w, events).db)
  {
    if |events| == 0 {
    } else {
      var init, e := events[..|events| - 1], events[|events| - 1];
      var before := Run(internal, {}, w, init);
      assert events == init + [e];
      NothingIsDestroyed(internal, w, init);
      StepRunsNoRenames(internal, {}, before, e);
      NamesAreLostIff(internal, {}, w, init, e);
    }
  }

  // One pod's startup: up to the second plan, and from there.
  function TakesTheLock(pod: nat, changes: seq<SchemaChange>): seq<Event> {
    [FastPlan(pod, changes, false), Acquire(pod), FinishCleaning(pod)]
  }

  function PlansAndRuns(pod: nat, changes: seq<SchemaChange>): seq<Event> {
    [PlanAgain(pod, changes), RunStatement(pod)]
  }

  lemma {:induction false} RunsCompose(internal: string -> bool, w: World, es: seq<Event>, fs: seq<Event>)
    ensures Run(internal, {}, w, es + fs) == Run(internal, {}, Run(internal, {}, w, es), fs)
  {
    if |fs| == 0 {
      assert es + fs == es;
    } else {
      RunsCompose(internal, w, es, fs[..|fs| - 1]);
      assert (es + fs)[..|es + fs| - 1] == es + fs[..|fs| - 1];
    }
  }

  lemma FirstStep(internal: string -> bool, w: World, events: seq<Event>)
    requires |events| > 0
    ensures Run(internal, {}, w, events[..1]) == Step(internal, {}, w, events[0])
  {
    assert events[..1][..0] == [];
    assert Run(internal, {}, w, []) == w;
  }

  lemma ReachesThePlan(internal: string -> bool, w: World, pod: nat, changes: seq<SchemaChange>)
    requires Fresh(w) && |changes| > 0
    ensures var w' := Run(internal, {}, w, TakesTheLock(pod, changes));
            PhaseOf(w', pod) == Cleaned && w'.db == w.db
  {
    var es := TakesTheLock(pod, changes);
    assert es[..2][..1] == es[..1];
    FirstStep(internal, w, es);
    assert PhaseOf(w, pod) == Starting;
    assert PhaseOf(Run(internal, {}, w, es[..1]), pod) == WantsLock;
    assert PhaseOf(Run(internal, {}, w, es[..2]), pod) == Locked;
  }

  lemma OneSafeStatement(s: Statement)
    requires !Destructive(s)
    ensures Safe(Flat([SchemaChange("", [s])])) == [s] && Flat([SchemaChange("", [s])]) == [s]
  {
    var changes := [SchemaChange("", [s])];
    assert changes[..0] == [] && [s][..0] == [];
    assert Flat(changes) == Flat([]) + [s];
    assert Safe([s]) == Safe([]) + [s];
  }

  lemma RunsTheStatement(internal: string -> bool, w: World, pod: nat, s: Statement)
    requires PhaseOf(w, pod) == Cleaned && !Destructive(s) && s != Unparsable
    ensures Run(internal, {}, w, PlansAndRuns(pod, [SchemaChange("", [s])])).db == Execute(w.db, s)
  {
    var changes := [SchemaChange("", [s])];
    var es := PlansAndRuns(pod, changes);
    OneSafeStatement(s);
    FirstStep(internal, w, es);
    var planned := Run(internal, {}, w, es[..1]);
    assert PhaseOf(planned, pod) == Applying([s]) && planned.db == w.db;
  }

  // --- and the schema a startup reaches ------------------------------------

  function ExecuteAll(db: Schema, statements: seq<Statement>): Schema
    decreases |statements|
  {
    if |statements| == 0 then db else ExecuteAll(Execute(db, statements[0]), statements[1..])
  }

  function RunEach(pod: nat, n: nat): seq<Event> {
    seq(n, _ => RunStatement(pod))
  }

  lemma {:induction false} RunsThemAll(internal: string -> bool, w: World, pod: nat, statements: seq<Statement>)
    requires PhaseOf(w, pod) == Applying(statements)
    ensures Run(internal, {}, w, RunEach(pod, |statements|)).db == ExecuteAll(w.db, statements)
    decreases |statements|
  {
    if |statements| == 0 {
    } else {
      var events := RunEach(pod, |statements|);
      var w1 := Step(internal, {}, w, RunStatement(pod));
      RunsThemAll(internal, w1, pod, statements[1..]);
      FirstStep(internal, w, events);
      assert events[..1] + RunEach(pod, |statements| - 1) == events;
      RunsCompose(internal, w, events[..1], RunEach(pod, |statements| - 1));
    }
  }

  /** A pod whose plan is empty goes no further, unless Spirit's tables were left
      behind: then it takes the lock, if it is free, and drops them. */
  lemma StaleTablesAreDropped(internal: string -> bool, w: World, pod: nat, t: string)
    requires Fresh(w) && internal(t)
    ensures PhaseOf(Step(internal, {}, w, FastPlan(pod, [], false)), pod) == Done
    ensures Run(internal, {}, w, [FastPlan(pod, [], true), Acquire(pod), DropStale(pod, t)]).db == w.db - {t}
  {
    var es := [FastPlan(pod, [], true), Acquire(pod), DropStale(pod, t)];
    assert es[..2][..1] == es[..1];
    FirstStep(internal, w, es);
    assert PhaseOf(Run(internal, {}, w, es[..1]), pod) == WantsLock;
    assert PhaseOf(Run(internal, {}, w, es[..2]), pod) == Locked;
  }

  /** From any schema a pod that did not opt in, undisturbed, carries out the whole plan
      in order but for what would give up data; a plan that gives up nothing, such as
      one that creates tables and adds columns, is carried out whole. */
  lemma StartupCarriesOut(internal: string -> bool, w: World, pod: nat, changes: seq<SchemaChange>)
    requires Fresh(w) && |changes| > 0 && Unparsable !in Flat(changes)
    ensures var kept := Safe(Flat(changes));
            && Run(internal, {}, w, TakesTheLock(pod, changes) + ([PlanAgain(pod, changes)] + RunEach(pod, |kept|))).db
               == ExecuteAll(w.db, kept)
            && ((forall s :: s in Flat(changes) ==> !LosesData(s)) ==> kept == Flat(changes))
  {
    var kept := Safe(Flat(changes));
    ReachesThePlan(internal, w, pod, changes);
    var w1 := Run(internal, {}, w, TakesTheLock(pod, changes));
    var w2 := Step(internal, {}, w1, PlanAgain(pod, changes));
    OneStep(internal, w1, PlanAgain(pod, changes));
    RunsThemAll(internal, w2, pod, kept);
    RunsCompose(internal, w1, [PlanAgain(pod, changes)], RunEach(pod, |kept|));
    RunsCompose(internal, w, TakesTheLock(pod, changes), [PlanAgain(pod, changes)] + RunEach(pod, |kept|));
    if forall s :: s in Flat(changes) ==> !LosesData(s) {
      AllAreKept(Flat(changes));
    }
  }

  lemma OneStep(internal: string -> bool, w: World, e: Event)
    ensures Run(internal, {}, w, [e]) == Step(internal, {}, w, e)
  {
    FirstStep(internal, w, [e]);
    assert [e][..1] == [e];
  }

  lemma {:induction false} AllAreKept(statements: seq<Statement>)
    requires forall s :: s in statements ==> !LosesData(s)
    ensures Safe(statements) == statements
  {
    if |statements| == 0 {
    } else {
      var init, last := statements[..|statements| - 1], statements[|statements| - 1];
      assert statements == init + [last];
      AllAreKept(init);
      RefusedIffDataIsLost(last);
    }
  }

  // A statement that only creates a table or adds columns gives up nothing.
  lemma AdditionsLoseNothing(s: Statement)
    requires s.CreateTable? || (s.AlterTable? && forall i :: 0 <= i < |s.clauses| ==> s.clauses[i].AddColumn?)
    ensures !LosesData(s)
  {
    RefusedIffDataIsLost(s);
  }

  /** Renames do pass the guard: a pod that did not opt in runs any one statement
      that is not destructive, so a planned rename takes the old name away. */
  lemma RenamesPassTheGuard(internal: string -> bool, w: World, pod: nat, s: Statement)
    requires Fresh(w) && !Destructive(s) && s != Unparsable
    ensures var changes := [SchemaChange("", [s])];
            var after := Run(internal, {}, w, TakesTheLock(pod, changes) + PlansAndRuns(pod, changes)).db;
            after == Execute(w.db, s) && (Preserved(internal, w.db, after) <==> KeepsNames(internal, w.db, s))
  {
    var changes := [SchemaChange("", [s])];
    ReachesThePlan(internal, w, pod, changes);
    RunsTheStatement(internal, Run(internal, {}, w, TakesTheLock(pod, changes)), pod, s);
    RunsCompose(internal, w, TakesTheLock(pod, changes), PlansAndRuns(pod, changes));
    StatementPreservesIff(internal, w.db, s);
  }

  // The same for the names Spirit really uses.
  lemma NothingOutsideSpiritIsDestroyed(w: World, events: seq<Event>, t: string)
    requires Fresh(w) && PlansNoRenames(events) && t in w.db && !IsSpiritInternal(t)
    ensures var after := Run(IsSpiritInternal, {}, w, events).db;
            t in after && w.db[t] <= after[t]
  {
    NothingIsDestroyed(IsSpiritInternal, w, events);
  }
}
