/** The loops of schema reconciliation: `compute_diff`, `generate_ddl` and `emit_ddl_phases`
    fill vectors step by step.  Each is proved to compute the function of module `Schema` whose
    effect on a table is proved in `SchemaConvergence`. */
module SchemaSync {
  import opened Common
  import opened Schema
  import opened SchemaProofs
  import opened SchemaConvergence
  import opened SchemaMeaning

  /** A column as the catalog query returns it. */
  datatype DbColumn = DbColumn(name: string, column: Column)

  function TableOf(columns: seq<DbColumn>): Table
  {
    if columns == [] then map[]
    else
      var last := columns[|columns| - 1];
      TableOf(columns[..|columns| - 1])[last.name := last.column]
  }

  function NamesOf(columns: seq<DbColumn>): seq<string>
  {
    seq(|columns|, i requires 0 <= i < |columns| => columns[i].name)
  }

  lemma {:induction false} TableHasNames(columns: seq<DbColumn>, n: string)
    ensures n in TableOf(columns) <==> n in NamesOf(columns)
    decreases |columns|
  {
    if columns != [] {
      var init := columns[..|columns| - 1];
      TableHasNames(init, n);
      assert NamesOf(columns) == NamesOf(init) + [columns[|columns| - 1].name];
    }
  }

  // ---- The specification functions, one element at a time from the back ----

  lemma {:induction false} FieldChangesConcat(p: Place, a: seq<Field>, b: seq<Field>, t: Table)
    ensures AllFieldChanges(p, a + b, t) == AllFieldChanges(p, a, t) + AllFieldChanges(p, b, t)
    decreases |a|
  {
    if a == [] {
      assert a + b == b;
    } else {
      var rest := a[1..];
      FieldChangesConcat(p, rest, b, t);
      assert (a + b)[1..] == rest + b && (a + b)[0] == a[0];
      Regroup(FieldChanges(p, a[0], Get(t, a[0].name)), AllFieldChanges(p, rest, t), AllFieldChanges(p, b, t));
    }
  }

  lemma FieldChangesSnoc(p: Place, fields: seq<Field>, i: nat, t: Table)
    requires i < |fields|
    ensures AllFieldChanges(p, fields[..i + 1], t) ==
            AllFieldChanges(p, fields[..i], t) + FieldChanges(p, fields[i], Get(t, fields[i].name))
  {
    assert fields[..i + 1] == fields[..i] + [fields[i]];
    FieldChangesConcat(p, fields[..i], [fields[i]], t);
    assert [fields[i]][1..] == [];
  }

  lemma {:induction false} DropChangesConcat(fields: seq<Field>, a: seq<string>, b: seq<string>)
    ensures AllDropChanges(fields, a + b) == AllDropChanges(fields, a) + AllDropChanges(fields, b)
    decreases |a|
  {
    if a == [] {
      assert a + b == b;
    } else {
      var rest := a[1..];
      DropChangesConcat(fields, rest, b);
      assert (a + b)[1..] == rest + b && (a + b)[0] == a[0];
      Regroup(DropChange(fields, a[0]), AllDropChanges(fields, rest), AllDropChanges(fields, b));
    }
  }

  lemma DropChangesSnoc(fields: seq<Field>, order: seq<string>, i: nat)
    requires i < |order|
    ensures AllDropChanges(fields, order[..i + 1]) == AllDropChanges(fields, order[..i]) + DropChange(fields, order[i])
  {
    assert order[..i + 1] == order[..i] + [order[i]];
    DropChangesConcat(fields, order[..i], [order[i]]);
    assert [order[i]][1..] == [];
  }

  // ---- compute_diff ----

  method IndexColumns(columns: seq<DbColumn>) returns (byName: Table)
    ensures byName == TableOf(columns)
  {
    byName := map[];
    for i := 0 to |columns|
      invariant byName == TableOf(columns[..i])
    {
      assert columns[..i + 1][..i] == columns[..i];
      byName := byName[columns[i].name := columns[i].column];
    }
    assert columns[..|columns|] == columns;
  }

  method ManifestNames(fields: seq<Field>) returns (names: set<string>)
    ensures forall n :: n in names <==> FieldNamed(fields, n).Some?
  {
    names := {};
    for i := 0 to |fields|
      invariant forall n :: n in names <==> exists k :: 0 <= k < i && fields[k].name == n
    {
      names := names + {fields[i].name};
    }
    forall n ensures n in names <==> FieldNamed(fields, n).Some? { NamedIsThere(fields, n); }
  }

  /** One pass over the manifest, then one over the columns, pushing onto one vector. */
  method ComputeDiff(p: Place, columns: seq<DbColumn>, fields: seq<Field>) returns (changes: seq<Change>)
    ensures changes == Diff(p, fields, TableOf(columns), NamesOf(columns))
  {
    var byName := IndexColumns(columns);
    var manifestNames := ManifestNames(fields);
    changes := [];
    for i := 0 to |fields|
      invariant changes == AllFieldChanges(p, fields[..i], byName)
    {
      FieldChangesSnoc(p, fields, i, byName);
      var own := DiffField(p, fields[i], byName);
      changes := changes + own;
    }
    assert fields[..|fields|] == fields;
    ghost var order := NamesOf(columns);
    for i := 0 to |columns|
      invariant changes == AllFieldChanges(p, fields, byName) + AllDropChanges(fields, order[..i])
    {
      DropChangesSnoc(fields, order, i);
      if !IsSystemField(columns[i].name) && columns[i].name !in manifestNames {
        changes := changes + [Drop(columns[i].name)];
      }
    }
    assert order[..|columns|] == order;
  }

  method DiffField(p: Place, f: Field, byName: Table) returns (changes: seq<Change>)
    ensures changes == FieldChanges(p, f, Get(byName, f.name))
  {
    changes := [];
    if IsSystemField(f.name) { return; }
    var desired := ResolvePgType(f, p.pkTypes);
    if f.name !in byName {
      changes := changes + [Add(f, desired)];
      return;
    }
    var c := byName[f.name];
    if c.pgType != NormalizePgType(desired) { changes := changes + [AlterType(f.name, desired)]; }
    var wantNotNull := f.required && !f.primaryKey;
    if wantNotNull && !c.notNull {
      changes := changes + [SetNotNull(f.name)];
    } else if !wantNotNull && c.notNull && !f.primaryKey {
      changes := changes + [DropNotNull(f.name)];
    }
    assert changes == TypeChange(f, c, desired) + NullChange(f, c);
    match (c.default, DesiredDefault(f)) {
      case (None, Some(sql)) => changes := changes + [SetDefault(f.name, sql)];
      case (Some(_), None) => changes := changes + [DropDefault(f.name)];
      case (Some(existing), Some(sql)) => if !DefaultsMatch(existing, sql) { changes := changes + [SetDefault(f.name, sql)]; }
      case (None, None) =>
    }
    assert changes == TypeChange(f, c, desired) + NullChange(f, c) + DefaultChange(f, c);
    if f.kind.EntityLink? && c.fk.Some? && f.references.Some?
       && DeleteRuleName(c.fk.value.rule) != ResolveOnDelete(f) {
      var target := LinkTarget(p.schema, f.references.value);
      if target.None? { return; }
      var newName := "fk_" + p.schema + "_" + p.table + "_" + f.name + "_" + target.value.1;
      changes := changes + [ReplaceFk(f.name, c.fk.value.name, newName, target.value, ResolveOnDelete(f))];
    }
  }

  // ---- generate_ddl ----

  /** Push what one change contributes onto the phases it belongs to. */
  method EmitDdlPhases(change: Change, phases: array<seq<Statement>>)
    requires phases.Length == 7
    modifies phases
    ensures forall k | 0 <= k < 7 :: phases[k] == old(phases[k]) + Emit(change, k)
  {
    match change
    case Add(f, ty) =>
      phases[2] := phases[2] + [AddColumn(f.name, ty)];
      if f.required { phases[3] := phases[3] + [SetColumnNotNull(f.name)]; }
      if DesiredDefault(f).Some? { phases[4] := phases[4] + [SetColumnDefault(f.name, DesiredDefault(f).value)]; }
    case Drop(n) => phases[6] := phases[6] + [DropColumn(n)];
    case AlterType(n, ty) => phases[1] := phases[1] + [AlterColumnType(n, ty)];
    case SetNotNull(n) => phases[3] := phases[3] + [SetColumnNotNull(n)];
    case DropNotNull(n) => phases[3] := phases[3] + [DropColumnNotNull(n)];
    case SetDefault(n, sql) => phases[4] := phases[4] + [SetColumnDefault(n, sql)];
    case DropDefault(n) => phases[4] := phases[4] + [DropColumnDefault(n)];
    case ReplaceFk(n, oldName, newName, target, rule) =>
      phases[0] := phases[0] + [DropConstraint(oldName)];
      phases[5] := phases[5] + [AddForeignKey(n, newName, target, rule)];
  }

  lemma PhaseSnoc(cs: seq<Change>, i: nat, phase: nat)
    requires i < |cs|
    ensures Phase(cs[..i + 1], phase) == Phase(cs[..i], phase) + Emit(cs[i], phase)
  {
    assert cs[..i + 1] == cs[..i] + [cs[i]];
    PhaseConcat(cs[..i], [cs[i]], phase);
    SmallPhase([cs[i]], phase);
  }

  /** The first `n` phases, one after the other. */
  function Flattened(cs: seq<Change>, n: nat): seq<Statement>
  {
    if n == 0 then [] else Flattened(cs, n - 1) + Phase(cs, n - 1)
  }

  lemma SevenFlattened(cs: seq<Change>)
    ensures Flattened(cs, 7) == Ddl(cs)
  {
    var a, b, c, d := Phase(cs, 0), Phase(cs, 1), Phase(cs, 2), Phase(cs, 3);
    assert Flattened(cs, 1) == a;
    assert Flattened(cs, 2) == a + b;
    assert Flattened(cs, 3) == a + b + c;
    assert Flattened(cs, 4) == a + b + c + d;
    assert Flattened(cs, 5) == a + b + c + d + Phase(cs, 4);
    assert Flattened(cs, 6) == a + b + c + d + Phase(cs, 4) + Phase(cs, 5);
  }

  /** Constraints go before anything else changes and come back when everything has; columns are
      dropped last. */
  function Rank(st: Statement): nat
  {
    match st
    case DropConstraint(_) => 0
    case AlterColumnType(_, _) => 1
    case AddColumn(_, _) => 2
    case SetColumnNotNull(_) => 3
    case DropColumnNotNull(_) => 3
    case SetColumnDefault(_, _) => 4
    case DropColumnDefault(_) => 4
    case AddForeignKey(_, _, _, _) => 5
    case DropColumn(_) => 6
  }

  lemma {:induction false} PhaseHasRank(cs: seq<Change>, phase: nat)
    ensures forall st | st in Phase(cs, phase) :: Rank(st) == phase
    decreases |cs|
  {
    if cs != [] {
      PhaseHasRank(cs[1..], phase);
      assert forall st | st in Emit(cs[0], phase) :: Rank(st) == phase;
    }
  }

  predicate InOrder(sts: seq<Statement>)
  {
    forall i, j | 0 <= i < j < |sts| :: Rank(sts[i]) <= Rank(sts[j])
  }

  lemma {:induction false} FlattenedInOrder(cs: seq<Change>, n: nat)
    ensures InOrder(Flattened(cs, n)) && forall st | st in Flattened(cs, n) :: Rank(st) < n
    decreases n
  {
    if n > 0 {
      FlattenedInOrder(cs, n - 1);
      PhaseHasRank(cs, n - 1);
      var a, b := Flattened(cs, n - 1), Phase(cs, n - 1);
      forall i, j | 0 <= i < j < |a + b| ensures Rank((a + b)[i]) <= Rank((a + b)[j]) {
        assert i < |a| ==> a[i] in a;
        assert i >= |a| ==> b[i - |a|] in b;
        assert j >= |a| ==> b[j - |a|] in b;
      }
    }
  }

  method GenerateDdl(cs: seq<Change>) returns (ddl: seq<Statement>)
    ensures ddl == Ddl(cs) && InOrder(ddl)
  {
    var phases := new seq<Statement>[7](_ => []);
    for i := 0 to |cs|
      invariant forall k | 0 <= k < 7 :: phases[k] == Phase(cs[..i], k)
    {
      EmitDdlPhases(cs[i], phases);
      forall k | 0 <= k < 7 ensures phases[k] == Phase(cs[..i + 1], k) { PhaseSnoc(cs, i, k); }
    }
    assert cs[..|cs|] == cs;
    ddl := [];
    for k := 0 to 7
      invariant ddl == Flattened(cs, k)
      invariant forall j | 0 <= j < 7 :: phases[j] == Phase(cs, j)
    {
      ddl := ddl + phases[k];
    }
    SevenFlattened(cs);
    FlattenedInOrder(cs, 7);
  }

  /** A whole sync of one table: what the two methods produce takes every column to its target, which
      is what its field asks for. */
  method SyncTable(k: Catalog, p: Place, columns: seq<DbColumn>, fields: seq<Field>) returns (ddl: seq<Statement>)
    requires DistinctNames(fields) && DistinctFks(TableOf(columns))
    requires forall i, j | 0 <= i < j < |columns| :: columns[i].name != columns[j].name
    ensures forall n :: Get(ApplyAll(k, TableOf(columns), ddl), n) == Reconciled(k, p, fields, TableOf(columns), n)
    ensures TableMeans(k, p, fields, TableOf(columns), ApplyAll(k, TableOf(columns), ddl))
  {
    var changes := ComputeDiff(p, columns, fields);
    ddl := GenerateDdl(changes);
    forall n ensures n in NamesOf(columns) <==> n in TableOf(columns) { TableHasNames(columns, n); }
    forall n ensures Get(ApplyAll(k, TableOf(columns), ddl), n) == Reconciled(k, p, fields, TableOf(columns), n) {
      ReconcileMeetsTarget(k, p, fields, TableOf(columns), NamesOf(columns), n);
    }
    ReconciledMeans(k, p, fields, TableOf(columns), ApplyAll(k, TableOf(columns), ddl));
  }

  // ---- generate_create_table ----

  ghost predicate DistinctColumns(columns: seq<DbColumn>)
  {
    forall i, j | 0 <= i < j < |columns| :: columns[i].name != columns[j].name
  }

  lemma {:induction false} LookUp(columns: seq<DbColumn>, i: nat)
    requires DistinctColumns(columns) && i < |columns|
    ensures Get(TableOf(columns), columns[i].name) == Some(columns[i].column)
    decreases |columns|
  {
    var init := columns[..|columns| - 1];
    if i < |init| {
      LookUp(init, i);
      assert columns[i].name != columns[|columns| - 1].name;
    }
  }

  predicate CreatedFromField(f: Field)
  {
    f.name != "created_at" && f.name != "updated_at"
  }

  const KEY_COLUMN := DbColumn("id", Column("uuid", true, Some("gen_random_uuid()"), None))
  const CREATED_COLUMN := DbColumn("created_at", Column("timestamp with time zone", true, Some("now()"), None))
  const UPDATED_COLUMN := DbColumn("updated_at", Column("timestamp with time zone", true, Some("now()"), None))

  function DeclaredColumns(k: Catalog, p: Place, fields: seq<Field>): seq<DbColumn>
  {
    if fields == [] then []
    else
      var f := fields[|fields| - 1];
      DeclaredColumns(k, p, fields[..|fields| - 1]) +
      if CreatedFromField(f) then [DbColumn(f.name, CreatedColumn(k, p, f))] else []
  }

  /** The columns of a new table: an id unless one is declared, the declared columns, and the two
      timestamps; a derived entity gets only what it declares. */
  function CreatedColumns(k: Catalog, p: Place, fields: seq<Field>, derived: bool): seq<DbColumn>
  {
    (if derived || FieldNamed(fields, "id").Some? then [] else [KEY_COLUMN])
    + DeclaredColumns(k, p, fields)
    + if derived then [] else [CREATED_COLUMN, UPDATED_COLUMN]
  }

  method GenerateCreateTable(k: Catalog, p: Place, fields: seq<Field>, derived: bool) returns (columns: seq<DbColumn>)
    ensures columns == CreatedColumns(k, p, fields, derived)
  {
    columns := [];
    if !derived && FieldNamed(fields, "id").None? { columns := columns + [KEY_COLUMN]; }
    ghost var start := columns;
    for i := 0 to |fields|
      invariant columns == start + DeclaredColumns(k, p, fields[..i])
    {
      assert fields[..i + 1][..i] == fields[..i];
      if CreatedFromField(fields[i]) {
        columns := columns + [DbColumn(fields[i].name, CreatedColumn(k, p, fields[i]))];
      }
    }
    assert fields[..|fields|] == fields;
    if !derived { columns := columns + [CREATED_COLUMN] + [UPDATED_COLUMN]; }
  }

  lemma {:induction false} DeclaredColumnsAre(k: Catalog, p: Place, fields: seq<Field>)
    requires DistinctNames(fields)
    ensures DistinctColumns(DeclaredColumns(k, p, fields))
    ensures forall d :: d in DeclaredColumns(k, p, fields) <==>
              exists f :: f in fields && CreatedFromField(f) && d == DbColumn(f.name, CreatedColumn(k, p, f))
    decreases |fields|
  {
    if fields != [] {
      var init, f := fields[..|fields| - 1], fields[|fields| - 1];
      DeclaredColumnsAre(k, p, init);
      var before := DeclaredColumns(k, p, init);
      assert forall g :: g in fields <==> g in init || g == f;
      forall i | 0 <= i < |before| ensures before[i].name != f.name { assert before[i] in before; }
    }
  }

  lemma CreatedColumnsAre(k: Catalog, p: Place, fields: seq<Field>, derived: bool)
    requires DistinctNames(fields)
    ensures DistinctColumns(CreatedColumns(k, p, fields, derived))
  {
    var declared := DeclaredColumns(k, p, fields);
    DeclaredColumnsAre(k, p, fields);
    NamedIsThere(fields, "id");
    forall i | 0 <= i < |declared|
      ensures declared[i].name != "created_at" && declared[i].name != "updated_at"
      ensures FieldNamed(fields, "id").None? ==> declared[i].name != "id"
    {
      assert declared[i] in declared;
    }
  }

  /** Creating a table and reconciling it agree exactly when every declared column settles. */
  lemma CreationNeedsNoSyncIff(k: Catalog, p: Place, fields: seq<Field>, derived: bool)
    requires k.Valid() && DistinctNames(fields) && forall f | f in fields :: ValidField(f)
    ensures var columns := CreatedColumns(k, p, fields, derived);
            Diff(p, fields, TableOf(columns), NamesOf(columns)) == [] <==>
            forall f | f in fields && !IsSystemField(f.name) :: FreshSettles(p, f)
  {
    var columns, declared := CreatedColumns(k, p, fields, derived), DeclaredColumns(k, p, fields);
    var t := TableOf(columns);
    CreatedColumnsAre(k, p, fields, derived);
    DeclaredColumnsAre(k, p, fields);
    forall f | f in fields && !IsSystemField(f.name) ensures Get(t, f.name) == Some(CreatedColumn(k, p, f)) {
      var d := DbColumn(f.name, CreatedColumn(k, p, f));
      assert d in declared && d in columns;
      var i :| 0 <= i < |columns| && columns[i] == d;
      LookUp(columns, i);
    }
    forall n ensures n in NamesOf(columns) <==> n in t { TableHasNames(columns, n); }
    forall n | n in t ensures IsSystemField(n) || FieldNamed(fields, n).Some? { CreatedNames(k, p, fields, derived, n); }
    FreshTableIff(k, p, fields, t, NamesOf(columns));
  }

  lemma CreatedNames(k: Catalog, p: Place, fields: seq<Field>, derived: bool, n: string)
    requires DistinctNames(fields) && n in NamesOf(CreatedColumns(k, p, fields, derived))
    ensures IsSystemField(n) || FieldNamed(fields, n).Some?
  {
    var columns := CreatedColumns(k, p, fields, derived);
    var i :| 0 <= i < |columns| && NamesOf(columns)[i] == n;
    DeclaredColumnsAre(k, p, fields);
    NamedIsThere(fields, n);
    assert columns[i] in columns;
  }

  // ---- What a new table is ----

  /** Is the type written UUID: of a UUID field, or of a link whose key is one or is not known? */
  predicate WrittenUuid(p: Place, f: Field)
  {
    || f.kind.Uuid?
    || (f.kind.EntityLink? && (f.references.Some? && f.references.value in p.pkTypes ==> p.pkTypes[f.references.value] == "UUID"))
  }

  /** The column of a declared field in a new table: a key is never null and is generated if it is a
      UUID, whatever default it declares. */
  ghost predicate NewColumnMeans(k: Catalog, p: Place, f: Field, now: Column)
  {
    var key := f.primaryKey || f.name == "id";
    && TypeMeans(p, f, now.pgType) && now.fk == None
    && now.notNull == (key || f.required)
    && if key then now.default == if WrittenUuid(p, f) then Some("gen_random_uuid()") else None
       else DefaultMeans(k, f, None, now.default)
  }

  ghost predicate NewTableMeans(k: Catalog, p: Place, fields: seq<Field>, derived: bool, t: Table)
  {
    && (forall f | f in fields && f.name !in ["created_at", "updated_at"] :: f.name in t && NewColumnMeans(k, p, f, t[f.name]))
    && (forall n | n in t :: (!derived && n in ["id", "created_at", "updated_at"]) || exists f :: f in fields && f.name == n)
    && (!derived ==>
          && "created_at" in t && t["created_at"] == Column("timestamp with time zone", true, Some("now()"), None)
          && "updated_at" in t && t["updated_at"] == Column("timestamp with time zone", true, Some("now()"), None)
          && "id" in t && ((forall f | f in fields :: f.name != "id") ==> t["id"] == Column("uuid", true, Some("gen_random_uuid()"), None)))
  }

  lemma UuidIsWritten(p: Place, f: Field)
    ensures ResolvePgType(f, p.pkTypes) == "UUID" <==> WrittenUuid(p, f)
  {
    assert "UUID"[0] == 'U';
  }

  lemma CreatedColumnMeans(k: Catalog, p: Place, f: Field)
    ensures NewColumnMeans(k, p, f, CreatedColumn(k, p, f))
  {
    TypeIsMeant(p, f);
    UuidIsWritten(p, f);
    DefaultIsMeant(k, f, None);
  }

  lemma ColumnIsCreated(k: Catalog, p: Place, fields: seq<Field>, derived: bool, d: DbColumn)
    requires DistinctNames(fields) && d in CreatedColumns(k, p, fields, derived)
    ensures Get(TableOf(CreatedColumns(k, p, fields, derived)), d.name) == Some(d.column)
  {
    var columns := CreatedColumns(k, p, fields, derived);
    CreatedColumnsAre(k, p, fields, derived);
    var i :| 0 <= i < |columns| && columns[i] == d;
    LookUp(columns, i);
  }

  lemma SystemColumnsCreated(k: Catalog, p: Place, fields: seq<Field>)
    requires DistinctNames(fields)
    ensures var t := TableOf(CreatedColumns(k, p, fields, false));
            && Get(t, "created_at") == Some(CREATED_COLUMN.column) && Get(t, "updated_at") == Some(UPDATED_COLUMN.column)
            && (FieldNamed(fields, "id").None? ==> Get(t, "id") == Some(KEY_COLUMN.column))
  {
    var columns := CreatedColumns(k, p, fields, false);
    assert columns[|columns| - 2] == CREATED_COLUMN && columns[|columns| - 1] == UPDATED_COLUMN;
    ColumnIsCreated(k, p, fields, false, CREATED_COLUMN);
    ColumnIsCreated(k, p, fields, false, UPDATED_COLUMN);
    if FieldNamed(fields, "id").None? {
      assert columns[0] == KEY_COLUMN;
      ColumnIsCreated(k, p, fields, false, KEY_COLUMN);
    }
  }

  lemma FieldIsCreated(k: Catalog, p: Place, fields: seq<Field>, derived: bool, f: Field)
    requires DistinctNames(fields) && f in fields && CreatedFromField(f)
    ensures var t := TableOf(CreatedColumns(k, p, fields, derived)); f.name in t && NewColumnMeans(k, p, f, t[f.name])
  {
    var d := DbColumn(f.name, CreatedColumn(k, p, f));
    DeclaredColumnsAre(k, p, fields);
    assert d in DeclaredColumns(k, p, fields);
    ColumnIsCreated(k, p, fields, derived, d);
    CreatedColumnMeans(k, p, f);
  }

  lemma DerivedNames(k: Catalog, p: Place, fields: seq<Field>, n: string)
    requires DistinctNames(fields) && n in NamesOf(CreatedColumns(k, p, fields, true))
    ensures exists f :: f in fields && f.name == n
  {
    var columns := CreatedColumns(k, p, fields, true);
    var i :| 0 <= i < |columns| && NamesOf(columns)[i] == n;
    DeclaredColumnsAre(k, p, fields);
    assert columns == DeclaredColumns(k, p, fields);
    assert columns[i] in columns;
  }

  /** A new table has an id and two timestamps besides what it declares, and a derived one only what
      it declares. */
  lemma CreatedTableMeans(k: Catalog, p: Place, fields: seq<Field>, derived: bool)
    requires DistinctNames(fields)
    ensures NewTableMeans(k, p, fields, derived, TableOf(CreatedColumns(k, p, fields, derived)))
  {
    var columns := CreatedColumns(k, p, fields, derived);
    var t := TableOf(columns);
    forall f | f in fields && f.name !in ["created_at", "updated_at"] ensures f.name in t && NewColumnMeans(k, p, f, t[f.name]) {
      FieldIsCreated(k, p, fields, derived, f);
    }
    forall n | n in t && !(!derived && n in ["id", "created_at", "updated_at"]) ensures exists f :: f in fields && f.name == n {
      TableHasNames(columns, n);
      NamedIsThere(fields, n);
      if derived { DerivedNames(k, p, fields, n); } else { CreatedNames(k, p, fields, derived, n); }
    }
    if !derived {
      SystemColumnsCreated(k, p, fields);
      IdIsCreated(k, p, fields);
    }
  }

  lemma IdIsCreated(k: Catalog, p: Place, fields: seq<Field>)
    requires DistinctNames(fields)
    ensures "id" in TableOf(CreatedColumns(k, p, fields, false))
    ensures (forall f | f in fields :: f.name != "id") ==> FieldNamed(fields, "id").None?
  {
    NamedIsThere(fields, "id");
    SystemColumnsCreated(k, p, fields);
    if FieldNamed(fields, "id").Some? {
      var f := FieldNamed(fields, "id").value;
      assert |f.name| == 2;
      FieldIsCreated(k, p, fields, false, f);
    }
  }
}
