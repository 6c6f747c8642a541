/** Schema reconciliation: a manifest is compared with the columns of a table, and the
    differences become DDL in seven phases.  Tables, columns and statements are values here;
    `ApplyAll` says what the statements do to a table. */
module Schema {
  import opened Common

  datatype FieldType =
    | Text | Number | Decimal(size: Option<(nat, nat)>) | Boolean | Date | Timestamp
    | Json | File | Uuid | EntityLink | TextArray | NumberArray

  datatype OnDelete = Cascade | Restrict | SetNull

  /** A manifest default.  `Exact` is a string default of a decimal field in its canonical form. */
  datatype Default =
    | Null
    | Bool(b: bool)
    | Numeric(text: string)
    | Exact(text: string)
    | Str(s: string)
    | Compound(json: string)

  datatype Field = Field(
    name: string,
    kind: FieldType,
    required: bool,
    primaryKey: bool,
    default: Option<Default>,
    references: Option<string>,
    onDelete: Option<OnDelete>)

  /** A foreign key as the catalog reports it, with the schema and table it points at: the delete
      rule is one letter. */
  datatype Fk = Fk(name: string, rule: string, target: (string, string))

  datatype Column = Column(pgType: string, notNull: bool, default: Option<string>, fk: Option<Fk>)

  type Table = map<string, Column>

  datatype Change =
    | Add(field: Field, pgType: string)
    | Drop(column: string)
    | AlterType(column: string, toType: string)
    | SetNotNull(column: string)
    | DropNotNull(column: string)
    | SetDefault(column: string, sql: string)
    | DropDefault(column: string)
    | ReplaceFk(column: string, oldName: string, newName: string, target: (string, string), rule: string)

  datatype Statement =
    | DropConstraint(name: string)
    | AlterColumnType(col: string, toType: string)
    | AddColumn(col: string, pgType: string)
    | SetColumnNotNull(col: string)
    | DropColumnNotNull(col: string)
    | SetColumnDefault(col: string, sql: string)
    | DropColumnDefault(col: string)
    | AddForeignKey(col: string, name: string, target: (string, string), rule: string)
    | DropColumn(col: string)

  // ---- Text ----

  function LowerChar(c: char): char
  {
    if 'A' <= c <= 'Z' then (c - 'A') + 'a' else c
  }

  function Lower(s: string): string
  {
    if s == "" then "" else [LowerChar(s[0])] + Lower(s[1..])
  }

  /** Everything before the first "::". */
  function BeforeCast(s: string): string
  {
    if |s| < 2 then s
    else if s[0] == ':' && s[1] == ':' then ""
    else [s[0]] + BeforeCast(s[1..])
  }

  predicate HasCast(s: string)
  {
    |s| >= 2 && ((s[0] == ':' && s[1] == ':') || HasCast(s[1..]))
  }

  predicate DefaultsMatch(pgExpr: string, desired: string)
  {
    Trim(BeforeCast(pgExpr)) == Trim(desired)
  }

  function QuoteBody(s: string): string
  {
    if s == "" then "" else (if s[0] == '\'' then "''" else [s[0]]) + QuoteBody(s[1..])
  }

  function QuoteLiteral(s: string): string
  {
    "'" + QuoteBody(s) + "'"
  }

  // ---- Types, defaults and delete rules ----

  function PostgresType(k: FieldType): string
  {
    match k
    case Text => "TEXT"
    case File => "TEXT"
    case Number => "DOUBLE PRECISION"
    case Decimal(size) =>
      if size.Some? then "NUMERIC(" + NumberText(size.value.0, false) + "," + NumberText(size.value.1, false) + ")" else "NUMERIC"
    case Boolean => "BOOLEAN"
    case Date => "DATE"
    case Timestamp => "TIMESTAMPTZ"
    case Json => "JSONB"
    case Uuid => "UUID"
    case EntityLink => "UUID"
    case TextArray => "TEXT[]"
    case NumberArray => "DOUBLE PRECISION[]"
  }

  function NormalizePgType(t: string): string
  {
    if t == "TIMESTAMPTZ" then "timestamp with time zone" else Lower(t)
  }

  function ResolvePgType(f: Field, pkTypes: map<string, string>): string
  {
    if f.kind.EntityLink? && f.references.Some? && f.references.value in pkTypes then pkTypes[f.references.value]
    else PostgresType(f.kind)
  }

  function SqlDefault(d: Default, k: FieldType): Option<string>
  {
    match d
    case Null => None
    case Bool(b) => Some(if b then "true" else "false")
    case Numeric(t) => Some(t)
    case Exact(t) => Some(t)
    case Str(s) => Some(QuoteLiteral(s))
    case Compound(j) => if k.Json? then Some(QuoteLiteral(j) + "::jsonb") else None
  }

  function DesiredDefault(f: Field): Option<string>
  {
    if f.default.Some? then SqlDefault(f.default.value, f.kind) else None
  }

  function ResolveOnDelete(f: Field): string
  {
    match f.onDelete
    case Some(Cascade) => "CASCADE"
    case Some(Restrict) => "RESTRICT"
    case Some(SetNull) => "SET NULL"
    case None => if f.required then "RESTRICT" else "SET NULL"
  }

  function DeleteRuleName(c: string): string
  {
    if c == "c" then "CASCADE" else if c == "n" then "SET NULL" else "RESTRICT"
  }

  /** The letter the catalog stores for a rule. */
  function DeleteRuleLetter(rule: string): string
  {
    if rule == "CASCADE" then "c" else if rule == "SET NULL" then "n" else "r"
  }

  predicate IsSystemField(name: string)
  {
    name == "id" || name == "created_at" || name == "updated_at"
  }

  /** The table an entity link points at; `None` for a core entity nobody knows. */
  function LinkTarget(schema: string, reference: string): Option<(string, string)>
  {
    if "core:" <= reference then
      if reference == "core:users" then Some(("rootcx_system", "users")) else None
    else Some((schema, reference))
  }

  // ---- The difference ----

  function Get(t: Table, name: string): Option<Column>
  {
    if name in t then Some(t[name]) else None
  }

  function TypeChange(f: Field, c: Column, pgType: string): seq<Change>
  {
    if c.pgType != NormalizePgType(pgType) then [AlterType(f.name, pgType)] else []
  }

  function NullChange(f: Field, c: Column): seq<Change>
  {
    if f.primaryKey then []
    else if f.required && !c.notNull then [SetNotNull(f.name)]
    else if !f.required && c.notNull then [DropNotNull(f.name)]
    else []
  }

  function DefaultChange(f: Field, c: Column): seq<Change>
  {
    match (c.default, DesiredDefault(f))
    case (None, Some(sql)) => [SetDefault(f.name, sql)]
    case (Some(_), None) => [DropDefault(f.name)]
    case (Some(current), Some(sql)) => if DefaultsMatch(current, sql) then [] else [SetDefault(f.name, sql)]
    case (None, None) => []
  }

  function FkChange(schema: string, table: string, f: Field, c: Column): seq<Change>
  {
    if f.kind.EntityLink? && c.fk.Some? && f.references.Some?
       && DeleteRuleName(c.fk.value.rule) != ResolveOnDelete(f)
       && LinkTarget(schema, f.references.value).Some?
    then
      var to := LinkTarget(schema, f.references.value).value;
      [ReplaceFk(f.name, c.fk.value.name, "fk_" + schema + "_" + table + "_" + f.name + "_" + to.1, to, ResolveOnDelete(f))]
    else []
  }

  datatype Place = Place(schema: string, table: string, pkTypes: map<string, string>)

  /** What one manifest field asks for, given the column of its name if there is one. */
  function FieldChanges(p: Place, f: Field, found: Option<Column>): seq<Change>
  {
    if IsSystemField(f.name) then []
    else
      var pgType := ResolvePgType(f, p.pkTypes);
      match found
      case None => [Add(f, pgType)]
      case Some(c) => TypeChange(f, c, pgType) + NullChange(f, c) + DefaultChange(f, c) + FkChange(p.schema, p.table, f, c)
  }

  function AllFieldChanges(p: Place, fields: seq<Field>, t: Table): seq<Change>
  {
    if fields == [] then [] else FieldChanges(p, fields[0], Get(t, fields[0].name)) + AllFieldChanges(p, fields[1..], t)
  }

  /** The field of a given name. */
  function FieldNamed(fields: seq<Field>, name: string): Option<Field>
  {
    if fields == [] then None
    else if fields[0].name == name then Some(fields[0])
    else FieldNamed(fields[1..], name)
  }

  function DropChange(fields: seq<Field>, name: string): seq<Change>
  {
    if !IsSystemField(name) && FieldNamed(fields, name).None? then [Drop(name)] else []
  }

  function AllDropChanges(fields: seq<Field>, order: seq<string>): seq<Change>
  {
    if order == [] then [] else DropChange(fields, order[0]) + AllDropChanges(fields, order[1..])
  }

  function Diff(p: Place, fields: seq<Field>, t: Table, order: seq<string>): seq<Change>
  {
    AllFieldChanges(p, fields, t) + AllDropChanges(fields, order)
  }

  ghost predicate Enumerates(order: seq<string>, t: Table)
  {
    && (forall n :: n in order <==> n in t)
    && (forall i, j | 0 <= i < j < |order| :: order[i] != order[j])
  }

  ghost predicate DistinctNames(fields: seq<Field>)
  {
    forall i, j | 0 <= i < j < |fields| :: fields[i].name != fields[j].name
  }

  /** PostgreSQL keeps constraint names unique within a table. */
  ghost predicate DistinctFks(t: Table)
  {
    forall m, n | m in t && n in t && m != n && t[m].fk.Some? && t[n].fk.Some? :: t[m].fk.value.name != t[n].fk.value.name
  }

  // ---- DDL in phases ----

  /** What one change contributes to one of the seven phases: drop constraints, alter types,
      add columns, nullability, defaults, add constraints, drop columns. */
  function Emit(c: Change, phase: nat): seq<Statement>
  {
    match c
    case Add(f, ty) =>
      if phase == 2 then [AddColumn(f.name, ty)]
      else if phase == 3 && f.required then [SetColumnNotNull(f.name)]
      else if phase == 4 && DesiredDefault(f).Some? then [SetColumnDefault(f.name, DesiredDefault(f).value)]
      else []
    case Drop(n) => if phase == 6 then [DropColumn(n)] else []
    case AlterType(n, ty) => if phase == 1 then [AlterColumnType(n, ty)] else []
    case SetNotNull(n) => if phase == 3 then [SetColumnNotNull(n)] else []
    case DropNotNull(n) => if phase == 3 then [DropColumnNotNull(n)] else []
    case SetDefault(n, sql) => if phase == 4 then [SetColumnDefault(n, sql)] else []
    case DropDefault(n) => if phase == 4 then [DropColumnDefault(n)] else []
    case ReplaceFk(n, oldName, newName, target, rule) =>
      if phase == 0 then [DropConstraint(oldName)]
      else if phase == 5 then [AddForeignKey(n, newName, target, rule)]
      else []
  }

  function Phase(cs: seq<Change>, phase: nat): seq<Statement>
  {
    if cs == [] then [] else Emit(cs[0], phase) + Phase(cs[1..], phase)
  }

  function Ddl(cs: seq<Change>): seq<Statement>
  {
    Phase(cs, 0) + Phase(cs, 1) + Phase(cs, 2) + Phase(cs, 3) + Phase(cs, 4) + Phase(cs, 5) + Phase(cs, 6)
  }

  // ---- What the statements do ----

  /** How the catalog prints a default back: the literal, and at most a cast after it. */
  datatype Catalog = Catalog(suffix: string -> string)
  {
    ghost predicate Valid()
    {
      forall d :: suffix(d) == "" || "::" <= suffix(d)
    }

    function Printed(d: string): string
    {
      d + suffix(d)
    }
  }

  function ApplyStatement(k: Catalog, t: Table, st: Statement): Table
  {
    match st
    case DropConstraint(name) =>
      map n | n in t :: if t[n].fk.Some? && t[n].fk.value.name == name then t[n].(fk := None) else t[n]
    case AlterColumnType(n, ty) => if n in t then t[n := t[n].(pgType := NormalizePgType(ty))] else t
    case AddColumn(n, ty) => if n in t then t else t[n := Column(NormalizePgType(ty), false, None, None)]
    case SetColumnNotNull(n) => if n in t then t[n := t[n].(notNull := true)] else t
    case DropColumnNotNull(n) => if n in t then t[n := t[n].(notNull := false)] else t
    case SetColumnDefault(n, sql) => if n in t then t[n := t[n].(default := Some(k.Printed(sql)))] else t
    case DropColumnDefault(n) => if n in t then t[n := t[n].(default := None)] else t
    case AddForeignKey(n, name, target, rule) =>
      if n in t then t[n := t[n].(fk := Some(Fk(name, DeleteRuleLetter(rule), target)))] else t
    case DropColumn(n) => t - {n}
  }

  function ApplyAll(k: Catalog, t: Table, sts: seq<Statement>): Table
    decreases |sts|
  {
    if sts == [] then t else ApplyAll(k, ApplyStatement(k, t, sts[0]), sts[1..])
  }

  // ---- Where reconciliation ends ----

  function TargetDefault(k: Catalog, f: Field, current: Option<string>): Option<string>
  {
    match DesiredDefault(f)
    case None => None
    case Some(sql) => if current.Some? && DefaultsMatch(current.value, sql) then current else Some(k.Printed(sql))
  }

  function TargetFk(p: Place, f: Field, c: Column): Option<Fk>
  {
    var to := if f.kind.EntityLink? && f.references.Some? then LinkTarget(p.schema, f.references.value) else None;
    if c.fk.None? || to.None? || DeleteRuleName(c.fk.value.rule) == ResolveOnDelete(f) then c.fk
    else Some(Fk("fk_" + p.schema + "_" + p.table + "_" + f.name + "_" + to.value.1, DeleteRuleLetter(ResolveOnDelete(f)), to.value))
  }

  /** The column a field should have after reconciliation, stated without any statement. */
  function TargetColumn(k: Catalog, p: Place, f: Field, found: Option<Column>): Column
  {
    var pgType := NormalizePgType(ResolvePgType(f, p.pkTypes));
    match found
    case None => Column(pgType, f.required, TargetDefault(k, f, None), None)
    case Some(c) =>
      Column(pgType, if f.primaryKey then c.notNull else f.required, TargetDefault(k, f, c.default), TargetFk(p, f, c))
  }

  /** What becomes of the column called `name`: system columns stay as they are, declared ones
      reach their target, the rest disappear. */
  function Reconciled(k: Catalog, p: Place, fields: seq<Field>, t: Table, name: string): Option<Column>
  {
    if IsSystemField(name) then Get(t, name)
    else
      match FieldNamed(fields, name)
      case Some(f) => Some(TargetColumn(k, p, f, Get(t, name)))
      case None => None
  }
}
