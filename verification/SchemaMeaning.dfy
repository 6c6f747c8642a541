/** What a sync of a table promises of each column, stated from the manifest and the table alone,
    without the difference, the statements or the functions that compute them. */
module SchemaMeaning {
  import opened Common
  import opened Schema
  import opened SchemaProofs
  import opened SchemaConvergence

  // ---- Types ----

  predicate IsLower(s: string, r: string)
  {
    |r| == |s| && forall i | 0 <= i < |s| :: if 'A' <= s[i] <= 'Z' then r[i] as int == s[i] as int + 32 else r[i] == s[i]
  }

  lemma {:induction false} LowerIs(s: string)
    ensures IsLower(s, Lower(s))
    decreases |s|
  {
    if s != "" { LowerIs(s[1..]); }
  }

  lemma LowerLiteral(s: string, r: string)
    requires IsLower(s, r)
    ensures Lower(s) == r
  {
    LowerIs(s);
  }

  /** The catalog's name for the type of a field that is no link. */
  ghost predicate PlainType(k: FieldType, pgType: string)
  {
    match k
    case Text => pgType == "text"
    case File => pgType == "text"
    case Number => pgType == "double precision"
    case Decimal(None) => pgType == "numeric"
    case Decimal(Some(size)) =>
      exists a, b :: Spells(a, size.0, false) && Spells(b, size.1, false) && pgType == "numeric(" + a + "," + b + ")"
    case Boolean => pgType == "boolean"
    case Date => pgType == "date"
    case Timestamp => pgType == "timestamp with time zone"
    case Json => pgType == "jsonb"
    case Uuid => pgType == "uuid"
    case EntityLink => pgType == "uuid"
    case TextArray => pgType == "text[]"
    case NumberArray => pgType == "double precision[]"
  }

  /** A link has the type of the key it points at, if that is known. */
  ghost predicate TypeMeans(p: Place, f: Field, pgType: string)
  {
    if f.kind.EntityLink? && f.references.Some? && f.references.value in p.pkTypes then
      var keyType := p.pkTypes[f.references.value];
      if keyType == "TIMESTAMPTZ" then pgType == "timestamp with time zone" else IsLower(keyType, pgType)
    else PlainType(f.kind, pgType)
  }

  lemma LowerJoins(a: string, b: string)
    ensures Lower(a + b) == Lower(a) + Lower(b)
  {
    LowerIs(a);
    LowerIs(b);
    LowerIs(a + b);
  }

  lemma DigitsStayLower(n: nat)
    ensures Lower(NumberText(n, false)) == NumberText(n, false)
  {
    NumberTextSpells(n, false);
    LowerLiteral(NumberText(n, false), NumberText(n, false));
  }

  lemma DecimalIsLowered(a: string, b: string)
    requires Lower(a) == a && Lower(b) == b
    ensures Lower("NUMERIC(" + a + "," + b + ")") == "numeric(" + a + "," + b + ")"
  {
    LowerLiteral("NUMERIC(", "numeric(");
    LowerLiteral(",", ",");
    LowerLiteral(")", ")");
    LowerJoins("NUMERIC(", a);
    LowerJoins("NUMERIC(" + a, ",");
    LowerJoins("NUMERIC(" + a + ",", b);
    LowerJoins("NUMERIC(" + a + "," + b, ")");
  }

  lemma DecimalType(size: (nat, nat))
    ensures PlainType(Decimal(Some(size)), NormalizePgType(PostgresType(Decimal(Some(size)))))
  {
    var a, b := NumberText(size.0, false), NumberText(size.1, false);
    NumberTextSpells(size.0, false);
    NumberTextSpells(size.1, false);
    DigitsStayLower(size.0);
    DigitsStayLower(size.1);
    DecimalIsLowered(a, b);
    assert ("NUMERIC(" + a + "," + b + ")")[0] == 'N' && "TIMESTAMPTZ"[0] == 'T';
  }

  lemma Reported(t: string, r: string)
    requires IsLower(t, r) && |t| != 11
    ensures NormalizePgType(t) == r
  {
    LowerLiteral(t, r);
  }

  lemma ScalarTypeMeans(k: FieldType)
    requires k.Number? || k.Boolean? || k.Date? || k.Json? || k == Decimal(None)
    ensures PlainType(k, NormalizePgType(PostgresType(k)))
  {
    match k
    case Decimal(_) => Reported("NUMERIC", "numeric");
    case Number => Reported("DOUBLE PRECISION", "double precision");
    case Boolean => Reported("BOOLEAN", "boolean");
    case Date => Reported("DATE", "date");
    case Json => Reported("JSONB", "jsonb");
  }

  lemma NumberArrayMeans()
    ensures PlainType(NumberArray, NormalizePgType(PostgresType(NumberArray)))
  {
    Reported("DOUBLE PRECISION[]", "double precision[]");
  }

  lemma TextArrayMeans()
    ensures PlainType(TextArray, NormalizePgType(PostgresType(TextArray)))
  {
    Reported("TEXT[]", "text[]");
  }

  lemma PlainTypeMeans(k: FieldType)
    ensures PlainType(k, NormalizePgType(PostgresType(k)))
  {
    match k
    case Decimal(Some(size)) => DecimalType(size);
    case NumberArray => NumberArrayMeans();
    case TextArray => TextArrayMeans();
    case Text => Reported("TEXT", "text");
    case File => Reported("TEXT", "text");
    case Uuid => Reported("UUID", "uuid");
    case EntityLink => Reported("UUID", "uuid");
    case Timestamp =>
    case _ => ScalarTypeMeans(k);
  }

  lemma TypeIsMeant(p: Place, f: Field)
    ensures TypeMeans(p, f, NormalizePgType(ResolvePgType(f, p.pkTypes)))
  {
    if f.kind.EntityLink? && f.references.Some? && f.references.value in p.pkTypes {
      LowerIs(p.pkTypes[f.references.value]);
    } else {
      PlainTypeMeans(f.kind);
    }
  }

  // ---- Defaults ----

  /** Where the first cast begins, or the end. */
  predicate FirstCast(s: string, i: nat)
  {
    i <= |s| && (i < |s| ==> CastAt(s, i)) && forall j: nat | j < i :: !CastAt(s, j)
  }

  lemma {:induction false} BeforeCastIs(s: string)
    ensures BeforeCast(s) <= s && FirstCast(s, |BeforeCast(s)|)
    decreases |s|
  {
    if |s| >= 2 && !(s[0] == ':' && s[1] == ':') {
      var rest := s[1..];
      BeforeCastIs(rest);
      forall j: nat | j < |BeforeCast(s)| ensures !CastAt(s, j) {
        if j > 0 { assert CastAt(s, j) == CastAt(rest, j - 1); }
      }
    }
  }

  predicate Blank(s: string)
  {
    forall i | 0 <= i < |s| :: s[i] in " \n\t\r"
  }

  /** What is left between the blanks at both ends. */
  ghost predicate Core(s: string, m: string)
  {
    && (exists l, r :: Blank(l) && Blank(r) && s == l + m + r)
    && (m != "" ==> m[0] !in " \n\t\r" && m[|m| - 1] !in " \n\t\r")
  }

  lemma {:induction false} TrimLeftIs(s: string) returns (l: string)
    ensures Blank(l) && s == l + TrimLeft(s) && (TrimLeft(s) != "" ==> !Space(TrimLeft(s)[0]))
    decreases |s|
  {
    l := "";
    if s != "" && Space(s[0]) {
      var rest := TrimLeftIs(s[1..]);
      l := [s[0]] + rest;
    }
  }

  lemma {:induction false} TrimRightIs(s: string) returns (r: string)
    ensures Blank(r) && s == TrimRight(s) + r
    ensures TrimRight(s) != "" ==> !Space(TrimRight(s)[|TrimRight(s)| - 1]) && TrimRight(s)[0] == s[0]
    decreases |s|
  {
    r := "";
    if s != "" && Space(s[|s| - 1]) {
      var rest := TrimRightIs(s[..|s| - 1]);
      r := rest + [s[|s| - 1]];
    }
  }

  lemma TrimIs(s: string)
    ensures Core(s, Trim(s))
  {
    var l := TrimLeftIs(s);
    var r := TrimRightIs(TrimLeft(s));
    assert s == l + Trim(s) + r;
  }

  lemma CoreBounds(s: string, l: string, m: string, r: string)
    requires s == l + m + r && Blank(l) && Blank(r)
    ensures forall i | 0 <= i < |s| && s[i] !in " \n\t\r" :: |l| <= i < |l| + |m|
    ensures m == s[|l|..|l| + |m|] && (m != "" ==> s[|l|] == m[0] && s[|l| + |m| - 1] == m[|m| - 1])
  {
  }

  /** A text has only one core. */
  lemma CoreIsUnique(s: string, m: string, m': string)
    requires Core(s, m) && Core(s, m')
    ensures m == m'
  {
    var l, r :| Blank(l) && Blank(r) && s == l + m + r;
    var l', r' :| Blank(l') && Blank(r') && s == l' + m' + r';
    CoreBounds(s, l, m, r);
    CoreBounds(s, l', m', r');
  }

  /** The catalog shows the wanted default: up to its first cast, blanks at the ends aside. */
  ghost predicate Shows(shown: string, sql: string)
  {
    exists i: nat, m :: FirstCast(shown, i) && Core(shown[..i], m) && Core(sql, m)
  }

  lemma FirstCastIsUnique(s: string, i: nat, j: nat)
    requires FirstCast(s, i) && FirstCast(s, j)
    ensures i == j
  {
  }

  lemma DefaultsMatchIff(shown: string, sql: string)
    ensures DefaultsMatch(shown, sql) <==> Shows(shown, sql)
  {
    var before := BeforeCast(shown);
    BeforeCastIs(shown);
    assert before == shown[..|before|];
    TrimIs(before);
    TrimIs(sql);
    if Shows(shown, sql) {
      var i: nat, m :| FirstCast(shown, i) && Core(shown[..i], m) && Core(sql, m);
      FirstCastIsUnique(shown, i, |before|);
      CoreIsUnique(before, m, Trim(before));
      CoreIsUnique(sql, m, Trim(sql));
    }
  }

  /** A quoted literal read back: a doubled quote stands for one, a single one ends it. */
  function Unquoted(s: string): Option<string>
  {
    if s == "" then None
    else if s[0] != '\'' then
      var rest := Unquoted(s[1..]);
      if rest.Some? then Some([s[0]] + rest.value) else None
    else if |s| == 1 then Some("")
    else if s[1] == '\'' then
      var rest := Unquoted(s[2..]);
      if rest.Some? then Some("'" + rest.value) else None
    else None
  }

  /** A text that PostgreSQL reads as the string. */
  predicate Literal(sql: string, s: string)
  {
    sql != "" && sql[0] == '\'' && Unquoted(sql[1..]) == Some(s)
  }

  lemma {:induction false} QuoteBodyReadsBack(s: string)
    ensures Unquoted(QuoteBody(s) + "'") == Some(s)
    decreases |s|
  {
    if s != "" {
      QuoteBodyReadsBack(s[1..]);
      var rest := QuoteBody(s[1..]) + "'";
      var all := QuoteBody(s) + "'";
      if s[0] == '\'' {
        assert all == "''" + rest && all[2..] == rest;
      } else {
        assert all == [s[0]] + rest && all[1..] == rest;
      }
      assert s == [s[0]] + s[1..];
    }
  }

  lemma QuoteLiteralIs(s: string)
    ensures Literal(QuoteLiteral(s), s)
  {
    QuoteBodyReadsBack(s);
    assert QuoteLiteral(s)[1..] == QuoteBody(s) + "'";
  }

  /** The SQL text of a manifest default: the value itself, a quoted string, or JSON with its cast. */
  ghost predicate DefaultText(d: Default, sql: string)
  {
    match d
    case Null => false
    case Bool(b) => sql == if b then "true" else "false"
    case Numeric(t) => sql == t
    case Exact(t) => sql == t
    case Str(s) => Literal(sql, s)
    case Compound(j) => exists q :: Literal(q, j) && sql == q + "::jsonb"
  }

  /** A field asks for a default unless it declares none, null, or an object or array for a type that
      is not JSON. */
  predicate AsksDefault(f: Field)
  {
    f.default.Some? && f.default.value != Null && (f.default.value.Compound? ==> f.kind.Json?)
  }

  /** None if none is asked for; what was there if the catalog already shows the wanted one; and
      otherwise the wanted one, as the catalog prints it. */
  ghost predicate DefaultMeans(k: Catalog, f: Field, was: Option<string>, now: Option<string>)
  {
    if !AsksDefault(f) then now == None
    else
      exists sql :: DefaultText(f.default.value, sql) &&
        now == if was.Some? && Shows(was.value, sql) then was else Some(sql + k.suffix(sql))
  }

  lemma DefaultIsMeant(k: Catalog, f: Field, was: Option<string>)
    ensures DefaultMeans(k, f, was, TargetDefault(k, f, was))
  {
    if AsksDefault(f) {
      var sql := DesiredDefault(f).value;
      match f.default.value {
        case Str(s) => QuoteLiteralIs(s);
        case Compound(j) => QuoteLiteralIs(j);
        case _ =>
      }
      assert DefaultText(f.default.value, sql);
      if was.Some? { DefaultsMatchIff(was.value, sql); }
    }
  }

  // ---- Foreign keys ----

  /** The rule a link declares, or the one that goes with being required or not. */
  predicate RuleMeans(f: Field, letter: string)
  {
    match f.onDelete
    case Some(Cascade) => letter == "c"
    case Some(SetNull) => letter == "n"
    case Some(Restrict) => letter != "c" && letter != "n"
    case None => if f.required then letter != "c" && letter != "n" else letter == "n"
  }

  /** The table a reference names: `core:users` in the system schema, no other core entity, and
      anything else in the app's own. */
  predicate PointsAt(p: Place, f: Field, to: (string, string))
  {
    f.kind.EntityLink? && f.references.Some? &&
    if "core:" <= f.references.value then f.references.value == "core:users" && to == ("rootcx_system", "users")
    else to == (p.schema, f.references.value)
  }

  /** A link that had a key has one with its rule: the same if that had it already, or a new one to
      the table it names, with a name of its own.  Any other column keeps what it had. */
  ghost predicate FkMeans(p: Place, f: Field, was: Option<Fk>, now: Option<Fk>)
  {
    if was.Some? && exists to :: PointsAt(p, f, to) then
      && now.Some? && RuleMeans(f, now.value.rule)
      && (RuleMeans(f, was.value.rule) ==> now == was)
      && (!RuleMeans(f, was.value.rule) ==>
            && PointsAt(p, f, now.value.target)
            && now.value.name == "fk_" + p.schema + "_" + p.table + "_" + f.name + "_" + now.value.target.1)
    else now == was
  }

  lemma RuleNames()
    ensures "CASCADE" != "RESTRICT" && "CASCADE" != "SET NULL" && "RESTRICT" != "SET NULL"
    ensures "c" != "n" && "r" != "c" && "r" != "n"
  {
    assert "CASCADE"[0] == 'C' && "RESTRICT"[0] == 'R' && "SET NULL"[0] == 'S';
    assert "c"[0] == 'c' && "n"[0] == 'n' && "r"[0] == 'r';
  }

  lemma RuleIsMeant(f: Field, letter: string)
    ensures DeleteRuleName(letter) == ResolveOnDelete(f) <==> RuleMeans(f, letter)
    ensures RuleMeans(f, DeleteRuleLetter(ResolveOnDelete(f)))
  {
    RuleNames();
  }

  lemma FkIsMeant(p: Place, f: Field, c: Column)
    ensures FkMeans(p, f, c.fk, TargetFk(p, f, c))
  {
    if f.kind.EntityLink? && f.references.Some? {
      var to := LinkTarget(p.schema, f.references.value);
      assert to.Some? ==> PointsAt(p, f, to.value);
    }
    if c.fk.Some? { RuleIsMeant(f, c.fk.value.rule); }
  }

  // ---- The whole column, the whole table ----

  /** What becomes of the column of a declared field. */
  ghost predicate ColumnMeans(k: Catalog, p: Place, f: Field, was: Option<Column>, now: Column)
  {
    && TypeMeans(p, f, now.pgType)
    && now.notNull == (if was.Some? && f.primaryKey then was.value.notNull else f.required)
    && DefaultMeans(k, f, if was.Some? then was.value.default else None, now.default)
    && (was.Some? ==> FkMeans(p, f, was.value.fk, now.fk)) && (was.None? ==> now.fk == None)
  }

  lemma TargetIsMeant(k: Catalog, p: Place, f: Field, was: Option<Column>)
    ensures ColumnMeans(k, p, f, was, TargetColumn(k, p, f, was))
  {
    TypeIsMeant(p, f);
    DefaultIsMeant(k, f, if was.Some? then was.value.default else None);
    if was.Some? { FkIsMeant(p, f, was.value); }
  }

  /** The three system columns are what they were, every declared column is what its field asks for,
      and there is no other. */
  ghost predicate TableMeans(k: Catalog, p: Place, fields: seq<Field>, t: Table, t': Table)
  {
    && (forall n | n in ["id", "created_at", "updated_at"] :: Get(t', n) == Get(t, n))
    && (forall f | f in fields && f.name !in ["id", "created_at", "updated_at"] ::
          f.name in t' && ColumnMeans(k, p, f, Get(t, f.name), t'[f.name]))
    && (forall n | n in t' :: n in ["id", "created_at", "updated_at"] || exists f :: f in fields && f.name == n)
  }

  /** For every table, manifest and catalog order, applying the DDL of the difference leaves such a
      table. */
  lemma SyncMeans(k: Catalog, p: Place, fields: seq<Field>, t: Table, order: seq<string>)
    requires DistinctNames(fields) && DistinctFks(t) && Enumerates(order, t)
    ensures TableMeans(k, p, fields, t, ApplyAll(k, t, Ddl(Diff(p, fields, t, order))))
  {
    var t' := ApplyAll(k, t, Ddl(Diff(p, fields, t, order)));
    forall n ensures Get(t', n) == Reconciled(k, p, fields, t, n) { ReconcileMeetsTarget(k, p, fields, t, order, n); }
    ReconciledMeans(k, p, fields, t, t');
  }

  lemma ReconciledMeans(k: Catalog, p: Place, fields: seq<Field>, t: Table, t': Table)
    requires DistinctNames(fields) && forall n :: Get(t', n) == Reconciled(k, p, fields, t, n)
    ensures TableMeans(k, p, fields, t, t')
  {
    forall f | f in fields && f.name !in ["id", "created_at", "updated_at"]
      ensures f.name in t' && ColumnMeans(k, p, f, Get(t, f.name), t'[f.name])
    {
      NamedField(fields, f);
      assert Get(t', f.name) == Reconciled(k, p, fields, t, f.name);
      TargetIsMeant(k, p, f, Get(t, f.name));
    }
    forall n | n in t' && n !in ["id", "created_at", "updated_at"] ensures exists f :: f in fields && f.name == n {
      assert Get(t', n) == Reconciled(k, p, fields, t, n);
      NamedIsThere(fields, n);
    }
  }
}
