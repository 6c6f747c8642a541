/** The main results about schema reconciliation, and the loops that compute it. */
module SchemaConvergence {
  import opened Common
  import opened Schema
  import opened SchemaProofs

  // ---- Reconciliation reaches its target ----

  lemma SevenOwn(k: Catalog, n: string, c: Option<Column>, a: seq<Change>, own: seq<Change>, b: seq<Change>, fk: Option<Fk>)
    requires AllSpare(a, n, fk) && AllSpare(b, n, fk) && Undisturbed(c, fk, 0)
    requires Undisturbed(ColRun(k, n, c, Phase(own, 0)), fk, 0)
    ensures SevenPhases(k, n, c, a + own + b) == SevenPhases(k, n, c, own)
  {
    OnlyOwnChanges(k, n, c, a, own, b, 0, fk);
    var c0 := ColRun(k, n, c, Phase(own, 0));
    OnlyOwnChanges(k, n, c0, a, own, b, 1, fk);
    var c1 := ColRun(k, n, c0, Phase(own, 1));
    OnlyOwnChanges(k, n, c1, a, own, b, 2, fk);
    var c2 := ColRun(k, n, c1, Phase(own, 2));
    OnlyOwnChanges(k, n, c2, a, own, b, 3, fk);
    var c3 := ColRun(k, n, c2, Phase(own, 3));
    OnlyOwnChanges(k, n, c3, a, own, b, 4, fk);
    var c4 := ColRun(k, n, c3, Phase(own, 4));
    OnlyOwnChanges(k, n, c4, a, own, b, 5, fk);
    var c5 := ColRun(k, n, c4, Phase(own, 5));
    OnlyOwnChanges(k, n, c5, a, own, b, 6, fk);
  }

  lemma NothingPhases(k: Catalog, n: string, c: Option<Column>)
    ensures SevenPhases(k, n, c, []) == c && ColRun(k, n, c, Phase([], 0)) == c
  {
  }

  lemma DroppedColumn(k: Catalog, n: string, c: Option<Column>)
    ensures SevenPhases(k, n, c, [Drop(n)]) == None
    ensures ColRun(k, n, c, Phase([Drop(n)], 0)) == c
  {
    var cs := [Drop(n)];
    SmallPhase(cs, 0); SmallPhase(cs, 1); SmallPhase(cs, 2); SmallPhase(cs, 3); SmallPhase(cs, 4); SmallPhase(cs, 5); SmallPhase(cs, 6);
    ShortRun(k, n, c, Phase(cs, 6));
  }

  function FkOf(t: Table, n: string): Option<Fk>
  {
    if n in t then t[n].fk else None
  }

  lemma UntouchedCase(k: Catalog, p: Place, fields: seq<Field>, t: Table, order: seq<string>, n: string)
    requires DistinctFks(t) && Enumerates(order, t)
    requires IsSystemField(n) || (FieldNamed(fields, n).None? && n !in t)
    ensures SevenPhases(k, n, Get(t, n), Diff(p, fields, t, order)) == Get(t, n)
  {
    var c, fk, a, b := Get(t, n), FkOf(t, n), AllFieldChanges(p, fields, t), AllDropChanges(fields, order);
    assert Diff(p, fields, t, order) == a + [] + b;
    assert SevenPhases(k, n, c, a + [] + b) == c by {
      FieldChangesSpare(p, fields, t, n);
      DropChangesSpare(fields, order, n, fk);
      NothingPhases(k, n, c);
      SevenOwn(k, n, c, a, [], b, fk);
    }
  }

  lemma DeclaredCase(k: Catalog, p: Place, fields: seq<Field>, t: Table, order: seq<string>, n: string)
    requires DistinctNames(fields) && DistinctFks(t)
    requires FieldNamed(fields, n).Some? && !IsSystemField(n)
    ensures SevenPhases(k, n, Get(t, n), Diff(p, fields, t, order)) ==
            Some(TargetColumn(k, p, FieldNamed(fields, n).value, Get(t, n)))
  {
    var c, fk, drops := Get(t, n), FkOf(t, n), AllDropChanges(fields, order);
    var a, b := SplitAtField(p, fields, t, n);
    var f := FieldNamed(fields, n).value;
    var own, rest := FieldChanges(p, f, c), b + drops;
    assert Diff(p, fields, t, order) == a + own + rest by { Regroup(a + own, b, drops); }
    assert AllSpare(rest, n, fk) by {
      DropChangesSpare(fields, order, n, fk);
      SpareBoth(b, drops, n, fk);
    }
    OwnAmongSpared(k, p, f, c, a, rest, fk);
  }

  lemma OwnAmongSpared(k: Catalog, p: Place, f: Field, c: Option<Column>, a: seq<Change>, b: seq<Change>, fk: Option<Fk>)
    requires !IsSystemField(f.name) && fk == (if c.Some? then c.value.fk else None)
    requires AllSpare(a, f.name, fk) && AllSpare(b, f.name, fk)
    ensures SevenPhases(k, f.name, c, a + FieldChanges(p, f, c) + b) == Some(TargetColumn(k, p, f, c))
  {
    var own := FieldChanges(p, f, c);
    OwnChangesReachTarget(k, p, f, c);
    SevenOwn(k, f.name, c, a, own, b, fk);
  }

  lemma DroppedCase(k: Catalog, p: Place, fields: seq<Field>, t: Table, order: seq<string>, n: string)
    requires DistinctFks(t) && Enumerates(order, t)
    requires FieldNamed(fields, n).None? && !IsSystemField(n) && n in t
    ensures SevenPhases(k, n, Get(t, n), Diff(p, fields, t, order)) == None
  {
    var c, fk, fs := Get(t, n), FkOf(t, n), AllFieldChanges(p, fields, t);
    var a, b := SplitAtDrop(fields, order, n, fk);
    assert AllSpare(fs + a, n, fk) by {
      FieldChangesSpare(p, fields, t, n);
      SpareBoth(fs, a, n, fk);
    }
    assert Diff(p, fields, t, order) == fs + a + [Drop(n)] + b by { Reassociate(fs, a, [Drop(n)], b); }
    DroppedAmongSpared(k, n, c, fs + a, b, fk);
  }

  lemma DroppedAmongSpared(k: Catalog, n: string, c: Option<Column>, a: seq<Change>, b: seq<Change>, fk: Option<Fk>)
    requires AllSpare(a, n, fk) && AllSpare(b, n, fk) && Undisturbed(c, fk, 0)
    ensures SevenPhases(k, n, c, a + [Drop(n)] + b) == None
  {
    DroppedColumn(k, n, c);
    SevenOwn(k, n, c, a, [Drop(n)], b, fk);
  }

  /** Applying the generated DDL takes every column exactly where reconciliation should take it,
      whatever the table was and in whatever order columns and fields were listed. */
  lemma ReconcileMeetsTarget(k: Catalog, p: Place, fields: seq<Field>, t: Table, order: seq<string>, n: string)
    requires DistinctNames(fields) && DistinctFks(t) && Enumerates(order, t)
    ensures Get(ApplyAll(k, t, Ddl(Diff(p, fields, t, order))), n) == Reconciled(k, p, fields, t, n)
  {
    var cs := Diff(p, fields, t, order);
    RunIsLocal(k, t, Ddl(cs), n);
    DdlIsSevenPhases(k, n, Get(t, n), cs);
    if IsSystemField(n) || (FieldNamed(fields, n).None? && n !in t) {
      UntouchedCase(k, p, fields, t, order, n);
    } else if FieldNamed(fields, n).Some? {
      DeclaredCase(k, p, fields, t, order, n);
    } else {
      DroppedCase(k, p, fields, t, order, n);
    }
  }

  /** The three system columns are never touched, even when the manifest names them. */
  lemma SystemColumnsUntouched(k: Catalog, p: Place, fields: seq<Field>, t: Table, order: seq<string>)
    requires DistinctNames(fields) && DistinctFks(t) && Enumerates(order, t)
    ensures var t' := ApplyAll(k, t, Ddl(Diff(p, fields, t, order)));
            forall n | n in ["id", "created_at", "updated_at"] :: Get(t', n) == Get(t, n)
  {
    forall n | n in ["id", "created_at", "updated_at"]
      ensures Get(ApplyAll(k, t, Ddl(Diff(p, fields, t, order))), n) == Get(t, n)
    {
      ReconcileMeetsTarget(k, p, fields, t, order, n);
    }
  }

  // ---- Names of foreign keys ----

  /** The name of the foreign key a column will have, if it will have one. */
  function FkNameAfter(p: Place, fields: seq<Field>, t: Table, n: string): Option<string>
  {
    if n !in t then None
    else
      var fk := if IsSystemField(n) then t[n].fk else match FieldNamed(fields, n) case None => None case Some(f) => TargetFk(p, f, t[n]);
      if fk.Some? then Some(fk.value.name) else None
  }

  ghost predicate NamesApart(p: Place, fields: seq<Field>, t: Table)
  {
    forall m, n | m in t && n in t && m != n && FkNameAfter(p, fields, t, m).Some? :: FkNameAfter(p, fields, t, m) != FkNameAfter(p, fields, t, n)
  }

  lemma FkNameIsPlanned(k: Catalog, p: Place, fields: seq<Field>, t: Table, order: seq<string>, n: string)
    requires DistinctNames(fields) && DistinctFks(t) && Enumerates(order, t)
    ensures var c := Get(ApplyAll(k, t, Ddl(Diff(p, fields, t, order))), n);
            FkNameAfter(p, fields, t, n) == if c.Some? && c.value.fk.Some? then Some(c.value.fk.value.name) else None
  {
    ReconcileMeetsTarget(k, p, fields, t, order, n);
  }

  /** Constraint names are still unique after a sync exactly when the planned ones are apart. */
  lemma FksStayDistinctIff(k: Catalog, p: Place, fields: seq<Field>, t: Table, order: seq<string>)
    requires DistinctNames(fields) && DistinctFks(t) && Enumerates(order, t)
    ensures DistinctFks(ApplyAll(k, t, Ddl(Diff(p, fields, t, order)))) <==> NamesApart(p, fields, t)
  {
    var t' := ApplyAll(k, t, Ddl(Diff(p, fields, t, order)));
    forall n ensures FkNameAfter(p, fields, t, n) == if n in t' && t'[n].fk.Some? then Some(t'[n].fk.value.name) else None {
      FkNameIsPlanned(k, p, fields, t, order, n);
      assert Get(t', n).Some? <==> n in t';
    }
    if NamesApart(p, fields, t) {
      forall m, n | m in t' && n in t' && m != n && t'[m].fk.Some? && t'[n].fk.Some? ensures t'[m].fk.value.name != t'[n].fk.value.name {
        assert FkNameAfter(p, fields, t, m) != FkNameAfter(p, fields, t, n);
      }
    } else {
      var m, n :| m in t && n in t && m != n && FkNameAfter(p, fields, t, m).Some? && FkNameAfter(p, fields, t, m) == FkNameAfter(p, fields, t, n);
      assert m in t' && n in t' && t'[m].fk.value.name == t'[n].fk.value.name;
    }
  }

  function Link(name: string, target: string): Field
  {
    Field(name, EntityLink, false, false, None, Some(target), Some(Cascade))
  }

  function LinkedColumn(fkName: string): Column
  {
    Column("uuid", false, None, Some(Fk(fkName, "r", ("app", "old"))))
  }

  /** They need not be: the column `owner` to `team_x` and the column `owner_team` to `x` are given
      one name. */
  lemma TwoLinksOneName(schema: string, table: string)
    ensures var p := Place(schema, table, map[]);
            var fields := [Link("owner", "team_x"), Link("owner_team", "x")];
            var t := map["owner" := LinkedColumn("a"), "owner_team" := LinkedColumn("b")];
            DistinctNames(fields) && DistinctFks(t) && !NamesApart(p, fields, t)
  {
    var p := Place(schema, table, map[]);
    var fields := [Link("owner", "team_x"), Link("owner_team", "x")];
    var t := map["owner" := LinkedColumn("a"), "owner_team" := LinkedColumn("b")];
    assert "a"[0] != "b"[0] && |"owner"| != |"owner_team"|;
    assert !IsSystemField("owner") && !IsSystemField("owner_team") by {
      assert |"owner"| != |"id"| && |"owner"| != |"created_at"| && "owner_team"[0] != "created_at"[0] && "owner_team"[0] != "updated_at"[0];
    }
    assert FieldNamed(fields, "owner") == Some(fields[0]);
    assert FieldNamed(fields[1..], "owner_team") == Some(fields[1]);
    assert "team_x"[0] != "core:"[0] && |"x"| < |"core:"|;
    LinkIsReplaced(p, "owner", "team_x", "a");
    LinkIsReplaced(p, "owner_team", "x", "b");
    OneName("fk_" + schema + "_" + table + "_");
    assert FkNameAfter(p, fields, t, "owner") == FkNameAfter(p, fields, t, "owner_team");
  }

  lemma LinkIsReplaced(p: Place, name: string, target: string, fkName: string)
    requires !("core:" <= target)
    ensures TargetFk(p, Link(name, target), LinkedColumn(fkName)) ==
            Some(Fk("fk_" + p.schema + "_" + p.table + "_" + name + "_" + target, "c", (p.schema, target)))
  {
    assert "r"[0] != "c"[0] && "r"[0] != "n"[0] && "CASCADE"[0] != "RESTRICT"[0];
    assert DeleteRuleName("r") == "RESTRICT" && ResolveOnDelete(Link(name, target)) == "CASCADE";
  }

  lemma OneName(prefix: string)
    ensures prefix + "owner" + "_" + "team_x" == prefix + "owner_team" + "_" + "x"
  {
    assert "owner" + "_" + "team_x" == "owner_team" + "_" + "x";
    assert prefix + "owner" + "_" + "team_x" == prefix + ("owner" + "_" + "team_x");
    assert prefix + "owner_team" + "_" + "x" == prefix + ("owner_team" + "_" + "x");
  }

  // ---- The order of manifest fields does not matter ----

  lemma NamedField(fields: seq<Field>, f: Field)
    requires DistinctNames(fields) && f in fields
    ensures FieldNamed(fields, f.name) == Some(f)
  {
    NamedIsThere(fields, f.name);
    var i :| 0 <= i < |fields| && fields[i].name == f.name && fields[i] == FieldNamed(fields, f.name).value;
    var j :| 0 <= j < |fields| && fields[j] == f;
  }

  lemma SameNamedField(fields: seq<Field>, fields': seq<Field>, n: string)
    requires DistinctNames(fields) && DistinctNames(fields')
    requires forall f :: f in fields <==> f in fields'
    ensures FieldNamed(fields, n) == FieldNamed(fields', n)
  {
    NamedIsThere(fields, n);
    NamedIsThere(fields', n);
    if FieldNamed(fields, n).Some? {
      NamedField(fields', FieldNamed(fields, n).value);
    } else if FieldNamed(fields', n).Some? {
      NamedField(fields, FieldNamed(fields', n).value);
    }
  }

  /** Two manifests that list the same fields in different orders produce the same table. */
  lemma FieldOrderDoesNotMatter(k: Catalog, p: Place, fields: seq<Field>, fields': seq<Field>, t: Table, order: seq<string>, order': seq<string>)
    requires DistinctNames(fields) && DistinctNames(fields') && DistinctFks(t)
    requires forall f :: f in fields <==> f in fields'
    requires Enumerates(order, t) && Enumerates(order', t)
    ensures ApplyAll(k, t, Ddl(Diff(p, fields, t, order))) == ApplyAll(k, t, Ddl(Diff(p, fields', t, order')))
  {
    var u, u' := ApplyAll(k, t, Ddl(Diff(p, fields, t, order))), ApplyAll(k, t, Ddl(Diff(p, fields', t, order')));
    forall n ensures Get(u, n) == Get(u', n) {
      ReconcileMeetsTarget(k, p, fields, t, order, n);
      ReconcileMeetsTarget(k, p, fields', t, order', n);
      SameNamedField(fields, fields', n);
    }
    SameTable(u, u');
  }

  lemma SameTable(u: Table, u': Table)
    requires forall n :: Get(u, n) == Get(u', n)
    ensures u == u'
  {
    forall n ensures n in u <==> n in u' {
      assert Get(u, n) == Get(u', n);
    }
    forall n | n in u ensures u[n] == u'[n] {
      assert Get(u, n) == Get(u', n);
    }
  }

  // ---- Defaults, as the catalog prints them back ----

  predicate CastAt(s: string, i: nat)
  {
    i + 1 < |s| && s[i] == ':' && s[i + 1] == ':'
  }

  lemma {:induction false} HasCastSomewhere(s: string)
    ensures HasCast(s) <==> exists i: nat :: CastAt(s, i)
    decreases |s|
  {
    if |s| >= 2 {
      HasCastSomewhere(s[1..]);
      if HasCast(s) {
        if s[0] == ':' && s[1] == ':' {
          assert CastAt(s, 0);
        } else {
          var i: nat :| CastAt(s[1..], i);
          assert CastAt(s, i + 1);
        }
      }
      if i: nat :| CastAt(s, i) {
        if i > 0 { assert CastAt(s[1..], i - 1); }
      }
    }
  }

  lemma {:induction false} BeforeCastHasNone(s: string)
    ensures !HasCast(BeforeCast(s))
    ensures BeforeCast(s) <= s
    decreases |s|
  {
    if |s| >= 2 && !(s[0] == ':' && s[1] == ':') {
      BeforeCastHasNone(s[1..]);
      var b := BeforeCast(s[1..]);
      assert BeforeCast(s)[1..] == b;
      if |b| > 0 { assert b[0] == s[1..][0]; }
    }
  }

  lemma {:induction false} BeforeSuffix(d: string, suffix: string)
    requires !HasCast(d)
    requires suffix == "" || ("::" <= suffix && (d != "" ==> d[|d| - 1] != ':'))
    ensures BeforeCast(d + suffix) == d
    decreases |d|
  {
    var s := d + suffix;
    if d == "" {
      assert s == suffix;
    } else if |s| >= 2 {
      assert s[1..] == d[1..] + suffix;
      if |d| == 1 {
        assert s[0] == d[0];
      } else {
        assert d[1..][|d[1..]| - 1] == d[|d| - 1];
      }
      BeforeSuffix(d[1..], suffix);
      assert [d[0]] + d[1..] == d;
    }
  }

  lemma {:induction false} TrimLeftKeepsCast(s: string)
    ensures HasCast(TrimLeft(s)) <==> HasCast(s)
    decreases |s|
  {
    if s != "" && Space(s[0]) {
      TrimLeftKeepsCast(s[1..]);
    }
  }

  lemma {:induction false} TrimRightKeepsCast(s: string)
    ensures HasCast(TrimRight(s)) <==> HasCast(s)
    decreases |s|
  {
    if s != "" && Space(s[|s| - 1]) {
      var b := s[..|s| - 1];
      TrimRightKeepsCast(b);
      HasCastSomewhere(s);
      HasCastSomewhere(b);
      if i: nat :| CastAt(s, i) { assert CastAt(b, i); }
      if i: nat :| CastAt(b, i) { assert CastAt(s, i); }
    }
  }

  lemma TrimKeepsCast(s: string)
    ensures HasCast(Trim(s)) <==> HasCast(s)
  {
    TrimLeftKeepsCast(s);
    TrimRightKeepsCast(TrimLeft(s));
  }

  /** A literal that contains "::" is never recognised in the catalog, however it is printed. */
  lemma CastNeverMatches(pgExpr: string, d: string)
    requires HasCast(d)
    ensures !DefaultsMatch(pgExpr, d)
  {
    BeforeCastHasNone(pgExpr);
    TrimKeepsCast(BeforeCast(pgExpr));
    TrimKeepsCast(d);
  }

  // ---- Defaults a validated manifest can produce ----

  predicate NumericText(t: string)
  {
    |t| > 0 && forall i | 0 <= i < |t| :: '0' <= t[i] <= '9' || t[i] in "+-.eE"
  }

  /** Numeric defaults are numbers; everything else is free. */
  predicate ValidField(f: Field)
  {
    f.default.Some? ==>
      match f.default.value
      case Numeric(t) => NumericText(t)
      case Exact(t) => NumericText(t)
      case _ => true
  }

  lemma DefaultEndsCleanly(f: Field)
    requires ValidField(f) && DesiredDefault(f).Some?
    ensures var d := DesiredDefault(f).value; d != "" && d[|d| - 1] != ':' && d[0] != 'g'
  {
  }

  /** A printed default is recognised exactly when the literal contains no "::". */
  lemma PrintedMatchesIff(k: Catalog, f: Field)
    requires k.Valid() && ValidField(f) && DesiredDefault(f).Some?
    ensures var d := DesiredDefault(f).value; DefaultsMatch(k.Printed(d), d) <==> !HasCast(d)
  {
    var d := DesiredDefault(f).value;
    DefaultEndsCleanly(f);
    if HasCast(d) {
      CastNeverMatches(k.Printed(d), d);
    } else {
      BeforeSuffix(d, k.suffix(d));
    }
  }

  // ---- Reconciling twice ----

  /** Can the catalog show the default of this field back in a form that is recognised? */
  predicate Settles(f: Field)
  {
    DesiredDefault(f).Some? ==> !HasCast(DesiredDefault(f).value)
  }

  lemma RuleRoundTrip(f: Field)
    ensures DeleteRuleName(DeleteRuleLetter(ResolveOnDelete(f))) == ResolveOnDelete(f)
  {
  }

  lemma DefaultSettles(k: Catalog, f: Field, current: Option<string>, c: Column)
    requires k.Valid() && ValidField(f) && c.default == TargetDefault(k, f, current)
    ensures DefaultChange(f, c) == [] <==> Settles(f)
  {
    if DesiredDefault(f).Some? {
      PrintedMatchesIff(k, f);
      var d := DesiredDefault(f).value;
      if HasCast(d) { CastNeverMatches(c.default.value, d); }
    }
  }

  lemma TargetIsStable(k: Catalog, p: Place, f: Field, found: Option<Column>)
    requires k.Valid() && ValidField(f) && !IsSystemField(f.name)
    ensures FieldChanges(p, f, Some(TargetColumn(k, p, f, found))) == [] <==> Settles(f)
  {
    var c := TargetColumn(k, p, f, found);
    RuleRoundTrip(f);
    DefaultSettles(k, f, if found.Some? then found.value.default else None, c);
    assert TypeChange(f, c, ResolvePgType(f, p.pkTypes)) == [];
    assert NullChange(f, c) == [];
    assert FkChange(p.schema, p.table, f, c) == [];
  }

  lemma {:induction false} NoFieldChangesIff(p: Place, fields: seq<Field>, t: Table)
    ensures AllFieldChanges(p, fields, t) == [] <==>
            forall i | 0 <= i < |fields| :: FieldChanges(p, fields[i], Get(t, fields[i].name)) == []
    decreases |fields|
  {
    if fields != [] {
      NoFieldChangesIff(p, fields[1..], t);
      var first := FieldChanges(p, fields[0], Get(t, fields[0].name));
      if AllFieldChanges(p, fields, t) == [] {
        assert |first| == 0;
        forall i | 0 <= i < |fields| ensures FieldChanges(p, fields[i], Get(t, fields[i].name)) == [] {
          if i > 0 { assert fields[1..][i - 1] == fields[i]; }
        }
      }
      if forall i | 0 <= i < |fields| :: FieldChanges(p, fields[i], Get(t, fields[i].name)) == [] {
        forall i | 0 <= i < |fields[1..]| ensures FieldChanges(p, fields[1..][i], Get(t, fields[1..][i].name)) == [] {
          assert fields[1..][i] == fields[i + 1];
        }
      }
    }
  }

  lemma {:induction false} NoDropChanges(fields: seq<Field>, order: seq<string>)
    requires forall n | n in order :: IsSystemField(n) || FieldNamed(fields, n).Some?
    ensures AllDropChanges(fields, order) == []
    decreases |order|
  {
    if order != [] {
      assert order[0] in order;
      NoDropChanges(fields, order[1..]);
    }
  }

  /** Reconciling converges exactly when no declared default contains "::": the table it leaves
      has nothing left to change, for every table it started from. */
  lemma SecondDiffIsEmptyIff(k: Catalog, p: Place, fields: seq<Field>, t: Table, order: seq<string>, order': seq<string>)
    requires k.Valid() && DistinctNames(fields) && DistinctFks(t) && Enumerates(order, t)
    requires forall f | f in fields :: ValidField(f)
    requires Enumerates(order', ApplyAll(k, t, Ddl(Diff(p, fields, t, order))))
    ensures Diff(p, fields, ApplyAll(k, t, Ddl(Diff(p, fields, t, order))), order') == [] <==>
            forall f | f in fields && !IsSystemField(f.name) :: Settles(f)
  {
    var u := ApplyAll(k, t, Ddl(Diff(p, fields, t, order)));
    forall n | n in order' ensures IsSystemField(n) || FieldNamed(fields, n).Some? {
      ReconcileMeetsTarget(k, p, fields, t, order, n);
    }
    NoDropChanges(fields, order');
    NoFieldChangesIff(p, fields, u);
    forall f | f in fields
      ensures FieldChanges(p, f, Get(u, f.name)) == [] <==> IsSystemField(f.name) || Settles(f)
    {
      NamedField(fields, f);
      ReconcileMeetsTarget(k, p, fields, t, order, f.name);
      if !IsSystemField(f.name) { TargetIsStable(k, p, f, Get(t, f.name)); }
    }
    SettledFields(p, fields, u);
  }

  lemma SettledFields(p: Place, fields: seq<Field>, u: Table)
    requires forall f | f in fields :: FieldChanges(p, f, Get(u, f.name)) == [] <==> IsSystemField(f.name) || Settles(f)
    ensures (forall i | 0 <= i < |fields| :: FieldChanges(p, fields[i], Get(u, fields[i].name)) == []) <==>
            forall f | f in fields && !IsSystemField(f.name) :: Settles(f)
  {
    if forall i | 0 <= i < |fields| :: FieldChanges(p, fields[i], Get(u, fields[i].name)) == [] {
      forall f | f in fields && !IsSystemField(f.name) ensures Settles(f) {
        var i :| 0 <= i < |fields| && fields[i] == f;
        assert FieldChanges(p, fields[i], Get(u, fields[i].name)) == [];
      }
    }
    if forall f | f in fields && !IsSystemField(f.name) :: Settles(f) {
      forall i | 0 <= i < |fields| ensures FieldChanges(p, fields[i], Get(u, fields[i].name)) == [] {
        assert fields[i] in fields;
      }
    }
  }

  /** A JSON object or array default always carries a cast, so it is set again on every sync. */
  lemma {:induction false} CompoundDefaultNeverSettles(f: Field)
    requires f.kind.Json? && f.default.Some? && f.default.value.Compound?
    ensures !Settles(f)
  {
    var q := QuoteLiteral(f.default.value.json);
    HasCastSomewhere(q + "::jsonb");
    assert CastAt(q + "::jsonb", |q|);
  }

  // ---- A table that was just created ----

  predicate CreatedAsKey(f: Field)
  {
    f.primaryKey || f.name == "id"
  }

  function CreatedDefault(k: Catalog, f: Field, pgType: string): Option<string>
  {
    if CreatedAsKey(f) then (if pgType == "UUID" then Some("gen_random_uuid()") else None)
    else if DesiredDefault(f).Some? then Some(k.Printed(DesiredDefault(f).value))
    else None
  }

  /** The column `field_to_column` declares, as the catalog reports it. */
  function CreatedColumn(k: Catalog, p: Place, f: Field): Column
  {
    var pgType := ResolvePgType(f, p.pkTypes);
    Column(NormalizePgType(pgType), CreatedAsKey(f) || f.required, CreatedDefault(k, f, pgType), None)
  }

  ghost predicate IsCreated(k: Catalog, p: Place, fields: seq<Field>, t: Table)
  {
    && (forall f | f in fields && !IsSystemField(f.name) :: Get(t, f.name) == Some(CreatedColumn(k, p, f)))
    && (forall n | n in t :: IsSystemField(n) || FieldNamed(fields, n).Some?)
  }

  /** What keeps a fresh column out of the next diff: a primary key of its own must be neither a
      UUID, whose generated default is not in the manifest, nor carry a default, which creation
      skips; any other default must settle. */
  predicate FreshSettles(p: Place, f: Field)
  {
    if f.primaryKey then ResolvePgType(f, p.pkTypes) != "UUID" && DesiredDefault(f).None? else Settles(f)
  }

  lemma GeneratedDefaultNeverMatches(d: string)
    requires d != "" && d[0] != 'g' && !Space(d[0])
    ensures !DefaultsMatch("gen_random_uuid()", d)
  {
    var g := "gen_random_uuid()";
    assert g[0] == 'g' && g[1] == 'e' && |g| >= 2;
    HeadSurvives(BeforeCast(g));
    HeadSurvives(d);
  }

  lemma HeadSurvives(s: string)
    requires s != "" && !Space(s[0])
    ensures Trim(s) != "" && Trim(s)[0] == s[0]
  {
    TrimRightKeepsHead(s);
  }

  lemma {:induction false} TrimRightKeepsHead(s: string)
    ensures TrimRight(s) <= s
    ensures s != "" && !Space(s[0]) ==> TrimRight(s) != ""
    decreases |s|
  {
    if s != "" && Space(s[|s| - 1]) { TrimRightKeepsHead(s[..|s| - 1]); }
  }

  lemma FreshColumnIff(k: Catalog, p: Place, f: Field)
    requires k.Valid() && ValidField(f) && !IsSystemField(f.name)
    ensures FieldChanges(p, f, Some(CreatedColumn(k, p, f))) == [] <==> FreshSettles(p, f)
  {
    var c := CreatedColumn(k, p, f);
    assert TypeChange(f, c, ResolvePgType(f, p.pkTypes)) == [];
    assert NullChange(f, c) == [];
    assert FkChange(p.schema, p.table, f, c) == [];
    if DesiredDefault(f).Some? {
      DefaultEndsCleanly(f);
      if f.primaryKey {
        GeneratedDefaultNeverMatches(DesiredDefault(f).value);
      } else {
        PrintedMatchesIff(k, f);
      }
    }
  }

  /** A freshly created table needs no reconciliation exactly when every declared column settles. */
  lemma FreshTableIff(k: Catalog, p: Place, fields: seq<Field>, t: Table, order: seq<string>)
    requires k.Valid() && Enumerates(order, t) && IsCreated(k, p, fields, t)
    requires forall f | f in fields :: ValidField(f)
    ensures Diff(p, fields, t, order) == [] <==> forall f | f in fields && !IsSystemField(f.name) :: FreshSettles(p, f)
  {
    NoDropChanges(fields, order);
    NoFieldChangesIff(p, fields, t);
    forall f | f in fields && !IsSystemField(f.name)
      ensures FieldChanges(p, f, Get(t, f.name)) == [] <==> FreshSettles(p, f)
    {
      FreshColumnIff(k, p, f);
    }
    if AllFieldChanges(p, fields, t) == [] {
      forall f | f in fields && !IsSystemField(f.name) ensures FreshSettles(p, f) {
        var i :| 0 <= i < |fields| && fields[i] == f;
      }
    }
    if forall f | f in fields && !IsSystemField(f.name) :: FreshSettles(p, f) {
      forall i | 0 <= i < |fields| ensures FieldChanges(p, fields[i], Get(t, fields[i].name)) == [] {
        assert fields[i] in fields;
      }
    }
  }
}
