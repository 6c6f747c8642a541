/** Reconciliation reaches its target, stays there, and does not depend on field order. */
module SchemaProofs {
  import opened Common
  import opened Schema

  // ---- A table seen through one column ----

  function ColStep(k: Catalog, n: string, c: Option<Column>, st: Statement): Option<Column>
  {
    match st
    case DropConstraint(name) =>
      if c.Some? && c.value.fk.Some? && c.value.fk.value.name == name then Some(c.value.(fk := None)) else c
    case AlterColumnType(m, ty) => if m == n && c.Some? then Some(c.value.(pgType := NormalizePgType(ty))) else c
    case AddColumn(m, ty) => if m == n && c.None? then Some(Column(NormalizePgType(ty), false, None, None)) else c
    case SetColumnNotNull(m) => if m == n && c.Some? then Some(c.value.(notNull := true)) else c
    case DropColumnNotNull(m) => if m == n && c.Some? then Some(c.value.(notNull := false)) else c
    case SetColumnDefault(m, sql) => if m == n && c.Some? then Some(c.value.(default := Some(k.Printed(sql)))) else c
    case DropColumnDefault(m) => if m == n && c.Some? then Some(c.value.(default := None)) else c
    case AddForeignKey(m, name, target, rule) =>
      if m == n && c.Some? then Some(c.value.(fk := Some(Fk(name, DeleteRuleLetter(rule), target)))) else c
    case DropColumn(m) => if m == n then None else c
  }

  function ColRun(k: Catalog, n: string, c: Option<Column>, sts: seq<Statement>): Option<Column>
    decreases |sts|
  {
    if sts == [] then c else ColRun(k, n, ColStep(k, n, c, sts[0]), sts[1..])
  }

  lemma StatementIsLocal(k: Catalog, t: Table, st: Statement, n: string)
    ensures Get(ApplyStatement(k, t, st), n) == ColStep(k, n, Get(t, n), st)
  {
  }

  lemma {:induction false} RunIsLocal(k: Catalog, t: Table, sts: seq<Statement>, n: string)
    ensures Get(ApplyAll(k, t, sts), n) == ColRun(k, n, Get(t, n), sts)
    decreases |sts|
  {
    if sts != [] {
      StatementIsLocal(k, t, sts[0], n);
      RunIsLocal(k, ApplyStatement(k, t, sts[0]), sts[1..], n);
    }
  }

  lemma {:induction false} ColRunConcat(k: Catalog, n: string, c: Option<Column>, a: seq<Statement>, b: seq<Statement>)
    ensures ColRun(k, n, c, a + b) == ColRun(k, n, ColRun(k, n, c, a), b)
    decreases |a|
  {
    if a == [] {
      assert a + b == b;
    } else {
      assert (a + b)[1..] == a[1..] + b;
      ColRunConcat(k, n, ColStep(k, n, c, a[0]), a[1..], b);
    }
  }

  // ---- Changes that concern other columns ----

  function About(c: Change): string
  {
    if c.Add? then c.field.name else c.column
  }

  /** Does this change leave the column `n` alone, whose foreign key was `fk`? */
  predicate Spares(c: Change, n: string, fk: Option<Fk>)
  {
    About(c) != n && (c.ReplaceFk? && fk.Some? ==> c.oldName != fk.value.name)
  }

  predicate AllSpare(cs: seq<Change>, n: string, fk: Option<Fk>)
  {
    forall i | 0 <= i < |cs| :: Spares(cs[i], n, fk)
  }

  /** Either the phase has no constraint drops, or the column still has the key it had. */
  predicate Undisturbed(c: Option<Column>, fk: Option<Fk>, phase: nat)
  {
    phase == 0 && c.Some? ==> c.value.fk == fk || c.value.fk == None
  }

  lemma {:induction false} SparedPhase(k: Catalog, n: string, c: Option<Column>, cs: seq<Change>, phase: nat, fk: Option<Fk>)
    requires AllSpare(cs, n, fk) && Undisturbed(c, fk, phase)
    ensures ColRun(k, n, c, Phase(cs, phase)) == c
    decreases |cs|
  {
    if cs != [] {
      var e := Emit(cs[0], phase);
      ColRunConcat(k, n, c, e, Phase(cs[1..], phase));
      assert Spares(cs[0], n, fk);
      assert ColRun(k, n, c, e) == c by {
        if e != [] { assert e == [e[0]] && e[1..] == []; }
      }
      SparedPhase(k, n, c, cs[1..], phase, fk);
    }
  }

  lemma {:induction false} PhaseConcat(a: seq<Change>, b: seq<Change>, phase: nat)
    ensures Phase(a + b, phase) == Phase(a, phase) + Phase(b, phase)
    decreases |a|
  {
    if a == [] {
      assert a + b == b;
    } else {
      assert (a + b)[1..] == a[1..] + b;
      PhaseConcat(a[1..], b, phase);
    }
  }

  /** Surrounded by changes that spare a column, the changes about it act alone. */
  lemma OnlyOwnChanges(k: Catalog, n: string, c: Option<Column>, a: seq<Change>, own: seq<Change>, b: seq<Change>, phase: nat, fk: Option<Fk>)
    requires AllSpare(a, n, fk) && AllSpare(b, n, fk) && Undisturbed(c, fk, phase)
    requires Undisturbed(ColRun(k, n, c, Phase(own, phase)), fk, phase)
    ensures ColRun(k, n, c, Phase(a + own + b, phase)) == ColRun(k, n, c, Phase(own, phase))
  {
    PhaseConcat(a + own, b, phase);
    PhaseConcat(a, own, phase);
    ColRunConcat(k, n, c, Phase(a + own, phase), Phase(b, phase));
    ColRunConcat(k, n, c, Phase(a, phase), Phase(own, phase));
    SparedPhase(k, n, c, a, phase, fk);
    SparedPhase(k, n, ColRun(k, n, c, Phase(own, phase)), b, phase, fk);
  }

  function SevenPhases(k: Catalog, n: string, c: Option<Column>, cs: seq<Change>): Option<Column>
  {
    var c0 := ColRun(k, n, c, Phase(cs, 0));
    var c1 := ColRun(k, n, c0, Phase(cs, 1));
    var c2 := ColRun(k, n, c1, Phase(cs, 2));
    var c3 := ColRun(k, n, c2, Phase(cs, 3));
    var c4 := ColRun(k, n, c3, Phase(cs, 4));
    var c5 := ColRun(k, n, c4, Phase(cs, 5));
    ColRun(k, n, c5, Phase(cs, 6))
  }

  lemma DdlIsSevenPhases(k: Catalog, n: string, c: Option<Column>, cs: seq<Change>)
    ensures ColRun(k, n, c, Ddl(cs)) == SevenPhases(k, n, c, cs)
  {
    var p0, p1, p2, p3 := Phase(cs, 0), Phase(cs, 1), Phase(cs, 2), Phase(cs, 3);
    var p4, p5, p6 := Phase(cs, 4), Phase(cs, 5), Phase(cs, 6);
    ColRunConcat(k, n, c, p0 + p1 + p2 + p3 + p4 + p5, p6);
    ColRunConcat(k, n, c, p0 + p1 + p2 + p3 + p4, p5);
    ColRunConcat(k, n, c, p0 + p1 + p2 + p3, p4);
    ColRunConcat(k, n, c, p0 + p1 + p2, p3);
    ColRunConcat(k, n, c, p0 + p1, p2);
    ColRunConcat(k, n, c, p0, p1);
  }

  // ---- The changes about one column ----

  lemma PhaseOfFour(a: seq<Change>, b: seq<Change>, c: seq<Change>, d: seq<Change>, phase: nat)
    ensures Phase(a + b + c + d, phase) == Phase(a, phase) + Phase(b, phase) + Phase(c, phase) + Phase(d, phase)
  {
    PhaseConcat(a + b + c, d, phase);
    PhaseConcat(a + b, c, phase);
    PhaseConcat(a, b, phase);
  }

  lemma SmallPhase(cs: seq<Change>, phase: nat)
    requires |cs| <= 1
    ensures Phase(cs, phase) == if cs == [] then [] else Emit(cs[0], phase)
  {
    if cs != [] {
      assert cs[1..] == [];
    }
  }

  lemma ShortRun(k: Catalog, n: string, c: Option<Column>, sts: seq<Statement>)
    requires |sts| <= 1
    ensures ColRun(k, n, c, sts) == if sts == [] then c else ColStep(k, n, c, sts[0])
  {
    if sts != [] {
      assert sts[1..] == [];
    }
  }

  /** At most one change of each sort about one existing column. */
  datatype Own = Own(ty: seq<Change>, nu: seq<Change>, de: seq<Change>, fk: seq<Change>)
  {
    predicate Valid(n: string)
    {
      && |ty| <= 1 && (ty != [] ==> ty[0].AlterType? && ty[0].column == n)
      && |nu| <= 1 && (nu != [] ==> (nu[0].SetNotNull? || nu[0].DropNotNull?) && nu[0].column == n)
      && |de| <= 1 && (de != [] ==> (de[0].SetDefault? || de[0].DropDefault?) && de[0].column == n)
      && |fk| <= 1 && (fk != [] ==> fk[0].ReplaceFk? && fk[0].column == n)
    }

    function All(): seq<Change>
    {
      ty + nu + de + fk
    }

    /** Each phase then holds at most one statement. */
    function Statements(phase: nat): seq<Statement>
    {
      if phase == 1 then EmitType(ty, phase)
      else if phase == 3 then EmitNull(nu, phase)
      else if phase == 4 then EmitDefault(de, phase)
      else EmitFk(fk, phase)
    }
  }

  function EmitType(cs: seq<Change>, phase: nat): seq<Statement>
  {
    if |cs| == 1 && cs[0].AlterType? && phase == 1 then [AlterColumnType(cs[0].column, cs[0].toType)] else []
  }

  function EmitNull(cs: seq<Change>, phase: nat): seq<Statement>
  {
    if |cs| == 1 && cs[0].SetNotNull? && phase == 3 then [SetColumnNotNull(cs[0].column)]
    else if |cs| == 1 && cs[0].DropNotNull? && phase == 3 then [DropColumnNotNull(cs[0].column)]
    else []
  }

  function EmitDefault(cs: seq<Change>, phase: nat): seq<Statement>
  {
    if |cs| == 1 && cs[0].SetDefault? && phase == 4 then [SetColumnDefault(cs[0].column, cs[0].sql)]
    else if |cs| == 1 && cs[0].DropDefault? && phase == 4 then [DropColumnDefault(cs[0].column)]
    else []
  }

  function EmitFk(cs: seq<Change>, phase: nat): seq<Statement>
  {
    if |cs| == 1 && cs[0].ReplaceFk? && phase == 0 then [DropConstraint(cs[0].oldName)]
    else if |cs| == 1 && cs[0].ReplaceFk? && phase == 5 then [AddForeignKey(cs[0].column, cs[0].newName, cs[0].target, cs[0].rule)]
    else []
  }

  lemma SortsOfPhase(o: Own, n: string, phase: nat)
    requires o.Valid(n)
    ensures Phase(o.ty, phase) == EmitType(o.ty, phase) && Phase(o.nu, phase) == EmitNull(o.nu, phase)
    ensures Phase(o.de, phase) == EmitDefault(o.de, phase) && Phase(o.fk, phase) == EmitFk(o.fk, phase)
  {
    SmallPhase(o.ty, phase);
    SmallPhase(o.nu, phase);
    SmallPhase(o.de, phase);
    SmallPhase(o.fk, phase);
  }

  lemma OwnPhase(o: Own, n: string, phase: nat)
    requires o.Valid(n) && phase <= 6
    ensures Phase(o.All(), phase) == o.Statements(phase) && |o.Statements(phase)| <= 1
  {
    PhaseOfFour(o.ty, o.nu, o.de, o.fk, phase);
    SortsOfPhase(o, n, phase);
    JoinOne(EmitType(o.ty, phase), EmitNull(o.nu, phase), EmitDefault(o.de, phase), EmitFk(o.fk, phase));
  }

  lemma JoinOne<T>(a: seq<T>, b: seq<T>, c: seq<T>, d: seq<T>)
    ensures b == c == d == [] ==> a + b + c + d == a
    ensures a == c == d == [] ==> a + b + c + d == b
    ensures a == b == d == [] ==> a + b + c + d == c
    ensures a == b == c == [] ==> a + b + c + d == d
  {
  }

  function Retyped(o: Own, c: Column): Column
    requires |o.ty| > 0 ==> o.ty[0].AlterType?
  {
    if o.ty != [] then c.(pgType := NormalizePgType(o.ty[0].toType)) else c
  }

  function Renulled(o: Own, c: Column): Column
  {
    if o.nu != [] then c.(notNull := o.nu[0].SetNotNull?) else c
  }

  function Redefaulted(k: Catalog, o: Own, c: Column): Column
  {
    if o.de != [] then c.(default := if o.de[0].SetDefault? then Some(k.Printed(o.de[0].sql)) else None) else c
  }

  function Rekeyed(o: Own, c: Column): Column
    requires |o.fk| > 0 ==> o.fk[0].ReplaceFk?
  {
    if o.fk != [] then c.(fk := Some(Fk(o.fk[0].newName, DeleteRuleLetter(o.fk[0].rule), o.fk[0].target))) else c
  }

  function AfterPhase(k: Catalog, o: Own, c: Column, phase: nat, n: string): Column
    requires o.Valid(n)
  {
    if phase == 0 && o.fk != [] then c.(fk := None)
    else if phase == 1 then Retyped(o, c)
    else if phase == 3 then Renulled(o, c)
    else if phase == 4 then Redefaulted(k, o, c)
    else if phase == 5 then Rekeyed(o, c)
    else c
  }

  lemma StatementsEffect(k: Catalog, n: string, o: Own, c: Column, phase: nat)
    requires o.Valid(n)
    requires phase == 0 && o.fk != [] ==> c.fk.Some? && c.fk.value.name == o.fk[0].oldName
    ensures var sts := o.Statements(phase);
            (if sts == [] then Some(c) else ColStep(k, n, Some(c), sts[0])) == Some(AfterPhase(k, o, c, phase, n))
  {
    if phase == 0 {
    } else if phase == 1 {
    } else if phase == 3 {
    } else if phase == 4 {
    } else if phase == 5 {
    }
  }

  lemma PhaseEffect(k: Catalog, n: string, o: Own, c: Column, phase: nat)
    requires o.Valid(n) && phase <= 6
    requires phase == 0 && o.fk != [] ==> c.fk.Some? && c.fk.value.name == o.fk[0].oldName
    ensures ColRun(k, n, Some(c), Phase(o.All(), phase)) == Some(AfterPhase(k, o, c, phase, n))
  {
    OwnPhase(o, n, phase);
    ShortRun(k, n, Some(c), o.Statements(phase));
    StatementsEffect(k, n, o, c, phase);
  }

  /** What the statements of one column's changes add up to, when the key it drops is its own. */
  lemma OwnEffect(k: Catalog, n: string, o: Own, c: Column)
    requires o.Valid(n) && (o.fk != [] ==> c.fk.Some? && c.fk.value.name == o.fk[0].oldName)
    ensures SevenPhases(k, n, Some(c), o.All()) == Some(Rekeyed(o, Redefaulted(k, o, Renulled(o, Retyped(o, c)))))
    ensures Undisturbed(ColRun(k, n, Some(c), Phase(o.All(), 0)), c.fk, 0)
  {
    var c0 := AfterPhase(k, o, c, 0, n);
    var c1 := Retyped(o, c0);
    var c3 := Renulled(o, c1);
    var c4 := Redefaulted(k, o, c3);
    var c5 := Rekeyed(o, c4);
    PhaseEffect(k, n, o, c, 0);
    PhaseEffect(k, n, o, c0, 1);
    PhaseEffect(k, n, o, c1, 2);
    PhaseEffect(k, n, o, c1, 3);
    PhaseEffect(k, n, o, c3, 4);
    PhaseEffect(k, n, o, c4, 5);
    PhaseEffect(k, n, o, c5, 6);
  }

  lemma AddedColumn(k: Catalog, f: Field, pgType: string)
    ensures SevenPhases(k, f.name, None, [Add(f, pgType)]) ==
              Some(Column(NormalizePgType(pgType), f.required, TargetDefault(k, f, None), None))
    ensures ColRun(k, f.name, None, Phase([Add(f, pgType)], 0)) == None
  {
    var n, cs := f.name, [Add(f, pgType)];
    SmallPhase(cs, 0); SmallPhase(cs, 1); SmallPhase(cs, 2); SmallPhase(cs, 3); SmallPhase(cs, 4); SmallPhase(cs, 5); SmallPhase(cs, 6);
    var c2 := Column(NormalizePgType(pgType), false, None, None);
    ShortRun(k, n, None, Phase(cs, 0));
    ShortRun(k, n, None, Phase(cs, 1));
    ShortRun(k, n, None, Phase(cs, 2));
    ShortRun(k, n, Some(c2), Phase(cs, 3));
    var c3 := c2.(notNull := f.required);
    assert ColRun(k, n, Some(c2), Phase(cs, 3)) == Some(c3);
    ShortRun(k, n, Some(c3), Phase(cs, 4));
  }

  predicate OwnOf(p: Place, f: Field, c: Column, o: Own)
  {
    o == Own(TypeChange(f, c, ResolvePgType(f, p.pkTypes)), NullChange(f, c), DefaultChange(f, c), FkChange(p.schema, p.table, f, c))
  }

  lemma OwnIsValid(p: Place, f: Field, c: Column, o: Own)
    requires OwnOf(p, f, c, o)
    ensures o.Valid(f.name) && (o.fk != [] ==> c.fk.Some? && c.fk.value.name == o.fk[0].oldName)
  {
  }

  lemma TargetIsEffect(k: Catalog, p: Place, f: Field, c: Column, o: Own)
    requires OwnOf(p, f, c, o) && o.Valid(f.name)
    ensures TargetColumn(k, p, f, Some(c)) == Rekeyed(o, Redefaulted(k, o, Renulled(o, Retyped(o, c))))
  {
  }

  lemma OwnChangesReachTarget(k: Catalog, p: Place, f: Field, found: Option<Column>)
    requires !IsSystemField(f.name)
    ensures SevenPhases(k, f.name, found, FieldChanges(p, f, found)) == Some(TargetColumn(k, p, f, found))
    ensures Undisturbed(ColRun(k, f.name, found, Phase(FieldChanges(p, f, found), 0)), if found.Some? then found.value.fk else None, 0)
  {
    var pgType := ResolvePgType(f, p.pkTypes);
    match found
    case None => AddedColumn(k, f, pgType);
    case Some(c) =>
      var o := Own(TypeChange(f, c, pgType), NullChange(f, c), DefaultChange(f, c), FkChange(p.schema, p.table, f, c));
      assert FieldChanges(p, f, found) == o.All();
      OwnIsValid(p, f, c, o);
      OwnEffect(k, f.name, o, c);
      TargetIsEffect(k, p, f, c, o);
  }

  // ---- Finding the changes about one column ----

  lemma {:induction false} FieldChangesSpare(p: Place, fields: seq<Field>, t: Table, n: string)
    requires DistinctFks(t)
    requires FieldNamed(fields, n).None? || IsSystemField(n)
    ensures AllSpare(AllFieldChanges(p, fields, t), n, if n in t then t[n].fk else None)
    decreases |fields|
  {
    if fields != [] {
      OneFieldSpares(p, fields[0], t, n);
      FieldChangesSpare(p, fields[1..], t, n);
    }
  }

  lemma SimpleChangesSpare(f: Field, c: Column, pgType: string, n: string, fk: Option<Fk>)
    requires f.name != n
    ensures AllSpare(TypeChange(f, c, pgType), n, fk) && AllSpare(NullChange(f, c), n, fk) && AllSpare(DefaultChange(f, c), n, fk)
  {
  }

  lemma FkChangeSpares(p: Place, f: Field, t: Table, n: string)
    requires DistinctFks(t) && f.name != n && f.name in t
    ensures AllSpare(FkChange(p.schema, p.table, f, t[f.name]), n, if n in t then t[n].fk else None)
  {
    var cs := FkChange(p.schema, p.table, f, t[f.name]);
    if cs != [] {
      assert |cs| == 1 && About(cs[0]) == f.name && cs[0].oldName == t[f.name].fk.value.name;
    }
  }

  lemma OneFieldSpares(p: Place, f: Field, t: Table, n: string)
    requires DistinctFks(t) && (f.name != n || IsSystemField(n))
    ensures AllSpare(FieldChanges(p, f, Get(t, f.name)), n, if n in t then t[n].fk else None)
  {
    if !IsSystemField(f.name) && f.name in t {
      var c, pgType, fk := t[f.name], ResolvePgType(f, p.pkTypes), if n in t then t[n].fk else None;
      var ty, nu, de, fkc := TypeChange(f, c, pgType), NullChange(f, c), DefaultChange(f, c), FkChange(p.schema, p.table, f, c);
      assert FieldChanges(p, f, Get(t, f.name)) == ty + nu + de + fkc;
      assert AllSpare(ty + nu + de + fkc, n, fk) by {
        SimpleChangesSpare(f, c, pgType, n, fk);
        FkChangeSpares(p, f, t, n);
        SpareBoth(ty, nu, n, fk);
        SpareBoth(ty + nu, de, n, fk);
        SpareBoth(ty + nu + de, fkc, n, fk);
      }
    }
  }

  lemma {:induction false} DropChangesSpare(fields: seq<Field>, order: seq<string>, n: string, fk: Option<Fk>)
    requires n !in order || IsSystemField(n) || FieldNamed(fields, n).Some?
    ensures AllSpare(AllDropChanges(fields, order), n, fk)
    decreases |order|
  {
    if order != [] {
      DropChangesSpare(fields, order[1..], n, fk);
    }
  }

  /** The changes about a declared column, between changes that spare it. */
  lemma {:induction false} SplitAtField(p: Place, fields: seq<Field>, t: Table, n: string) returns (a: seq<Change>, b: seq<Change>)
    requires DistinctFks(t) && DistinctNames(fields) && FieldNamed(fields, n).Some? && !IsSystemField(n)
    ensures FieldNamed(fields, n).value.name == n
    ensures AllFieldChanges(p, fields, t) == a + FieldChanges(p, FieldNamed(fields, n).value, Get(t, n)) + b
    ensures var fk := if n in t then t[n].fk else None; AllSpare(a, n, fk) && AllSpare(b, n, fk)
    decreases |fields|
  {
    var f, fk := fields[0], if n in t then t[n].fk else None;
    var first, rest := FieldChanges(p, f, Get(t, f.name)), AllFieldChanges(p, fields[1..], t);
    if f.name == n {
      a, b := [], rest;
      assert AllSpare(rest, n, fk) by {
        NotNamedLater(fields, n);
        FieldChangesSpare(p, fields[1..], t, n);
      }
      assert first + rest == a + first + b;
    } else {
      var a0;
      a0, b := SplitAtField(p, fields[1..], t, n);
      a := first + a0;
      assert AllSpare(a, n, fk) by {
        OneFieldSpares(p, f, t, n);
        SpareBoth(first, a0, n, fk);
      }
      Reassociate(first, a0, FieldChanges(p, FieldNamed(fields[1..], n).value, Get(t, n)), b);
    }
  }

  lemma Reassociate(a: seq<Change>, b: seq<Change>, c: seq<Change>, d: seq<Change>)
    ensures a + (b + c + d) == a + b + c + d
  {
  }

  lemma SpareBoth(a: seq<Change>, b: seq<Change>, n: string, fk: Option<Fk>)
    requires AllSpare(a, n, fk) && AllSpare(b, n, fk)
    ensures AllSpare(a + b, n, fk)
  {
  }

  lemma NotNamedLater(fields: seq<Field>, n: string)
    requires DistinctNames(fields) && fields != [] && fields[0].name == n
    ensures FieldNamed(fields[1..], n).None?
  {
    NamedIsThere(fields[1..], n);
  }

  lemma {:induction false} NamedIsThere(fields: seq<Field>, n: string)
    ensures FieldNamed(fields, n).Some? ==> exists i :: 0 <= i < |fields| && fields[i].name == n && fields[i] == FieldNamed(fields, n).value
    ensures forall i | 0 <= i < |fields| && fields[i].name == n :: FieldNamed(fields, n).Some?
    decreases |fields|
  {
    if fields != [] {
      NamedIsThere(fields[1..], n);
      if fields[0].name != n && FieldNamed(fields, n).Some? {
        var i :| 0 <= i < |fields[1..]| && fields[1..][i].name == n && fields[1..][i] == FieldNamed(fields, n).value;
        assert fields[i + 1] == fields[1..][i];
      }
      forall i | 0 <= i < |fields| && fields[i].name == n ensures FieldNamed(fields, n).Some? {
        if i > 0 { assert fields[1..][i - 1] == fields[i]; }
      }
    }
  }

  lemma {:induction false} SplitAtDrop(fields: seq<Field>, order: seq<string>, n: string, fk: Option<Fk>) returns (a: seq<Change>, b: seq<Change>)
    requires n in order && !IsSystemField(n) && FieldNamed(fields, n).None?
    requires forall i, j | 0 <= i < j < |order| :: order[i] != order[j]
    ensures AllDropChanges(fields, order) == a + [Drop(n)] + b
    ensures AllSpare(a, n, fk) && AllSpare(b, n, fk)
    decreases |order|
  {
    if order[0] == n {
      a, b := [], AllDropChanges(fields, order[1..]);
      DropChangesSpare(fields, order[1..], n, fk);
    } else {
      a, b := SplitAtDrop(fields, order[1..], n, fk);
      a := DropChange(fields, order[0]) + a;
    }
  }
}
