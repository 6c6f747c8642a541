/** Permission keys, the check that a grant satisfies a requirement, and the meet used wherever
    authority is narrowed.  A grant list is only ever searched, so it is a set of keys here. */
module Permissions {
  import opened Common

  type Grants = set<string>

  predicate EndsWith(s: string, suffix: string)
  {
    |suffix| <= |s| && s[|s| - |suffix|..] == suffix
  }

  /** Does one granted key satisfy a requirement?  The key is "*", the requirement itself, or a
      prefix followed by ":*" where the requirement continues the prefix with a colon. */
  predicate Matches(p: string, required: string)
  {
    || p == "*"
    || p == required
    || (EndsWith(p, ":*") && p[..|p| - 1] <= required)
  }

  predicate HasPermission(grants: Grants, required: string)
  {
    exists p {:trigger Matches(p, required)} :: p in grants && Matches(p, required)
  }

  predicate Scoped(key: string)
  {
    EndsWith(key, ".own") || EndsWith(key, ".shared")
  }

  /** The key without its scope. */
  function Base(key: string): string
    requires Scoped(key)
  {
    if EndsWith(key, ".own") then key[..|key| - 4] else key[..|key| - 7]
  }

  /** The weakest key satisfying both grants, or `None`. */
  function Meet(key: string, other: Grants): Option<string>
  {
    if HasPermission(other, key) then Some(key)
    else if Scoped(key) then
      if HasPermission(other, Base(key)) then Some(key) else None
    else if HasPermission(other, key + ".own") then Some(key + ".own")
    else None
  }

  function Intersect(a: Grants, b: Grants): Grants
  {
    if "*" in a then b
    else if "*" in b then a
    else
      (set p | p in a && Meet(p, b).Some? :: Meet(p, b).value) + (set p | p in b && Meet(p, a).Some? :: Meet(p, a).value)
  }

  /** What a grant list allows: a requirement it satisfies, or a scope below something it allows. */
  predicate Covers(grants: Grants, r: string)
    decreases |r|
  {
    HasPermission(grants, r) || (Scoped(r) && Covers(grants, Base(r)))
  }

  // ---- Matching ----

  lemma OnlyStarMatchesStar(o: string)
    ensures Matches(o, "*") <==> o == "*"
  {
    if EndsWith(o, ":*") { assert o[..|o| - 1][|o| - 2] == o[|o| - 2..][0] == ':'; }
  }

  lemma MatchIsTransitive(o: string, q: string, r: string)
    requires Matches(o, q) && Matches(q, r)
    ensures Matches(o, r)
  {
    OnlyStarMatchesStar(o);
    if o != "*" && o != q && q != r && q != "*" {
      var x, y := o[..|o| - 1], q[..|q| - 1];
      assert o[|o| - 2..] == ":*" && q[|q| - 2..] == ":*";
      assert x[|x| - 1] == o[|o| - 2..][0] == ':' && q[|q| - 1] == q[|q| - 2..][1] == '*';
      assert q[|x| - 1] == x[|x| - 1];
      assert x <= y;
    }
  }

  /** A scoped key is matched only by itself or by a wildcard that matches its base as well. */
  lemma MatchesBase(q: string, r: string)
    requires Scoped(r) && Matches(q, r) && q != r
    ensures Matches(q, Base(r))
  {
    if q != "*" {
      var x := q[..|q| - 1];
      assert q[|q| - 2..] == ":*";
      assert x[|x| - 1] == q[|q| - 2..][0] == ':';
      ScopeHasNoColon(r);
      assert x <= Base(r);
    }
  }

  lemma ScopeHasNoColon(r: string)
    requires Scoped(r)
    ensures forall i | |Base(r)| <= i < |r| :: r[i] != ':'
  {
    var n, scope := |Base(r)|, if EndsWith(r, ".own") then ".own" else ".shared";
    assert r[n..] == scope;
    forall i | n <= i < |r| ensures r[i] != ':' { assert r[i] == scope[i - n]; }
  }

  lemma ScopedIsNoWildcard(q: string)
    requires Scoped(q)
    ensures q != "*" && !EndsWith(q, ":*")
  {
    var n, scope := |Base(q)|, if EndsWith(q, ".own") then ".own" else ".shared";
    assert q[n..] == scope;
    assert q[|q| - 1] == scope[|scope| - 1] != '*';
    assert |q| >= 2 ==> q[|q| - 2..][1] == q[|q| - 1];
  }

  lemma ScopedIsPlain(q: string, r: string)
    requires Scoped(q) && Matches(q, r)
    ensures q == r
  {
    ScopedIsNoWildcard(q);
  }

  lemma OwnIsScoped(q: string)
    ensures Scoped(q + ".own") && Base(q + ".own") == q
  {
    assert (q + ".own")[|q + ".own"| - 4..] == ".own";
  }

  // ---- Narrowing never widens ----

  /** One key of an intersection, seen from the side it came from and from the other side. */
  lemma MeetIsCovered(q: string, mine: Grants, other: Grants, r: string)
    requires q in mine && q != "*" && Meet(q, other).Some? && Matches(Meet(q, other).value, r)
    ensures Covers(mine, r) && Covers(other, r)
  {
    var p := Meet(q, other).value;
    if HasPermission(other, q) {
      var o :| o in other && Matches(o, q);
      MatchIsTransitive(o, q, r);
      assert HasPermission(mine, r) && HasPermission(other, r);
    } else if Scoped(q) {
      ScopedIsPlain(q, r);
      assert HasPermission(mine, r) && Covers(other, Base(r));
    } else {
      OwnIsScoped(q);
      ScopedIsPlain(p, r);
      assert Matches(q, q) && HasPermission(mine, q);
      assert HasPermission(other, r) && Covers(mine, Base(r));
    }
  }

  lemma IntersectSatisfied(a: Grants, b: Grants, r: string)
    requires HasPermission(Intersect(a, b), r)
    ensures Covers(a, r) && Covers(b, r)
  {
    if "*" in a {
      assert Matches("*", r) && HasPermission(a, r);
    } else if "*" in b {
      assert Matches("*", r) && HasPermission(b, r);
    } else {
      var p :| p in Intersect(a, b) && Matches(p, r);
      if q :| q in a && Meet(q, b) == Some(p) {
        MeetIsCovered(q, a, b, r);
      } else {
        var q :| q in b && Meet(q, a) == Some(p);
        MeetIsCovered(q, b, a, r);
      }
    }
  }

  /** An intersection never allows anything one of the two sides does not. */
  lemma {:induction false} IntersectNeverWidens(a: Grants, b: Grants, r: string)
    requires Covers(Intersect(a, b), r)
    ensures Covers(a, r) && Covers(b, r)
    decreases |r|
  {
    if HasPermission(Intersect(a, b), r) {
      IntersectSatisfied(a, b, r);
    } else {
      IntersectNeverWidens(a, b, Base(r));
    }
  }

  // ---- Narrowing loses nothing, except below a doubled scope ----

  lemma MeetIsKept(q: string, mine: Grants, other: Grants, r: string)
    requires q in mine && "*" !in mine && "*" !in other && Meet(q, other).Some? && Matches(Meet(q, other).value, r)
    ensures HasPermission(Intersect(mine, other), r) && HasPermission(Intersect(other, mine), r)
  {
    var p := Meet(q, other).value;
    assert p in Intersect(mine, other) && p in Intersect(other, mine);
  }

  /** Two grants that both satisfy a requirement have a meet that satisfies it. */
  lemma BothSatisfy(a: Grants, b: Grants, q: string, o: string, r: string)
    requires "*" !in a && "*" !in b
    requires q in a && Matches(q, r) && o in b && Matches(o, r)
    ensures HasPermission(Intersect(a, b), r)
  {
    if q == r {
      assert Meet(q, b) == Some(q);
      MeetIsKept(q, a, b, r);
    } else if o == r {
      assert Meet(o, a) == Some(o);
      MeetIsKept(o, b, a, r);
    } else {
      var x, y := q[..|q| - 1], o[..|o| - 1];
      if |x| <= |y| {
        assert x <= o;
        assert Matches(q, o) && Meet(o, a) == Some(o);
        MeetIsKept(o, b, a, r);
      } else {
        assert y <= q;
        assert Matches(o, q) && Meet(q, b) == Some(q);
        MeetIsKept(q, a, b, r);
      }
    }
  }

  /** One side satisfies a scoped requirement itself, the other its base. */
  lemma ScopeAndBase(a: Grants, b: Grants, r: string)
    requires "*" !in a && "*" !in b
    requires Scoped(r) && HasPermission(a, r) && HasPermission(b, Base(r))
    ensures Covers(Intersect(a, b), r) && Covers(Intersect(b, a), r)
  {
    var q :| q in a && Matches(q, r);
    if q == r {
      assert Meet(q, b) == Some(q);
      MeetIsKept(q, a, b, r);
    } else {
      MatchesBase(q, r);
      var o :| o in b && Matches(o, Base(r));
      BothSatisfy(a, b, q, o, Base(r));
      BothSatisfy(b, a, o, q, Base(r));
      assert Covers(Intersect(a, b), Base(r)) && Covers(Intersect(b, a), Base(r));
    }
  }

  predicate DoublyScoped(r: string)
  {
    Scoped(r) && Scoped(Base(r))
  }

  predicate Wild(p: string)
  {
    p == "*" || EndsWith(p, ":*")
  }

  /** Scoped at most once, or twice below a wildcard. */
  predicate Narrowable(r: string)
  {
    !DoublyScoped(r) || Wild(Base(Base(r)))
  }

  lemma BaseIsShorter(r: string)
    requires Scoped(r)
    ensures |Base(r)| + 4 <= |r| && Base(r) <= r
  {
  }

  /** At such a requirement coverage never reaches further up than one scope. */
  lemma CoveredWithinOneScope(g: Grants, r: string)
    requires Narrowable(r) && Covers(g, r)
    ensures HasPermission(g, r) || (Scoped(r) && HasPermission(g, Base(r)))
  {
    if !HasPermission(g, r) && !HasPermission(g, Base(r)) {
      var m, root := Base(r), Base(Base(r));
      if Scoped(root) { ScopedIsNoWildcard(root); }
      var p :| p in g && Matches(p, root);
      BaseIsShorter(m);
      assert Matches(root, m);
      MatchIsTransitive(p, root, m);
    }
  }

  lemma NarrowableIsExact(a: Grants, b: Grants, r: string)
    requires Narrowable(r) && Covers(a, r) && Covers(b, r)
    ensures Covers(Intersect(a, b), r)
  {
    CoveredWithinOneScope(a, r);
    CoveredWithinOneScope(b, r);
    if "*" !in a && "*" !in b {
      if HasPermission(a, r) && HasPermission(b, r) {
        var q, o :| q in a && Matches(q, r) && o in b && Matches(o, r);
        BothSatisfy(a, b, q, o, r);
      } else if HasPermission(a, r) {
        ScopeAndBase(a, b, r);
      } else if HasPermission(b, r) {
        ScopeAndBase(b, a, r);
      } else {
        var q, o :| q in a && Matches(q, Base(r)) && o in b && Matches(o, Base(r));
        BothSatisfy(a, b, q, o, Base(r));
        assert Covers(Intersect(a, b), Base(r));
      }
    }
  }

  ghost predicate ExactAt(r: string)
  {
    forall a: Grants, b: Grants {:trigger Intersect(a, b)} :: Covers(a, r) && Covers(b, r) ==> Covers(Intersect(a, b), r)
  }

  lemma PlainMatchesItself(p: string, x: string)
    requires !Wild(p)
    ensures HasPermission({p}, x) <==> x == p
  {
    if x == p { assert p in {p} && Matches(p, x); }
  }

  lemma NoMeet(p: string, q: string)
    requires !Wild(q) && p != q && (if Scoped(p) then Base(p) != q else p + ".own" != q)
    ensures Meet(p, {q}).None?
  {
    PlainMatchesItself(q, p);
    if Scoped(p) { PlainMatchesItself(q, Base(p)); } else { PlainMatchesItself(q, p + ".own"); }
  }

  /** A key and its root two scopes up both allow the key. */
  lemma BothCoverIt(r: string)
    requires DoublyScoped(r)
    ensures Covers({r}, r) && Covers({Base(Base(r))}, r)
  {
    var root := Base(Base(r));
    assert Matches(r, r) && HasPermission({r}, r);
    assert Matches(root, root) && HasPermission({root}, root);
    assert Covers({root}, Base(r));
  }

  lemma DisjointMeetsAreEmpty(p: string, q: string)
    requires !Wild(p) && !Wild(q) && Meet(p, {q}).None? && Meet(q, {p}).None?
    ensures Intersect({p}, {q}) == {}
  {
  }

  /** Below a doubled scope the meet of the key and its unscoped root is empty. */
  lemma DoubledScopeIsLost(r: string)
    requires !Narrowable(r)
    ensures Intersect({r}, {Base(Base(r))}) == {}
  {
    var root := Base(Base(r));
    BaseIsShorter(r);
    BaseIsShorter(Base(r));
    if Scoped(root) { BaseIsShorter(root); }
    ScopedIsNoWildcard(r);
    NoMeet(r, root);
    NoMeet(root, r);
    DisjointMeetsAreEmpty(r, root);
  }

  lemma LostMeansInexact(a: Grants, b: Grants, r: string)
    requires Covers(a, r) && Covers(b, r) && Intersect(a, b) == {}
    ensures !ExactAt(r)
  {
    NothingCoveredByNothing(r);
  }

  lemma DoubledScopeIsInexact(r: string)
    requires !Narrowable(r)
    ensures !ExactAt(r)
  {
    BothCoverIt(r);
    DoubledScopeIsLost(r);
    LostMeansInexact({r}, {Base(Base(r))}, r);
  }

  /** The meet loses nothing precisely at requirements scoped at most once, or twice below a
      wildcard. */
  lemma MeetIsExactIff(r: string)
    ensures ExactAt(r) <==> Narrowable(r)
  {
    if Narrowable(r) {
      forall a: Grants, b: Grants | Covers(a, r) && Covers(b, r) ensures Covers(Intersect(a, b), r) {
        NarrowableIsExact(a, b, r);
      }
    } else {
      DoubledScopeIsInexact(r);
    }
  }

  lemma {:induction false} NothingCoveredByNothing(r: string)
    ensures !Covers({}, r)
    decreases |r|
  {
    if Scoped(r) { NothingCoveredByNothing(Base(r)); }
  }

  // ---- The forms of a key ----

  lemma JoinEndsWith(q: string, suffix: string)
    ensures EndsWith(q + suffix, suffix) && (q + suffix)[..|q|] == q
  {
    assert (q + suffix)[|q|..] == suffix;
  }

  lemma EndIsJoin(k: string, suffix: string)
    requires EndsWith(k, suffix)
    ensures k == k[..|k| - |suffix|] + suffix
  {
  }

  /** The star satisfies everything; a prefix with ":*" satisfies what continues the prefix with a
      colon; any other key satisfies only itself. */
  lemma MatchesIff(q: string, r: string)
    ensures Matches("*", r)
    ensures Matches(q + ":*", r) <==> q + ":" <= r
    ensures q != "*" && (forall x :: q != x + ":*") ==> (Matches(q, r) <==> q == r)
  {
    JoinEndsWith(q, ":*");
    var p := q + ":*";
    assert p[..|p| - 1] == q + ":";
    assert p[|p| - 2] == ':';
    if EndsWith(q, ":*") { EndIsJoin(q, ":*"); }
  }

  /** A scope is ".own" or ".shared" at the end, and taking it off gives what is before it. */
  lemma ScopedIff(k: string)
    ensures Scoped(k) <==> exists b :: k == b + ".own" || k == b + ".shared"
    ensures Base(k + ".own") == k && Scoped(k + ".own") && Base(k + ".shared") == k && Scoped(k + ".shared")
  {
    OwnIsScoped(k);
    SharedIsScoped(k);
    if EndsWith(k, ".own") { EndIsJoin(k, ".own"); }
    if EndsWith(k, ".shared") { EndIsJoin(k, ".shared"); }
    if b :| k == b + ".own" || k == b + ".shared" {
      JoinEndsWith(b, ".own");
      JoinEndsWith(b, ".shared");
    }
  }

  lemma SharedIsScoped(q: string)
    ensures Scoped(q + ".shared") && Base(q + ".shared") == q
  {
    JoinEndsWith(q, ".shared");
    var k := q + ".shared";
    assert k[|k| - 1] == ".shared"[6] == 'd' && ".own"[3] == 'n';
    assert k[|k| - 4..][3] == k[|k| - 1];
  }

  lemma OneMeet(p: string, q: string)
    requires !Wild(p) && !Wild(q)
    ensures Meet(p, {q}) == if p == q || (Scoped(p) && Base(p) == q) then Some(p)
                            else if !Scoped(p) && p + ".own" == q then Some(q)
                            else None
  {
    PlainMatchesItself(q, p);
    if Scoped(p) { PlainMatchesItself(q, Base(p)); } else { PlainMatchesItself(q, p + ".own"); }
  }

  /** Own and shared are distinct scopes below all: the meet with all keeps either, and theirs with
      each other is empty. */
  lemma ScopesAreDistinct(all: string)
    requires !Wild(all) && !Scoped(all)
    ensures Intersect({all}, {all + ".own"}) == {all + ".own"} && Intersect({all}, {all + ".shared"}) == {all + ".shared"}
    ensures Intersect({all + ".own"}, {all + ".shared"}) == {} && Intersect({all}, {all}) == {all}
  {
    var own, shared := all + ".own", all + ".shared";
    OwnIsScoped(all);
    SharedIsScoped(all);
    ScopedIsNoWildcard(own);
    ScopedIsNoWildcard(shared);
    assert |own| != |all| && |shared| != |all| && |own| != |shared|;
    OneMeet(all, own);
    OneMeet(own, all);
    OneMeet(all, shared);
    OneMeet(shared, all);
    OneMeet(own, shared);
    OneMeet(shared, own);
    OneMeet(all, all);
  }
}
