/** The key under which a worker process is pooled.  Two requests share a process exactly when
    their keys are equal, so the text must separate every two identities. */
module WorkerKeys {
  import opened Common
  import opened Encoding
  import JsonText

  predicate HexDigit(c: char)
  {
    '0' <= c <= '9' || 'a' <= c <= 'f'
  }

  predicate IsUuid(s: string)
  {
    |s| == 36 && forall i | 0 <= i < 36 :: if i in [8, 13, 18, 23] then s[i] == '-' else HexDigit(s[i])
  }

  /** A UUID is its canonical text. */
  type Uuid = s: string | IsUuid(s) witness "00000000-0000-0000-0000-000000000000"

  datatype Identity = Identity(
    userId: Option<Uuid>,
    delegated: bool,
    perms: seq<string>,
    connection: Option<string>,
    auditActor: Option<Uuid>,
    auditDelegator: Option<Uuid>)

  datatype Revision = Revision(id: Uuid, version: int)

  datatype PublicExecution = PublicExecution(installation: Uuid, principal: Uuid, publications: seq<Revision>)

  /** The lineage of an agent run and the key of its origin. */
  datatype Partition = Partition(agents: seq<string>, origin: Option<string>)

  datatype Principal =
    | System
    | Anonymous
    | Public(execution: PublicExecution)
    | User(identity: Identity)
    | AgentRun(identity: Identity, partition: Partition)

  datatype Invocation = Unscoped | Action(name: string) | Job(name: string)

  predicate PermChar(c: char)
  {
    'a' <= c <= 'z' || '0' <= c <= '9' || c in "_:.*"
  }

  predicate ValidPermKey(key: string)
  {
    key != "" && forall i | 0 <= i < |key| :: PermChar(key[i])
  }

  ghost predicate ValidPerms(perms: seq<string>)
  {
    forall i | 0 <= i < |perms| :: ValidPermKey(perms[i])
  }

  ghost predicate ValidPrincipal(p: Principal)
  {
    p.User? || p.AgentRun? ==> ValidPerms(p.identity.perms)
  }

  // ---- The texts ----

  /** How Rust prints a string with `{:?}`.  Which other characters it prints by number is left
      open. */
  function RustStyle(unprintable: char -> bool): Style
  {
    Style(c =>
        if c == '"' || c == '\\' then Short(c)
        else if c == '\0' then Short('0')
        else if c == '\t' then Short('t')
        else if c == '\r' then Short('r')
        else if c == '\n' then Short('n')
        else if unprintable(c) then Numeric
        else Plain,
      false)
  }

  function DebugText(st: Style, o: Option<string>): string
  {
    if o.None? then "None" else "Some(\"" + (Quoted(st, o.value) + ")")
  }

  function DebugUuid(o: Option<Uuid>): string
  {
    if o.None? then "None" else "Some(" + o.value + ")"
  }

  function UuidOrEmpty(o: Option<Uuid>): string
  {
    if o.None? then "" else o.value
  }

  function PermsText(perms: seq<string>): string
  {
    Join(Sort(perms, TextLe), ',')
  }

  /** The second half of a user key: the pinned connection and the audit ids. */
  function AuditPart(st: Style, s: Identity, tail: string): string
  {
    DebugText(st, s.connection) + ("|" + (DebugUuid(s.auditActor) + ("|" + (DebugUuid(s.auditDelegator) + tail))))
  }

  /** The key of a user identity, with whatever follows it. */
  function UserKey(st: Style, s: Identity, tail: string): string
  {
    UuidOrEmpty(s.userId) + "|" + (
    (if s.delegated then "1" else "0") + "|" + (
    PermsText(s.perms) + "|" + AuditPart(st, s, tail)))
  }

  predicate RevisionLe(a: Revision, b: Revision)
  {
    if a.id == b.id then a.version <= b.version else TextLe(a.id, b.id)
  }

  function VersionText(v: int): string
  {
    if v < 0 then "-" + NumberText(-v, false) else NumberText(v, false)
  }

  function RevisionText(r: Revision): string
  {
    r.id + ("@" + VersionText(r.version))
  }

  function RevisionsText(rs: seq<Revision>): string
  {
    var sorted := Sort(rs, RevisionLe);
    Join(seq(|sorted|, i requires 0 <= i < |sorted| => RevisionText(sorted[i])), ',')
  }

  function PublicKey(e: PublicExecution, tail: string): string
  {
    e.principal + "|" + ("public:" + (e.installation + (":" + (e.principal + (":" + (RevisionsText(e.publications) + tail))))))
  }

  function StringsText(parts: seq<string>, tail: string): string
  {
    if parts == [] then "]" + tail else "\"" + (Quoted(JsonStyle(), parts[0]) + (if |parts| == 1 then "]" + tail else "," + StringsText(parts[1..], tail)))
  }

  /** The JSON text of a lineage and its origin key. */
  function PartitionText(p: Partition, tail: string): string
  {
    "[[" + StringsText(p.agents, "," + OriginText(p.origin, tail))
  }

  function OriginText(o: Option<string>, tail: string): string
  {
    if o.None? then "null]" + tail else "\"" + (Quoted(JsonStyle(), o.value) + ("]" + tail))
  }

  function PrincipalKey(st: Style, p: Principal, tail: string): string
  {
    match p
    case System => "\U{00B7}system" + tail
    case Anonymous => "\U{00B7}anon" + tail
    case Public(e) => PublicKey(e, tail)
    case User(s) => UserKey(st, s, tail)
    case AgentRun(s, part) => UserKey(st, s, "|agent=" + PartitionText(part, tail))
  }

  function InvocationKey(i: Invocation): string
  {
    match i
    case Unscoped => ":"
    case Action(n) => "action:" + n
    case Job(n) => "job:" + n
  }

  function ScopeText(i: Invocation): string
  {
    "|scope=" + InvocationKey(i)
  }

  datatype WorkerKey = WorkerKey(app: string, text: string)

  function KeyOf(unprintable: char -> bool, app: string, p: Principal, i: Invocation): WorkerKey
  {
    WorkerKey(app, PrincipalKey(RustStyle(unprintable), p, ScopeText(i)))
  }

  // ---- What a key should tell apart ----

  ghost predicate SameIdentity(a: Identity, b: Identity)
  {
    && a.userId == b.userId && a.delegated == b.delegated
    && multiset(a.perms) == multiset(b.perms)
    && a.connection == b.connection
    && a.auditActor == b.auditActor && a.auditDelegator == b.auditDelegator
  }

  ghost predicate SamePrincipal(p: Principal, q: Principal)
  {
    match (p, q)
    case (System, System) => true
    case (Anonymous, Anonymous) => true
    case (Public(e), Public(f)) =>
      e.installation == f.installation && e.principal == f.principal && multiset(e.publications) == multiset(f.publications)
    case (User(a), User(b)) => SameIdentity(a, b)
    case (AgentRun(a, m), AgentRun(b, n)) => SameIdentity(a, b) && m == n
    case _ => false
  }

  // ---- Reading the parts back ----

  lemma RustStyleIsValid(unprintable: char -> bool)
    ensures RustStyle(unprintable).Valid()
  {
  }

  lemma UuidHas(u: Uuid, c: char)
    requires c in u
    ensures c == '-' || HexDigit(c)
  {
    var i :| 0 <= i < |u| && u[i] == c;
  }

  lemma UuidLacksBar(u: Uuid)
    ensures '|' !in u && ',' !in u
  {
    if '|' in u { UuidHas(u, '|'); } else if ',' in u { UuidHas(u, ','); }
  }

  lemma DebugSome(st: Style, v: string, x: string)
    ensures DebugText(st, Some(v)) + x == "Some(\"" + (Quoted(st, v) + (")" + x))
  {
  }

  lemma DebugTextStarts(st: Style, a: Option<string>, x: string)
    ensures DebugText(st, a) + x != "" && (DebugText(st, a) + x)[0] == if a.None? then 'N' else 'S'
  {
  }

  lemma DebugTextReadsBack(st: Style, a: Option<string>, b: Option<string>, x: string, y: string)
    requires st.Valid() && DebugText(st, a) + x == DebugText(st, b) + y
    ensures a == b && x == y
  {
    DebugTextStarts(st, a, x);
    DebugTextStarts(st, b, y);
    if a.None? {
      SameLength("None", "None", x, y);
    } else {
      DebugSome(st, a.value, x);
      DebugSome(st, b.value, y);
      SameLength("Some(\"", "Some(\"", Quoted(st, a.value) + (")" + x), Quoted(st, b.value) + (")" + y));
      QuotedReadsBack(st, a.value, b.value, ")" + x, ")" + y);
      SameLength(")", ")", x, y);
    }
  }

  lemma DebugUuidReadsBack(a: Option<Uuid>, b: Option<Uuid>, x: string, y: string)
    requires DebugUuid(a) + x == DebugUuid(b) + y
    ensures a == b && x == y
  {
    var s, t := DebugUuid(a) + x, DebugUuid(b) + y;
    assert s[0] == (if a.None? then 'N' else 'S') && t[0] == (if b.None? then 'N' else 'S');
    SameLength(DebugUuid(a), DebugUuid(b), x, y);
    if a.Some? {
      SameLength("Some(", "Some(", a.value + ")", b.value + ")");
      SameLength(a.value, b.value, ")", ")");
    }
  }

  lemma KeyLacks(key: string)
    requires ValidPermKey(key)
    ensures key != "" && ',' !in key && '|' !in key
  {
  }

  lemma PermsAreJoinable(perms: seq<string>)
    requires ValidPerms(perms)
    ensures Joinable(Sort(perms, TextLe), ',') && '|' !in PermsText(perms)
  {
    var sorted := Sort(perms, TextLe);
    TextLeIsOrder();
    SortSorts(perms, TextLe);
    forall i | 0 <= i < |sorted| ensures sorted[i] != "" && ',' !in sorted[i] && '|' !in sorted[i] {
      assert sorted[i] in multiset(sorted);
      var k :| 0 <= k < |perms| && perms[k] == sorted[i];
      KeyLacks(perms[k]);
    }
    JoinHasOnly(sorted, ',', '|');
  }

  lemma PermsReadBack(a: seq<string>, b: seq<string>)
    requires ValidPerms(a) && ValidPerms(b)
    ensures PermsText(a) == PermsText(b) <==> multiset(a) == multiset(b)
  {
    PermsAreJoinable(a);
    PermsAreJoinable(b);
    TextLeIsOrder();
    SortedSameIff(a, b, TextLe);
    if PermsText(a) == PermsText(b) { JoinReadsBack(Sort(a, TextLe), Sort(b, TextLe), ','); }
  }

  lemma UuidOrEmptyReadsBack(a: Option<Uuid>, b: Option<Uuid>)
    requires UuidOrEmpty(a) == UuidOrEmpty(b)
    ensures a == b
  {
  }

  lemma UuidOrEmptyLacksBar(a: Option<Uuid>)
    ensures '|' !in UuidOrEmpty(a)
  {
    if a.Some? { UuidLacksBar(a.value); }
  }

  lemma AuditPartReadsBack(st: Style, a: Identity, b: Identity, x: string, y: string)
    requires st.Valid() && AuditPart(st, a, x) == AuditPart(st, b, y)
    ensures a.connection == b.connection && a.auditActor == b.auditActor && a.auditDelegator == b.auditDelegator && x == y
  {
    var a1, b1 := DebugUuid(a.auditDelegator) + x, DebugUuid(b.auditDelegator) + y;
    var a2, b2 := DebugUuid(a.auditActor) + ("|" + a1), DebugUuid(b.auditActor) + ("|" + b1);
    DebugTextReadsBack(st, a.connection, b.connection, "|" + a2, "|" + b2);
    SameLength("|", "|", a2, b2);
    DebugUuidReadsBack(a.auditActor, b.auditActor, "|" + a1, "|" + b1);
    SameLength("|", "|", a1, b1);
    DebugUuidReadsBack(a.auditDelegator, b.auditDelegator, x, y);
  }

  /** A user key can be read off any text that begins with it. */
  lemma UserKeyReadsBack(st: Style, a: Identity, b: Identity, x: string, y: string)
    requires st.Valid() && ValidPerms(a.perms) && ValidPerms(b.perms) && UserKey(st, a, x) == UserKey(st, b, y)
    ensures SameIdentity(a, b) && x == y
  {
    var f, g := if a.delegated then "1" else "0", if b.delegated then "1" else "0";
    var a1, b1 := AuditPart(st, a, x), AuditPart(st, b, y);
    var a2, b2 := PermsText(a.perms) + "|" + a1, PermsText(b.perms) + "|" + b1;
    UuidOrEmptyLacksBar(a.userId);
    UuidOrEmptyLacksBar(b.userId);
    SplitAt(UuidOrEmpty(a.userId), UuidOrEmpty(b.userId), '|', f + "|" + a2, g + "|" + b2);
    UuidOrEmptyReadsBack(a.userId, b.userId);
    SplitAt(f, g, '|', a2, b2);
    PermsAreJoinable(a.perms);
    PermsAreJoinable(b.perms);
    SplitAt(PermsText(a.perms), PermsText(b.perms), '|', a1, b1);
    PermsReadBack(a.perms, b.perms);
    AuditPartReadsBack(st, a, b, x, y);
  }

  lemma SameIdentitySameKey(st: Style, a: Identity, b: Identity, tail: string)
    requires ValidPerms(a.perms) && ValidPerms(b.perms) && SameIdentity(a, b)
    ensures UserKey(st, a, tail) == UserKey(st, b, tail)
  {
    PermsReadBack(a.perms, b.perms);
  }

  // ---- Public executions ----

  lemma VersionReadsBack(v: int, w: int)
    requires VersionText(v) == VersionText(w)
    ensures v == w
  {
    VersionChars(v);
    VersionChars(w);
    if v < 0 {
      SameLength("-", "-", NumberText(-v, false), NumberText(-w, false));
      NumberReadsBack(-v, -w, false);
    } else {
      NumberReadsBack(v, w, false);
    }
  }

  lemma VersionChars(v: int)
    ensures VersionText(v) != "" && (VersionText(v)[0] == '-' <==> v < 0)
    ensures forall i | 0 <= i < |VersionText(v)| :: VersionText(v)[i] == '-' || Alphanumeric(VersionText(v)[i])
  {
    var n := if v < 0 then -v else v;
    NumberHasOnlyDigits(n, false);
    TextLength(n, false);
  }

  lemma RevisionReadsBack(a: Revision, b: Revision)
    requires RevisionText(a) == RevisionText(b)
    ensures a == b
  {
    SameLength(a.id, b.id, "@" + VersionText(a.version), "@" + VersionText(b.version));
    SameLength("@", "@", VersionText(a.version), VersionText(b.version));
    VersionReadsBack(a.version, b.version);
  }

  lemma RevisionLacks(r: Revision)
    ensures RevisionText(r) != "" && ',' !in RevisionText(r) && '|' !in RevisionText(r)
  {
    UuidLacksBar(r.id);
    VersionChars(r.version);
  }

  lemma RevisionLeIsOrder()
    ensures TotalOrder(RevisionLe)
  {
    TextLeIsOrder();
  }

  lemma RevisionsReadBack(a: seq<Revision>, b: seq<Revision>)
    ensures RevisionsText(a) == RevisionsText(b) <==> multiset(a) == multiset(b)
    ensures '|' !in RevisionsText(a)
  {
    RevisionLeIsOrder();
    SortedSameIff(a, b, RevisionLe);
    var s, t := Sort(a, RevisionLe), Sort(b, RevisionLe);
    var p := seq(|s|, i requires 0 <= i < |s| => RevisionText(s[i]));
    var q := seq(|t|, i requires 0 <= i < |t| => RevisionText(t[i]));
    forall i | 0 <= i < |p| ensures p[i] != "" && ',' !in p[i] && '|' !in p[i] { RevisionLacks(s[i]); }
    forall i | 0 <= i < |q| ensures q[i] != "" && ',' !in q[i] { RevisionLacks(t[i]); }
    JoinHasOnly(p, ',', '|');
    if RevisionsText(a) == RevisionsText(b) {
      JoinReadsBack(p, q, ',');
      forall i | 0 <= i < |s| ensures s[i] == t[i] {
        assert p[i] == q[i];
        RevisionReadsBack(s[i], t[i]);
      }
      assert s == t;
    }
  }

  lemma RevisionsEndAtBar(a: seq<Revision>, b: seq<Revision>, x: string, y: string)
    requires x != "" && y != "" && x[0] == '|' && y[0] == '|' && RevisionsText(a) + x == RevisionsText(b) + y
    ensures multiset(a) == multiset(b) && x == y
  {
    var r, s := RevisionsText(a), RevisionsText(b);
    RevisionsReadBack(a, b);
    RevisionsReadBack(b, a);
    BarSplits(r, s, x, y);
  }

  lemma BarSplits(r: string, s: string, x: string, y: string)
    requires '|' !in r && '|' !in s && x != "" && y != "" && x[0] == '|' && y[0] == '|' && r + x == s + y
    ensures r == s && x == y
  {
    assert r + x == r + ['|'] + x[1..] && s + y == s + ['|'] + y[1..];
    SplitAt(r, s, '|', x[1..], y[1..]);
    assert x == ['|'] + x[1..] && y == ['|'] + y[1..];
  }

  lemma PublicKeyReadsBack(e: PublicExecution, f: PublicExecution, x: string, y: string)
    requires x != "" && y != "" && x[0] == '|' && y[0] == '|' && PublicKey(e, x) == PublicKey(f, y)
    ensures SamePrincipal(Public(e), Public(f)) && x == y
  {
    var e1, f1 := RevisionsText(e.publications) + x, RevisionsText(f.publications) + y;
    var e2, f2 := e.principal + (":" + e1), f.principal + (":" + f1);
    var e3, f3 := e.installation + (":" + e2), f.installation + (":" + f2);
    SameLength(e.principal + "|", f.principal + "|", "public:" + e3, "public:" + f3);
    SameLength(e.principal, f.principal, "|", "|");
    SameLength("public:", "public:", e3, f3);
    SameLength(e.installation, f.installation, ":" + e2, ":" + f2);
    SameLength(":", ":", e2, f2);
    SameLength(e.principal, f.principal, ":" + e1, ":" + f1);
    SameLength(":", ":", e1, f1);
    RevisionsEndAtBar(e.publications, f.publications, x, y);
  }

  // ---- Agent partitions ----

  function StringsRest(parts: seq<string>, tail: string): string
    requires parts != []
  {
    if |parts| == 1 then "]" + tail else "," + StringsText(parts[1..], tail)
  }

  lemma {:induction false} StringsReadBack(a: seq<string>, b: seq<string>, x: string, y: string)
    requires StringsText(a, x) == StringsText(b, y)
    ensures a == b && x == y
    decreases |a|
  {
    var s, t := StringsText(a, x), StringsText(b, y);
    assert s[0] == (if a == [] then ']' else '"') && t[0] == (if b == [] then ']' else '"');
    if a == [] {
      SameLength("]", "]", x, y);
    } else {
      var m, n := StringsRest(a, x), StringsRest(b, y);
      SameLength("\"", "\"", Quoted(JsonStyle(), a[0]) + m, Quoted(JsonStyle(), b[0]) + n);
      JsonStyleIsValid();
      QuotedReadsBack(JsonStyle(), a[0], b[0], m, n);
      assert m[0] == (if |a| == 1 then ']' else ',') && n[0] == (if |b| == 1 then ']' else ',');
      if |a| == 1 {
        SameLength("]", "]", x, y);
      } else {
        SameLength(",", ",", StringsText(a[1..], x), StringsText(b[1..], y));
        StringsReadBack(a[1..], b[1..], x, y);
        assert a == [a[0]] + a[1..] && b == [b[0]] + b[1..];
      }
    }
  }

  lemma OriginReadsBack(a: Option<string>, b: Option<string>, x: string, y: string)
    requires OriginText(a, x) == OriginText(b, y)
    ensures a == b && x == y
  {
    var s, t := OriginText(a, x), OriginText(b, y);
    assert s[0] == (if a.None? then 'n' else '"') && t[0] == (if b.None? then 'n' else '"');
    if a.None? {
      SameLength("null]", "null]", x, y);
    } else {
      JsonStyleIsValid();
      SameLength("\"", "\"", Quoted(JsonStyle(), a.value) + ("]" + x), Quoted(JsonStyle(), b.value) + ("]" + y));
      QuotedReadsBack(JsonStyle(), a.value, b.value, "]" + x, "]" + y);
      SameLength("]", "]", x, y);
    }
  }

  lemma PartitionReadsBack(a: Partition, b: Partition, x: string, y: string)
    requires PartitionText(a, x) == PartitionText(b, y)
    ensures a == b && x == y
  {
    var m, n := "," + OriginText(a.origin, x), "," + OriginText(b.origin, y);
    SameLength("[[", "[[", StringsText(a.agents, m), StringsText(b.agents, n));
    StringsReadBack(a.agents, b.agents, m, n);
    SameLength(",", ",", OriginText(a.origin, x), OriginText(b.origin, y));
    OriginReadsBack(a.origin, b.origin, x, y);
  }

  // ---- The whole key ----

  lemma InvocationReadsBack(i: Invocation, j: Invocation)
    requires ScopeText(i) == ScopeText(j)
    ensures i == j
  {
    SameLength("|scope=", "|scope=", InvocationKey(i), InvocationKey(j));
    var k, l := InvocationKey(i), InvocationKey(j);
    assert k[0] == (match i case Unscoped => ':' case Action(_) => 'a' case Job(_) => 'j');
    assert l[0] == (match j case Unscoped => ':' case Action(_) => 'a' case Job(_) => 'j');
    match i
    case Unscoped =>
    case Action(n) => SameLength("action:", "action:", n, j.name);
    case Job(n) => SameLength("job:", "job:", n, j.name);
  }

  datatype Family = Dotted | PublicFamily | UserFamily

  function FamilyOf(p: Principal): Family
  {
    match p
    case System => Dotted
    case Anonymous => Dotted
    case Public(_) => PublicFamily
    case User(_) => UserFamily
    case AgentRun(_, _) => UserFamily
  }

  /** The beginning of a key already tells the family of principals. */
  lemma FirstCharTells(st: Style, p: Principal, tail: string)
    ensures PrincipalKey(st, p, tail) != "" && (PrincipalKey(st, p, tail)[0] == '\U{00B7}' <==> FamilyOf(p).Dotted?)
  {
    match p
    case System =>
    case Anonymous =>
    case Public(e) => assert PublicKey(e, tail)[0] == e.principal[0]; UuidHas(e.principal, e.principal[0]);
    case User(s) => UserFirstChar(st, s, tail);
    case AgentRun(s, part) => UserFirstChar(st, s, "|agent=" + PartitionText(part, tail));
  }

  lemma UserFirstChar(st: Style, s: Identity, tail: string)
    ensures UserKey(st, s, tail) != "" && UserKey(st, s, tail)[0] != '\U{00B7}'
  {
    if s.userId.Some? {
      assert UserKey(st, s, tail)[0] == s.userId.value[0];
      UuidHas(s.userId.value, s.userId.value[0]);
    }
  }

  lemma PublicIsNoUser(st: Style, e: PublicExecution, s: Identity, x: string, y: string)
    ensures PublicKey(e, x) != UserKey(st, s, y)
  {
    var r := "public:" + (e.installation + (":" + (e.principal + (":" + (RevisionsText(e.publications) + x)))));
    var u := (if s.delegated then "1" else "0") + "|" + (PermsText(s.perms) + "|" + AuditPart(st, s, y));
    assert r[0] == 'p' && u[0] != 'p';
    UuidLacksBar(e.principal);
    UuidOrEmptyLacksBar(s.userId);
    if PublicKey(e, x) == UserKey(st, s, y) { SplitAt(e.principal, UuidOrEmpty(s.userId), '|', r, u); }
  }

  function UserTail(p: Principal, tail: string): string
  {
    if p.AgentRun? then "|agent=" + PartitionText(p.partition, tail) else tail
  }

  lemma UserTailReadsBack(p: Principal, q: Principal, i: Invocation, j: Invocation)
    requires FamilyOf(p).UserFamily? && FamilyOf(q).UserFamily? && UserTail(p, ScopeText(i)) == UserTail(q, ScopeText(j))
    ensures (p.AgentRun? <==> q.AgentRun?) && (p.AgentRun? ==> p.partition == q.partition) && i == j
  {
    var s, t := UserTail(p, ScopeText(i)), UserTail(q, ScopeText(j));
    assert s[1] == (if p.AgentRun? then 'a' else 's') && t[1] == (if q.AgentRun? then 'a' else 's');
    if p.AgentRun? {
      SameLength("|agent=", "|agent=", PartitionText(p.partition, ScopeText(i)), PartitionText(q.partition, ScopeText(j)));
      PartitionReadsBack(p.partition, q.partition, ScopeText(i), ScopeText(j));
    }
    InvocationReadsBack(i, j);
  }

  lemma DottedReadsBack(p: Principal, q: Principal, st: Style, i: Invocation, j: Invocation)
    requires FamilyOf(p).Dotted? && FamilyOf(q).Dotted? && PrincipalKey(st, p, ScopeText(i)) == PrincipalKey(st, q, ScopeText(j))
    ensures p == q && i == j
  {
    var s, t := PrincipalKey(st, p, ScopeText(i)), PrincipalKey(st, q, ScopeText(j));
    assert s[1] == (if p.System? then 's' else 'a') && t[1] == (if q.System? then 's' else 'a');
    var head := if p.System? then "\U{00B7}system" else "\U{00B7}anon";
    SameLength(head, head, ScopeText(i), ScopeText(j));
    InvocationReadsBack(i, j);
  }

  lemma PublicCase(e: PublicExecution, f: PublicExecution, i: Invocation, j: Invocation)
    requires PublicKey(e, ScopeText(i)) == PublicKey(f, ScopeText(j))
    ensures SamePrincipal(Public(e), Public(f)) && i == j
  {
    PublicKeyReadsBack(e, f, ScopeText(i), ScopeText(j));
    InvocationReadsBack(i, j);
  }

  lemma KeyTellsPrincipal(st: Style, p: Principal, q: Principal, i: Invocation, j: Invocation)
    requires st.Valid() && ValidPrincipal(p) && ValidPrincipal(q)
    requires PrincipalKey(st, p, ScopeText(i)) == PrincipalKey(st, q, ScopeText(j))
    ensures SamePrincipal(p, q) && i == j
  {
    FirstCharTells(st, p, ScopeText(i));
    FirstCharTells(st, q, ScopeText(j));
    if FamilyOf(p).Dotted? {
      DottedReadsBack(p, q, st, i, j);
    } else if p.Public? && q.Public? {
      PublicCase(p.execution, q.execution, i, j);
    } else if p.Public? {
      PublicIsNoUser(st, p.execution, q.identity, ScopeText(i), UserTail(q, ScopeText(j)));
    } else if q.Public? {
      PublicIsNoUser(st, q.execution, p.identity, ScopeText(j), UserTail(p, ScopeText(i)));
    } else {
      UserKeyReadsBack(st, p.identity, q.identity, UserTail(p, ScopeText(i)), UserTail(q, ScopeText(j)));
      UserTailReadsBack(p, q, i, j);
    }
  }

  /** Two requests get the same worker exactly when app, principal and scope agree; permissions
      count as a multiset, in any order. */
  lemma SameKeyIff(unprintable: char -> bool, app: string, p: Principal, i: Invocation, app': string, q: Principal, j: Invocation)
    requires ValidPrincipal(p) && ValidPrincipal(q)
    ensures KeyOf(unprintable, app, p, i) == KeyOf(unprintable, app', q, j) <==> app == app' && SamePrincipal(p, q) && i == j
  {
    var st := RustStyle(unprintable);
    RustStyleIsValid(unprintable);
    if KeyOf(unprintable, app, p, i) == KeyOf(unprintable, app', q, j) {
      KeyTellsPrincipal(st, p, q, i, j);
    }
    if SamePrincipal(p, q) {
      match p
      case System =>
      case Anonymous =>
      case Public(e) => RevisionsReadBack(e.publications, q.execution.publications);
      case User(s) => SameIdentitySameKey(st, s, q.identity, ScopeText(i));
      case AgentRun(s, part) => SameIdentitySameKey(st, s, q.identity, "|agent=" + PartitionText(part, ScopeText(i)));
    }
  }

  /** The charset of permission keys matters: with a comma allowed, two identities with different
      permissions would share a worker. */
  lemma CommaWouldCollide(unprintable: char -> bool, app: string, s: Identity, i: Invocation)
    ensures var a, b := s.(perms := ["a,b"]), s.(perms := ["a", "b"]);
            !SameIdentity(a, b) && KeyOf(unprintable, app, User(a), i) == KeyOf(unprintable, app, User(b), i)
  {
    assert "a,b" in multiset(["a,b"]) && "a,b" !in multiset(["a", "b"]);
    assert Sort(["a,b"], TextLe) == ["a,b"];
    assert Sort(["b"], TextLe) == ["b"];
    assert ["a", "b"][1..] == ["b"] && TextLe("a", "b");
    assert Sort(["a", "b"], TextLe) == ["a", "b"];
    assert Join(["b"], ',') == "b";
    assert Join(["a", "b"], ',') == "a,b";
  }

  // ---- Invalidation ----

  /** Does a permission change of this user concern the worker behind a key? */
  predicate BelongsTo(agentId: string -> Uuid, key: WorkerKey, user: Uuid)
  {
    agentId(key.app) == user || Selects(key.text, user)
  }

  function Owner(p: Principal): Option<Uuid>
  {
    match p
    case System => None
    case Anonymous => None
    case Public(e) => Some(e.principal)
    case User(s) => s.userId
    case AgentRun(s, _) => s.userId
  }

  lemma PrefixTells(first: string, rest: string, user: Uuid)
    requires '|' !in first
    ensures user + "|" <= first + "|" + rest <==> first == user
    ensures first + "|" + rest != user
  {
    var s := first + "|" + rest;
    UuidLacksBar(user);
    assert s[|first|] == '|' && '|' in s;
    if user + "|" <= s {
      var after := s[|user| + 1..];
      assert s == user + "|" + after;
      SplitAt(user, first, '|', after, rest);
    }
  }

  lemma PublicBelongs(e: PublicExecution, tail: string, user: Uuid)
    ensures Selects(PublicKey(e, tail), user) <==> e.principal == user
  {
    var rest := "public:" + (e.installation + (":" + (e.principal + (":" + (RevisionsText(e.publications) + tail)))));
    UuidLacksBar(e.principal);
    PrefixTells(e.principal, rest, user);
  }

  lemma UserBelongs(st: Style, s: Identity, tail: string, user: Uuid)
    ensures Selects(UserKey(st, s, tail), user) <==> s.userId == Some(user)
  {
    var rest := (if s.delegated then "1" else "0") + "|" + (PermsText(s.perms) + "|" + AuditPart(st, s, tail));
    UuidOrEmptyLacksBar(s.userId);
    PrefixTells(UuidOrEmpty(s.userId), rest, user);
  }

  predicate Selects(text: string, user: Uuid)
  {
    text == user || user + "|" <= text
  }

  /** Invalidation selects a worker exactly when it runs as that user or for that app's agent. */
  lemma InvalidationIsExact(unprintable: char -> bool, agentId: string -> Uuid, app: string, p: Principal, i: Invocation, user: Uuid)
    ensures BelongsTo(agentId, KeyOf(unprintable, app, p, i), user) <==> agentId(app) == user || Owner(p) == Some(user)
  {
    var st, tail := RustStyle(unprintable), ScopeText(i);
    match p
    case System => DottedBelongs(st, p, tail, user);
    case Anonymous => DottedBelongs(st, p, tail, user);
    case Public(e) => PublicBelongs(e, tail, user);
    case User(s) => UserBelongs(st, s, tail, user);
    case AgentRun(s, _) => UserBelongs(st, s, UserTail(p, tail), user);
  }

  lemma DottedBelongs(st: Style, p: Principal, tail: string, user: Uuid)
    requires FamilyOf(p).Dotted?
    ensures !Selects(PrincipalKey(st, p, tail), user)
  {
    DottedIsNoUser("system", tail, user);
    DottedIsNoUser("anon", tail, user);
    assert "\U{00B7}" + "system" == "\U{00B7}system" && "\U{00B7}" + "anon" == "\U{00B7}anon";
  }

  lemma DottedIsNoUser(name: string, tail: string, user: Uuid)
    ensures !Selects(("\U{00B7}" + name) + tail, user)
  {
    var s := ("\U{00B7}" + name) + tail;
    assert s[0] == '\U{00B7}';
    UuidHas(user, user[0]);
    assert (user + "|")[0] == user[0];
  }

  // ---- A partition is the JSON text of its pair ----

  function Strings(parts: seq<string>): seq<JsonText.Json>
  {
    seq(|parts|, i requires 0 <= i < |parts| => JsonText.Str(parts[i]))
  }

  lemma {:induction false} StringsAreItems(parts: seq<string>, tail: string)
    ensures StringsText(parts, tail) == JsonText.Items(Strings(parts)) + ("]" + tail)
    decreases |parts|
  {
    if parts != [] {
      StringsAreItems(parts[1..], tail);
      var js := Strings(parts);
      assert js[1..] == Strings(parts[1..]) && js[0] == JsonText.Str(parts[0]);
      var first := "\"" + Quoted(JsonStyle(), parts[0]);
      if |parts| == 1 {
        assert JsonText.Items(js) == first;
      } else {
        assert JsonText.Items(js) == first + ("," + JsonText.Items(js[1..]));
      }
    }
  }

  /** The text of a partition is that of the array of its agents and its origin, or null. */
  lemma PartitionIsJson(p: Partition, tail: string)
    ensures var origin := if p.origin.None? then JsonText.Null else JsonText.Str(p.origin.value);
            PartitionText(p, tail) == JsonText.Text(JsonText.Arr([JsonText.Arr(Strings(p.agents)), origin])) + tail
  {
    var origin := if p.origin.None? then JsonText.Null else JsonText.Str(p.origin.value);
    var agents := JsonText.Arr(Strings(p.agents));
    var rest := "," + OriginText(p.origin, tail);
    StringsAreItems(p.agents, rest);
    assert OriginText(p.origin, tail) == JsonText.Text(origin) + "]" + tail;
    JsonText.ItemsJoin([agents], [origin]);
    assert [agents] + [origin] == [agents, origin];
    var inner := JsonText.Items(Strings(p.agents));
    assert JsonText.Items([agents]) == "[" + inner + "]" && JsonText.Items([origin]) == JsonText.Text(origin);
    JoinedPair(inner, JsonText.Text(origin), tail);
  }

  lemma JoinedPair(inner: string, origin: string, tail: string)
    ensures "[[" + (inner + ("]" + ("," + (origin + "]" + tail)))) == "[" + ("[" + inner + "]" + "," + origin) + "]" + tail
  {
  }
}
