/** The compact text of JSON values: it is one line, and it can be read in only one way. */
module JsonText {
  import opened Common
  import opened Encoding

  datatype Json =
    | Null
    | Bool(b: bool)
    | Number(token: string)
    | Str(s: string)
    | Arr(items: seq<Json>)
    | Obj(fields: seq<Member>)

  datatype Member = Member(name: string, value: Json)

  predicate NumberChar(c: char)
  {
    '0' <= c <= '9' || c == '+' || c == '-' || c == '.' || c == 'e' || c == 'E'
  }

  /** A number token has no other characters than these. */
  predicate NumberToken(t: string)
  {
    t != "" && forall i | 0 <= i < |t| :: NumberChar(t[i])
  }

  ghost predicate Printable(j: Json)
  {
    match j
    case Number(t) => NumberToken(t)
    case Arr(items) => forall i | 0 <= i < |items| :: Printable(items[i])
    case Obj(fields) => forall i | 0 <= i < |fields| :: Printable(fields[i].value)
    case _ => true
  }

  function StringText(s: string): string
  {
    "\"" + Quoted(JsonStyle(), s)
  }

  /** The compact text of a value. */
  function Text(j: Json): string
  {
    match j
    case Null => "null"
    case Bool(b) => if b then "true" else "false"
    case Number(t) => t
    case Str(s) => StringText(s)
    case Arr(items) => "[" + Items(items) + "]"
    case Obj(fields) => "{" + Members(fields) + "}"
  }

  function Items(js: seq<Json>): string
  {
    if js == [] then "" else Text(js[0]) + (if |js| == 1 then "" else "," + Items(js[1..]))
  }

  function Members(ms: seq<Member>): string
  {
    if ms == [] then ""
    else StringText(ms[0].name) + ":" + Text(ms[0].value) + (if |ms| == 1 then "" else "," + Members(ms[1..]))
  }

  // ---- No text contains a newline ----

  lemma CodeHasNoNewline(c: char)
    ensures '\n' !in CodeOf(JsonStyle(), c)
  {
  }

  lemma {:induction false} QuotedHasNoNewline(s: string)
    ensures '\n' !in Quoted(JsonStyle(), s)
    decreases |s|
  {
    if s != "" {
      CodeHasNoNewline(s[0]);
      QuotedHasNoNewline(s[1..]);
    }
  }

  lemma {:induction false} TextIsOneLine(j: Json)
    requires Printable(j)
    ensures '\n' !in Text(j)
  {
    match j
    case Str(s) => QuotedHasNoNewline(s);
    case Arr(items) => ItemsAreOneLine(items);
    case Obj(fields) => MembersAreOneLine(fields);
    case _ =>
  }

  lemma {:induction false} ItemsAreOneLine(js: seq<Json>)
    requires forall i | 0 <= i < |js| :: Printable(js[i])
    ensures '\n' !in Items(js)
  {
    if js != [] {
      TextIsOneLine(js[0]);
      ItemsAreOneLine(js[1..]);
    }
  }

  lemma {:induction false} MembersAreOneLine(ms: seq<Member>)
    requires forall i | 0 <= i < |ms| :: Printable(ms[i].value)
    ensures '\n' !in Members(ms)
  {
    if ms != [] {
      QuotedHasNoNewline(ms[0].name);
      TextIsOneLine(ms[0].value);
      MembersAreOneLine(ms[1..]);
    }
  }

  // ---- A text is the text of one value ----

  /** What may follow a value: not one more character of a number. */
  predicate Ends(x: string)
  {
    x == "" || !NumberChar(x[0])
  }

  /** The character a text begins with tells the kind of value. */
  function FirstOf(j: Json): char
    requires j.Number? ==> j.token != ""
  {
    match j
    case Null => 'n'
    case Bool(b) => if b then 't' else 'f'
    case Number(t) => t[0]
    case Str(_) => '"'
    case Arr(_) => '['
    case Obj(_) => '{'
  }

  lemma TextStarts(j: Json, x: string)
    requires j.Number? ==> j.token != ""
    ensures Text(j) + x != "" && (Text(j) + x)[0] == FirstOf(j)
  {
  }

  lemma FirstTellsKind(a: Json, b: Json)
    requires Printable(a) && Printable(b) && FirstOf(a) == FirstOf(b)
    ensures (a.Null? <==> b.Null?) && (a.Number? <==> b.Number?) && (a.Str? <==> b.Str?) && (a.Arr? <==> b.Arr?) && (a.Obj? <==> b.Obj?)
    ensures a.Bool? ==> a == b
  {
  }

  lemma NumberEnds(s: string, t: string, x: string, y: string)
    requires NumberToken(t) && Ends(x) && s + x == t + y
    ensures |t| <= |s|
  {
    assert forall i | 0 <= i < |t| :: (t + y)[i] == t[i];
    if x != "" { assert (s + x)[|s|] == x[0]; }
  }

  lemma NumbersReadBack(s: string, t: string, x: string, y: string)
    requires NumberToken(s) && NumberToken(t) && Ends(x) && Ends(y) && s + x == t + y
    ensures s == t && x == y
  {
    NumberEnds(s, t, x, y);
    NumberEnds(t, s, y, x);
    SameLength(s, t, x, y);
  }

  lemma StringReadsBack(s: string, t: string, x: string, y: string)
    requires StringText(s) + x == StringText(t) + y
    ensures s == t && x == y
  {
    var q, r := Quoted(JsonStyle(), s) + x, Quoted(JsonStyle(), t) + y;
    assert StringText(s) + x == "\"" + q && StringText(t) + y == "\"" + r;
    SameLength("\"", "\"", q, r);
    JsonStyleIsValid();
    QuotedReadsBack(JsonStyle(), s, t, x, y);
  }

  lemma SameList<T>(a: seq<T>, b: seq<T>)
    requires a != [] && b != [] && a[0] == b[0] && if |a| == 1 then |b| == 1 else a[1..] == b[1..]
    ensures a == b
  {
    assert a == [a[0]] + a[1..] && b == [b[0]] + b[1..];
  }

  lemma Enclosed(open: string, inner: string, close: string, x: string)
    ensures open + inner + close + x == open + (inner + (close + x))
  {
  }

  lemma OpenArrays(js: seq<Json>, ks: seq<Json>, x: string, y: string)
    requires Text(Arr(js)) + x == Text(Arr(ks)) + y
    ensures Items(js) + ("]" + x) == Items(ks) + ("]" + y)
  {
    Enclosed("[", Items(js), "]", x);
    Enclosed("[", Items(ks), "]", y);
    SameLength("[", "[", Items(js) + ("]" + x), Items(ks) + ("]" + y));
  }

  lemma OpenObjects(ms: seq<Member>, ns: seq<Member>, x: string, y: string)
    requires Text(Obj(ms)) + x == Text(Obj(ns)) + y
    ensures Members(ms) + ("}" + x) == Members(ns) + ("}" + y)
  {
    Enclosed("{", Members(ms), "}", x);
    Enclosed("{", Members(ns), "}", y);
    SameLength("{", "{", Members(ms) + ("}" + x), Members(ns) + ("}" + y));
  }

  /** Two texts, each followed by what may follow a value, agree only if the values and what follows
      agree. */
  lemma {:induction false} TextReadsBack(a: Json, b: Json, x: string, y: string)
    requires Printable(a) && Printable(b) && Ends(x) && Ends(y) && Text(a) + x == Text(b) + y
    ensures a == b && x == y
  {
    TextStarts(a, x);
    TextStarts(b, y);
    FirstTellsKind(a, b);
    match a
    case Number(t) => NumbersReadBack(t, b.token, x, y);
    case Str(s) => StringReadsBack(s, b.s, x, y);
    case Arr(items) =>
      OpenArrays(items, b.items, x, y);
      ItemsReadBack(items, b.items, x, y);
    case Obj(fields) =>
      OpenObjects(fields, b.fields, x, y);
      MembersReadBack(fields, b.fields, x, y);
    case _ => SameLength(Text(a), Text(b), x, y);
  }

  /** What follows the first of several items. */
  function AfterItem(js: seq<Json>, x: string): string
    requires js != []
  {
    if |js| == 1 then "]" + x else "," + (Items(js[1..]) + ("]" + x))
  }

  lemma NextItems(js: seq<Json>, ks: seq<Json>, x: string, y: string)
    requires js != [] && ks != [] && AfterItem(js, x) == AfterItem(ks, y)
    ensures if |js| == 1 then |ks| == 1 && x == y else |ks| > 1 && Items(js[1..]) + ("]" + x) == Items(ks[1..]) + ("]" + y)
  {
    assert AfterItem(js, x)[0] == (if |js| == 1 then ']' else ',') && AfterItem(ks, y)[0] == (if |ks| == 1 then ']' else ',');
    if |js| == 1 {
      SameLength("]", "]", x, y);
    } else {
      SameLength(",", ",", Items(js[1..]) + ("]" + x), Items(ks[1..]) + ("]" + y));
    }
  }

  lemma ItemsStep(js: seq<Json>, x: string)
    requires js != []
    ensures Items(js) + ("]" + x) == Text(js[0]) + AfterItem(js, x)
  {
  }

  lemma ItemsStart(js: seq<Json>, x: string)
    requires forall i | 0 <= i < |js| :: Printable(js[i])
    ensures var s := Items(js) + ("]" + x); s != "" && (s[0] == ']' <==> js == [])
  {
    if js != [] {
      ItemsStep(js, x);
      TextStarts(js[0], AfterItem(js, x));
      assert Printable(js[0]);
    }
  }

  lemma {:induction false} ItemsReadBack(js: seq<Json>, ks: seq<Json>, x: string, y: string)
    requires (forall i | 0 <= i < |js| :: Printable(js[i])) && (forall i | 0 <= i < |ks| :: Printable(ks[i]))
    requires Items(js) + ("]" + x) == Items(ks) + ("]" + y)
    ensures js == ks && x == y
  {
    ItemsStart(js, x);
    ItemsStart(ks, y);
    if js == [] {
      assert Items(js) + ("]" + x) == "]" + x && Items(ks) + ("]" + y) == "]" + y;
      SameLength("]", "]", x, y);
    } else {
      ItemsStep(js, x);
      ItemsStep(ks, y);
      TextReadsBack(js[0], ks[0], AfterItem(js, x), AfterItem(ks, y));
      NextItems(js, ks, x, y);
      if |js| > 1 { ItemsReadBack(js[1..], ks[1..], x, y); }
      SameList(js, ks);
    }
  }

  function AfterMember(ms: seq<Member>, x: string): string
    requires ms != []
  {
    if |ms| == 1 then "}" + x else "," + (Members(ms[1..]) + ("}" + x))
  }

  lemma NextMembers(ms: seq<Member>, ns: seq<Member>, x: string, y: string)
    requires ms != [] && ns != [] && AfterMember(ms, x) == AfterMember(ns, y)
    ensures if |ms| == 1 then |ns| == 1 && x == y else |ns| > 1 && Members(ms[1..]) + ("}" + x) == Members(ns[1..]) + ("}" + y)
  {
    assert AfterMember(ms, x)[0] == (if |ms| == 1 then '}' else ',') && AfterMember(ns, y)[0] == (if |ns| == 1 then '}' else ',');
    if |ms| == 1 {
      SameLength("}", "}", x, y);
    } else {
      SameLength(",", ",", Members(ms[1..]) + ("}" + x), Members(ns[1..]) + ("}" + y));
    }
  }

  lemma MembersStep(ms: seq<Member>, x: string)
    requires ms != []
    ensures Members(ms) + ("}" + x) == StringText(ms[0].name) + (":" + (Text(ms[0].value) + AfterMember(ms, x)))
  {
    var rest := if |ms| == 1 then "" else "," + Members(ms[1..]);
    assert rest + ("}" + x) == AfterMember(ms, x);
    Enclosed(StringText(ms[0].name), ":", Text(ms[0].value) + rest, "}" + x);
    Enclosed(StringText(ms[0].name) + ":", Text(ms[0].value), rest, "}" + x);
  }

  lemma MembersStart(ms: seq<Member>, x: string)
    ensures var s := Members(ms) + ("}" + x); s != "" && (s[0] == '}' <==> ms == []) && (ms == [] ==> s == "}" + x)
  {
    if ms != [] {
      MembersStep(ms, x);
      assert StringText(ms[0].name)[0] == '"';
    }
  }

  lemma FirstNames(ms: seq<Member>, ns: seq<Member>, x: string, y: string)
    requires ms != [] && ns != [] && Members(ms) + ("}" + x) == Members(ns) + ("}" + y)
    ensures ms[0].name == ns[0].name && Text(ms[0].value) + AfterMember(ms, x) == Text(ns[0].value) + AfterMember(ns, y)
  {
    var p, q := Text(ms[0].value) + AfterMember(ms, x), Text(ns[0].value) + AfterMember(ns, y);
    MembersStep(ms, x);
    MembersStep(ns, y);
    StringReadsBack(ms[0].name, ns[0].name, ":" + p, ":" + q);
    SameLength(":", ":", p, q);
  }

  lemma {:induction false} MembersReadBack(ms: seq<Member>, ns: seq<Member>, x: string, y: string)
    requires (forall i | 0 <= i < |ms| :: Printable(ms[i].value)) && (forall i | 0 <= i < |ns| :: Printable(ns[i].value))
    requires Members(ms) + ("}" + x) == Members(ns) + ("}" + y)
    ensures ms == ns && x == y
  {
    MembersStart(ms, x);
    MembersStart(ns, y);
    if ms == [] {
      SameLength("}", "}", x, y);
    } else {
      FirstNames(ms, ns, x, y);
      TextReadsBack(ms[0].value, ns[0].value, AfterMember(ms, x), AfterMember(ns, y));
      NextMembers(ms, ns, x, y);
      if |ms| > 1 { MembersReadBack(ms[1..], ns[1..], x, y); }
      SameList(ms, ns);
    }
  }

  /** No two values have the same text, so a parser can undo the printer. */
  lemma SameTextIff(a: Json, b: Json)
    requires Printable(a) && Printable(b)
    ensures Text(a) == Text(b) <==> a == b
  {
    if Text(a) == Text(b) {
      assert Text(a) + "" == Text(a) && Text(b) + "" == Text(b);
      TextReadsBack(a, b, "", "");
    }
  }

  /** The value a text stands for. */
  ghost function ValueOf(t: string): Option<Json>
  {
    if exists j :: Printable(j) && Text(j) == t then var j :| Printable(j) && Text(j) == t; Some(j) else None
  }

  lemma ParserUndoesPrinter(j: Json)
    requires Printable(j)
    ensures ValueOf(Text(j)) == Some(j)
  {
    var k :| Printable(k) && Text(k) == Text(j) && ValueOf(Text(j)) == Some(k);
    SameTextIff(k, j);
  }

  // ---- The text itself ----

  /** The escapes of section 7 of RFC 8259, in the short form where there is one. */
  lemma EscapesAre(c: char)
    ensures CodeOf(JsonStyle(), c) ==
            if c == '"' then "\\\""
            else if c == '\\' then "\\\\"
            else if c == '\n' then "\\n"
            else if c == '\r' then "\\r"
            else if c == '\t' then "\\t"
            else if c as int == 8 then "\\b"
            else if c as int == 12 then "\\f"
            else if c as int >= 32 then [c]
            else "\\u00" + [if c as int < 16 then '0' else '1', "0123456789abcdef"[c as int % 16]]
  {
    var n := c as int;
    if n < 32 {
      assert n / 16 % 16 == if n < 16 then 0 else 1;
      assert DigitChar(n % 16) == "0123456789abcdef"[n % 16];
    }
  }

  lemma JoinThree(a: string, b: string, c: string)
    ensures a + ("," + (b + "," + c)) == a + ("," + b) + "," + c
  {
  }

  lemma ItemsHead(js: seq<Json>)
    requires |js| > 1
    ensures Items(js) == Text(js[0]) + ("," + Items(js[1..]))
  {
  }

  lemma ItemsOne(j: Json)
    ensures Items([j]) == Text(j)
  {
  }

  /** Items are joined by commas. */
  lemma {:induction false} ItemsJoin(xs: seq<Json>, ys: seq<Json>)
    requires xs != [] && ys != []
    ensures Items(xs + ys) == Items(xs) + "," + Items(ys)
    decreases |xs|
  {
    var all := xs + ys;
    assert all[0] == xs[0];
    ItemsHead(all);
    if |xs| == 1 {
      assert all[1..] == ys && xs == [xs[0]];
      ItemsOne(xs[0]);
    } else {
      assert all[1..] == xs[1..] + ys;
      ItemsJoin(xs[1..], ys);
      ItemsHead(xs);
      JoinThree(Text(xs[0]), Items(xs[1..]), Items(ys));
    }
  }

  function MemberText(m: Member): string
  {
    StringText(m.name) + ":" + Text(m.value)
  }

  lemma MembersHead(ms: seq<Member>)
    requires |ms| > 1
    ensures Members(ms) == MemberText(ms[0]) + ("," + Members(ms[1..]))
  {
  }

  lemma MembersOne(m: Member)
    ensures Members([m]) == MemberText(m)
  {
  }

  lemma {:induction false} MembersJoin(ms: seq<Member>, ns: seq<Member>)
    requires ms != [] && ns != []
    ensures Members(ms + ns) == Members(ms) + "," + Members(ns)
    decreases |ms|
  {
    var all := ms + ns;
    assert all[0] == ms[0];
    MembersHead(all);
    if |ms| == 1 {
      assert all[1..] == ns && ms == [ms[0]];
      MembersOne(ms[0]);
    } else {
      assert all[1..] == ms[1..] + ns;
      MembersJoin(ms[1..], ns);
      MembersHead(ms);
      JoinThree(MemberText(ms[0]), Members(ms[1..]), Members(ns));
    }
  }

  /** Arrays: items between brackets, joined by commas. */
  lemma ArraysAre(xs: seq<Json>, ys: seq<Json>, j: Json)
    requires xs != [] && ys != []
    ensures Text(Arr([])) == "[]" && Text(Arr([j])) == "[" + Text(j) + "]"
    ensures Text(Arr(xs + ys)) == "[" + (Items(xs) + "," + Items(ys)) + "]"
  {
    ItemsOne(j);
    ItemsJoin(xs, ys);
  }

  /** Objects: names and values between braces, joined by commas. */
  lemma ObjectsAre(ms: seq<Member>, ns: seq<Member>, m: Member)
    requires ms != [] && ns != []
    ensures Text(Obj([])) == "{}" && Text(Obj([m])) == "{" + ("\"" + Quoted(JsonStyle(), m.name) + ":" + Text(m.value)) + "}"
    ensures Text(Obj(ms + ns)) == "{" + (Members(ms) + "," + Members(ns)) + "}"
  {
    MembersOne(m);
    MembersJoin(ms, ns);
  }

  /** The words of JSON, and a number as it is. */
  lemma WordsAre(t: string)
    ensures Text(Null) == "null" && Text(Bool(true)) == "true" && Text(Bool(false)) == "false" && Text(Number(t)) == t
  {
  }
}
