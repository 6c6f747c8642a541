/** Texts that can be read back from the left: delimiters, numbers, quoted strings and joined
    lists.  Each lemma says that two encodings followed by anything agree only when the encoded
    values agree, and then so do the remainders. */
module Encoding {
  import opened Common

  // ---- Delimiters ----

  /** A part without the delimiter ends at the first delimiter. */
  lemma {:induction false} SplitAt(a: string, b: string, d: char, x: string, y: string)
    requires d !in a && d !in b && a + [d] + x == b + [d] + y
    ensures a == b && x == y
    decreases |a|
  {
    var s, t := a + [d] + x, b + [d] + y;
    assert s[0] == (if a == [] then d else a[0]) && t[0] == (if b == [] then d else b[0]);
    assert (a != [] ==> a[0] in a) && (b != [] ==> b[0] in b);
    assert a == [] <==> b == [];
    if a == [] {
      assert x == s[1..] && y == t[1..];
    } else {
      assert s[1..] == a[1..] + [d] + x && t[1..] == b[1..] + [d] + y;
      SplitAt(a[1..], b[1..], d, x, y);
      assert a == [a[0]] + a[1..] && b == [b[0]] + b[1..];
    }
  }

  lemma SameLength(a: string, b: string, x: string, y: string)
    requires |a| == |b| && a + x == b + y
    ensures a == b && x == y
  {
    assert a == (a + x)[..|a|] && b == (b + y)[..|b|];
    assert x == (a + x)[|a|..] && y == (b + y)[|b|..];
  }

  // ---- Numbers ----

  lemma DigitsDiffer(a: nat, b: nat)
    requires a < 16 && b < 16 && DigitChar(a) == DigitChar(b)
    ensures a == b
  {
  }

  lemma QuotientAndRest(m: nat, n: nat, hex: bool)
    requires Quotient(m, hex) == Quotient(n, hex) && Remainder(m, hex) == Remainder(n, hex)
    ensures m == n
  {
  }

  lemma {:induction false} NumberReadsBack(m: nat, n: nat, hex: bool)
    requires NumberText(m, hex) == NumberText(n, hex)
    ensures m == n
    decreases m
  {
    TextLength(m, hex);
    TextLength(n, hex);
    if OneDigit(m, hex) {
      DigitsDiffer(m, n);
    } else {
      var a, b := Quotient(m, hex), Quotient(n, hex);
      SnocReadsBack(NumberText(a, hex), DigitChar(Remainder(m, hex)), NumberText(b, hex), DigitChar(Remainder(n, hex)));
      DigitsDiffer(Remainder(m, hex), Remainder(n, hex));
      NumberReadsBack(a, b, hex);
      QuotientAndRest(m, n, hex);
    }
  }

  lemma SnocReadsBack(s: string, c: char, t: string, d: char)
    requires s + [c] == t + [d]
    ensures s == t && c == d
  {
    assert s == (s + [c])[..|s|] && t == (t + [d])[..|t|];
    assert c == (s + [c])[|s|] && d == (t + [d])[|t|];
  }

  lemma {:induction false} TextLength(n: nat, hex: bool)
    ensures |NumberText(n, hex)| >= 1 && (OneDigit(n, hex) <==> |NumberText(n, hex)| == 1)
    decreases n
  {
    if !OneDigit(n, hex) { TextLength(Quotient(n, hex), hex); }
  }

  predicate Alphanumeric(c: char)
  {
    '0' <= c <= '9' || 'a' <= c <= 'f'
  }

  lemma {:induction false} NumberHasOnlyDigits(n: nat, hex: bool)
    ensures forall i | 0 <= i < |NumberText(n, hex)| :: Alphanumeric(NumberText(n, hex)[i])
    decreases n
  {
    if !OneDigit(n, hex) { NumberHasOnlyDigits(Quotient(n, hex), hex); }
  }

  // ---- Quoted strings ----

  /** Escapes for one character: a short form for some, a numeric form for others, or none. */
  datatype Escape = Plain | Short(letter: char) | Numeric

  /** A quoting style.  The numeric form is the number in hexadecimal: between braces in Rust,
      padded to four digits in JSON. */
  datatype Style = Style(escape: char -> Escape, padded: bool)
  {
    /** Quotes and backslashes are always escaped, and short letters tell characters apart. */
    ghost predicate Valid()
    {
      && (forall c :: escape(c) == Plain ==> c != '"' && c != '\\')
      && (forall c :: escape(c).Short? ==> escape(c).letter != 'u')
      && (forall c, d :: escape(c).Short? && escape(c) == escape(d) ==> c == d)
      && (padded ==> forall c :: escape(c).Numeric? ==> c as int < 256)
    }
  }

  function CodeOf(st: Style, c: char): string
  {
    match st.escape(c)
    case Plain => [c]
    case Short(l) => ['\\', l]
    case Numeric =>
      if st.padded then "\\u00" + [DigitChar(c as int / 16 % 16), DigitChar(c as int % 16)] else "\\u{" + NumberText(c as int, true) + "}"
  }

  function Quoted(st: Style, s: string): string
  {
    if s == "" then "\"" else CodeOf(st, s[0]) + Quoted(st, s[1..])
  }

  lemma PaddedReadsBack(c: char, d: char)
    requires c as int < 256 && d as int < 256
    requires DigitChar(c as int / 16 % 16) == DigitChar(d as int / 16 % 16) && DigitChar(c as int % 16) == DigitChar(d as int % 16)
    ensures c == d
  {
    DigitsDiffer(c as int / 16 % 16, d as int / 16 % 16);
    DigitsDiffer(c as int % 16, d as int % 16);
  }

  lemma BracedReadsBack(c: char, d: char, x: string, y: string)
    requires "\\u{" + NumberText(c as int, true) + "}" + x == "\\u{" + NumberText(d as int, true) + "}" + y
    ensures c == d
  {
    var h, k := NumberText(c as int, true), NumberText(d as int, true);
    NumberHasOnlyDigits(c as int, true);
    NumberHasOnlyDigits(d as int, true);
    assert "\\u{" + h + "}" + x == "\\u{" + (h + ['}'] + x) && "\\u{" + k + "}" + y == "\\u{" + (k + ['}'] + y);
    SameLength("\\u{", "\\u{", h + ['}'] + x, k + ['}'] + y);
    SplitAt(h, k, '}', x, y);
    NumberReadsBack(c as int, d as int, true);
  }

  lemma NumericReadsBack(st: Style, c: char, d: char, x: string, y: string)
    requires st.Valid() && st.escape(c).Numeric? && st.escape(d).Numeric?
    requires CodeOf(st, c) + x == CodeOf(st, d) + y
    ensures c == d
  {
    if st.padded {
      SameLength(CodeOf(st, c), CodeOf(st, d), x, y);
      assert CodeOf(st, c)[4] == CodeOf(st, d)[4] && CodeOf(st, c)[5] == CodeOf(st, d)[5];
      PaddedReadsBack(c, d);
    } else {
      BracedReadsBack(c, d, x, y);
    }
  }

  /** The code of a character can be told from the code of any other, whatever follows. */
  lemma CodeReadsBack(st: Style, c: char, d: char, x: string, y: string)
    requires st.Valid() && CodeOf(st, c) + x == CodeOf(st, d) + y
    ensures c == d && x == y
  {
    var s, t := CodeOf(st, c) + x, CodeOf(st, d) + y;
    assert s[0] == CodeOf(st, c)[0] && t[0] == CodeOf(st, d)[0];
    if st.escape(c).Plain? || st.escape(d).Plain? {
      assert st.escape(c).Plain? ==> s[0] == c;
      assert st.escape(d).Plain? ==> t[0] == d;
    } else {
      assert s[1] == CodeOf(st, c)[1] && t[1] == CodeOf(st, d)[1];
      assert st.escape(c).Short? <==> s[1] != 'u';
      assert st.escape(d).Short? <==> t[1] != 'u';
      if st.escape(c).Numeric? { NumericReadsBack(st, c, d, x, y); }
    }
    SameLength(CodeOf(st, c), CodeOf(st, d), x, y);
  }

  lemma CodeIsNoQuote(st: Style, c: char)
    requires st.Valid()
    ensures CodeOf(st, c) != "" && CodeOf(st, c)[0] != '"'
  {
  }

  lemma {:induction false} QuotedReadsBack(st: Style, s: string, t: string, x: string, y: string)
    requires st.Valid() && Quoted(st, s) + x == Quoted(st, t) + y
    ensures s == t && x == y
    decreases |s|
  {
    QuotedStarts(st, s, x);
    QuotedStarts(st, t, y);
    assert s == "" <==> t == "";
    if s == "" {
      SameLength("\"", "\"", x, y);
    } else {
      QuotedStep(st, s, x);
      QuotedStep(st, t, y);
      CodeReadsBack(st, s[0], t[0], Quoted(st, s[1..]) + x, Quoted(st, t[1..]) + y);
      QuotedReadsBack(st, s[1..], t[1..], x, y);
      assert s == [s[0]] + s[1..] && t == [t[0]] + t[1..];
    }
  }

  lemma QuotedStep(st: Style, s: string, x: string)
    requires s != ""
    ensures Quoted(st, s) + x == CodeOf(st, s[0]) + (Quoted(st, s[1..]) + x)
  {
  }

  /** Only the end of a string begins with the quote. */
  lemma QuotedStarts(st: Style, s: string, x: string)
    requires st.Valid()
    ensures Quoted(st, s) + x != "" && ((Quoted(st, s) + x)[0] == '"' <==> s == "")
  {
    if s != "" { CodeIsNoQuote(st, s[0]); }
  }

  /** How a JSON string is escaped: quotes, backslashes and control characters. */
  function JsonStyle(): Style
  {
    Style(c =>
        if c == '"' || c == '\\' then Short(c)
        else if c == '\U{0008}' then Short('b')
        else if c == '\U{000C}' then Short('f')
        else if c == '\t' then Short('t')
        else if c == '\r' then Short('r')
        else if c == '\n' then Short('n')
        else if c < ' ' then Numeric
        else Plain,
      true)
  }

  lemma JsonStyleIsValid()
    ensures JsonStyle().Valid()
  {
  }

  // ---- Joined lists ----

  function Join(parts: seq<string>, d: char): string
  {
    if parts == [] then "" else if |parts| == 1 then parts[0] else parts[0] + [d] + Join(parts[1..], d)
  }

  ghost predicate Joinable(parts: seq<string>, d: char)
  {
    forall i | 0 <= i < |parts| :: parts[i] != "" && d !in parts[i]
  }

  lemma {:induction false} JoinReadsBack(a: seq<string>, b: seq<string>, d: char)
    requires Joinable(a, d) && Joinable(b, d) && Join(a, d) == Join(b, d)
    ensures a == b
    decreases |a|
  {
    JoinStarts(a, d);
    JoinStarts(b, d);
    if a != [] {
      var x, y := if |a| == 1 then "" else Join(a[1..], d) + [d], if |b| == 1 then "" else Join(b[1..], d) + [d];
      assert Join(a, d) + [d] == a[0] + [d] + x by { JoinWithEnd(a, d); }
      assert Join(b, d) + [d] == b[0] + [d] + y by { JoinWithEnd(b, d); }
      SplitAt(a[0], b[0], d, x, y);
      assert (|a| == 1) == (|b| == 1);
      if |a| > 1 {
        SnocReadsBack(Join(a[1..], d), d, Join(b[1..], d), d);
        JoinReadsBack(a[1..], b[1..], d);
      }
      assert a == [a[0]] + a[1..] && b == [b[0]] + b[1..];
    }
  }

  lemma JoinStarts(a: seq<string>, d: char)
    requires Joinable(a, d)
    ensures Join(a, d) == "" <==> a == []
  {
  }

  lemma JoinWithEnd(a: seq<string>, d: char)
    requires a != []
    ensures Join(a, d) + [d] == a[0] + [d] + if |a| == 1 then "" else Join(a[1..], d) + [d]
  {
  }

  lemma {:induction false} JoinHasOnly(a: seq<string>, d: char, bad: char)
    requires bad != d && forall i | 0 <= i < |a| :: bad !in a[i]
    ensures bad !in Join(a, d)
    decreases |a|
  {
    if |a| > 1 { JoinHasOnly(a[1..], d, bad); }
  }

  // ---- Sorting ----

  ghost predicate TotalOrder<T(!new)>(le: (T, T) -> bool)
  {
    && (forall a, b :: le(a, b) || le(b, a))
    && (forall a, b :: le(a, b) && le(b, a) ==> a == b)
    && (forall a, b, c :: le(a, b) && le(b, c) ==> le(a, c))
  }

  function Insert<T>(x: T, s: seq<T>, le: (T, T) -> bool): seq<T>
  {
    if s == [] then [x] else if le(x, s[0]) then [x] + s else [s[0]] + Insert(x, s[1..], le)
  }

  function Sort<T>(s: seq<T>, le: (T, T) -> bool): seq<T>
  {
    if s == [] then [] else Insert(s[0], Sort(s[1..], le), le)
  }

  ghost predicate Sorted<T>(s: seq<T>, le: (T, T) -> bool)
  {
    forall i, j | 0 <= i < j < |s| :: le(s[i], s[j])
  }

  lemma {:induction false} InsertKeeps<T>(x: T, s: seq<T>, le: (T, T) -> bool)
    ensures multiset(Insert(x, s, le)) == multiset(s) + multiset{x}
    decreases |s|
  {
    if s != [] {
      assert s == [s[0]] + s[1..];
      if !le(x, s[0]) { InsertKeeps(x, s[1..], le); }
    }
  }

  ghost predicate Below<T>(x: T, s: seq<T>, le: (T, T) -> bool)
  {
    forall i | 0 <= i < |s| :: le(x, s[i])
  }

  lemma ConsSorted<T>(x: T, s: seq<T>, le: (T, T) -> bool)
    requires Sorted(s, le) && Below(x, s, le)
    ensures Sorted([x] + s, le)
  {
    var t := [x] + s;
    forall i, j | 0 <= i < j < |t| ensures le(t[i], t[j]) {
      if i > 0 { assert le(s[i - 1], s[j - 1]); }
    }
  }

  lemma BelowInsert<T>(y: T, x: T, s: seq<T>, le: (T, T) -> bool)
    requires Below(y, s, le) && le(y, x)
    ensures Below(y, Insert(x, s, le), le)
  {
    var r := Insert(x, s, le);
    InsertKeeps(x, s, le);
    forall i | 0 <= i < |r| ensures le(y, r[i]) {
      assert r[i] in multiset(r);
      assert r[i] == x || r[i] in s;
    }
  }

  lemma {:induction false} InsertSorts<T(!new)>(x: T, s: seq<T>, le: (T, T) -> bool)
    requires TotalOrder(le) && Sorted(s, le)
    ensures Sorted(Insert(x, s, le), le)
    decreases |s|
  {
    if s != [] {
      if le(x, s[0]) {
        forall i | 0 <= i < |s| ensures le(x, s[i]) { if i > 0 { assert le(s[0], s[i]); } }
        ConsSorted(x, s, le);
      } else {
        InsertSorts(x, s[1..], le);
        BelowInsert(s[0], x, s[1..], le);
        ConsSorted(s[0], Insert(x, s[1..], le), le);
      }
    }
  }

  lemma {:induction false} SortSorts<T(!new)>(s: seq<T>, le: (T, T) -> bool)
    requires TotalOrder(le)
    ensures Sorted(Sort(s, le), le) && multiset(Sort(s, le)) == multiset(s)
    decreases |s|
  {
    if s != [] {
      SortSorts(s[1..], le);
      InsertSorts(s[0], Sort(s[1..], le), le);
      InsertKeeps(s[0], Sort(s[1..], le), le);
      assert s == [s[0]] + s[1..];
    }
  }

  /** A sorted sequence is determined by what it contains. */
  lemma {:induction false} SortedIsUnique<T(!new)>(a: seq<T>, b: seq<T>, le: (T, T) -> bool)
    requires TotalOrder(le) && Sorted(a, le) && Sorted(b, le) && multiset(a) == multiset(b)
    ensures a == b
    decreases |a|
  {
    SameSize(a, b);
    if a != [] {
      FirstsAgree(a, b, le);
      TailsAgree(a, b);
      SortedIsUnique(a[1..], b[1..], le);
      assert a == [a[0]] + a[1..] && b == [b[0]] + b[1..];
    }
  }

  lemma TailsAgree<T>(a: seq<T>, b: seq<T>)
    requires a != [] && b != [] && a[0] == b[0] && multiset(a) == multiset(b)
    ensures multiset(a[1..]) == multiset(b[1..])
  {
    assert a == [a[0]] + a[1..] && b == [b[0]] + b[1..];
    assert multiset(a[1..]) == multiset(a) - multiset{a[0]} && multiset(b[1..]) == multiset(b) - multiset{a[0]};
  }

  lemma SameSize<T>(a: seq<T>, b: seq<T>)
    requires multiset(a) == multiset(b)
    ensures |a| == |b|
  {
    assert |multiset(a)| == |multiset(b)|;
  }

  lemma FirstsAgree<T(!new)>(a: seq<T>, b: seq<T>, le: (T, T) -> bool)
    requires TotalOrder(le) && Sorted(a, le) && Sorted(b, le) && multiset(a) == multiset(b) && a != [] && b != []
    ensures a[0] == b[0]
  {
    assert a[0] in multiset(a) && b[0] in multiset(b);
    LeastFirst(a, b[0], le);
    LeastFirst(b, a[0], le);
  }

  lemma LeastFirst<T(!new)>(a: seq<T>, x: T, le: (T, T) -> bool)
    requires TotalOrder(le) && Sorted(a, le) && x in multiset(a)
    ensures le(a[0], x)
  {
    var i :| 0 <= i < |a| && a[i] == x;
  }

  /** Sorting forgets the order and nothing else. */
  lemma SortedSameIff<T(!new)>(a: seq<T>, b: seq<T>, le: (T, T) -> bool)
    requires TotalOrder(le)
    ensures Sort(a, le) == Sort(b, le) <==> multiset(a) == multiset(b)
  {
    SortSorts(a, le);
    SortSorts(b, le);
    if multiset(a) == multiset(b) { SortedIsUnique(Sort(a, le), Sort(b, le), le); }
  }

  // ---- The order of strings ----

  predicate TextLe(a: string, b: string)
  {
    if a == "" then true
    else if b == "" then false
    else a[0] < b[0] || (a[0] == b[0] && TextLe(a[1..], b[1..]))
  }

  lemma {:induction false} TextLeTotal(a: string, b: string)
    ensures TextLe(a, b) || TextLe(b, a)
    ensures TextLe(a, b) && TextLe(b, a) ==> a == b
    decreases |a|
  {
    if a != "" && b != "" && a[0] == b[0] {
      TextLeTotal(a[1..], b[1..]);
      assert a == [a[0]] + a[1..] && b == [b[0]] + b[1..];
    }
  }

  lemma {:induction false} TextLeTransitive(a: string, b: string, c: string)
    requires TextLe(a, b) && TextLe(b, c)
    ensures TextLe(a, c)
    decreases |a|
  {
    if a != "" && a[0] == b[0] && b[0] == c[0] { TextLeTransitive(a[1..], b[1..], c[1..]); }
  }

  lemma TextLeIsOrder()
    ensures TotalOrder(TextLe)
  {
    forall a, b ensures TextLe(a, b) || TextLe(b, a) { TextLeTotal(a, b); }
    forall a, b | TextLe(a, b) && TextLe(b, a) ensures a == b { TextLeTotal(a, b); }
    forall a, b, c | TextLe(a, b) && TextLe(b, c) ensures TextLe(a, c) { TextLeTransitive(a, b, c); }
  }
}
