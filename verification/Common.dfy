/** Small things every component uses. */
module Common {

  datatype Option<+T> = None | Some(value: T)

  function DigitChar(d: nat): char
    requires d < 16
  {
    if d < 10 then '0' + d as char else 'a' + (d - 10) as char
  }

  function Quotient(n: nat, hex: bool): nat
  {
    if hex then n / 16 else n / 10
  }

  function Remainder(n: nat, hex: bool): (r: nat)
    ensures r < 16
  {
    if hex then n % 16 else n % 10
  }

  predicate OneDigit(n: nat, hex: bool)
  {
    n < 10 || (hex && n < 16)
  }

  /** A number in decimal or hexadecimal, without leading zeros. */
  function NumberText(n: nat, hex: bool): string
    decreases n
  {
    if OneDigit(n, hex) then [DigitChar(n)] else NumberText(Quotient(n, hex), hex) + [DigitChar(Remainder(n, hex))]
  }

  function DigitValue(c: char): int
  {
    if '0' <= c <= '9' then c as int - '0' as int else c as int - 'a' as int + 10
  }

  /** The number a text of digits stands for. */
  function NumberOf(s: string, hex: bool): int
  {
    if s == "" then 0 else NumberOf(s[..|s| - 1], hex) * (if hex then 16 else 10) + DigitValue(s[|s| - 1])
  }

  predicate IsDigit(c: char, hex: bool)
  {
    '0' <= c <= '9' || (hex && 'a' <= c <= 'f')
  }

  /** The text is the number's, in digits of the base and without leading zeros. */
  predicate Spells(s: string, n: nat, hex: bool)
  {
    && s != "" && (forall i | 0 <= i < |s| :: IsDigit(s[i], hex))
    && NumberOf(s, hex) == n && (|s| > 1 ==> s[0] != '0')
  }

  lemma {:induction false} NumberTextSpells(n: nat, hex: bool)
    ensures Spells(NumberText(n, hex), n, hex)
    ensures n > 0 ==> NumberText(n, hex)[0] != '0'
    decreases n
  {
    var s := NumberText(n, hex);
    if !OneDigit(n, hex) {
      NumberTextSpells(Quotient(n, hex), hex);
      assert s[..|s| - 1] == NumberText(Quotient(n, hex), hex);
    } else {
      assert s[..0] == "";
    }
  }

  predicate Space(c: char)
  {
    c == ' ' || c == '\n' || c == '\t' || c == '\r'
  }

  function TrimLeft(s: string): string
  {
    if s != "" && Space(s[0]) then TrimLeft(s[1..]) else s
  }

  function TrimRight(s: string): string
  {
    if s != "" && Space(s[|s| - 1]) then TrimRight(s[..|s| - 1]) else s
  }

  function Trim(s: string): string
  {
    TrimRight(TrimLeft(s))
  }

  // ---- Small facts about collections ----

  lemma Regroup<T>(a: seq<T>, b: seq<T>, c: seq<T>)
    ensures a + (b + c) == (a + b) + c
  {
  }

  lemma SubsetSize<T>(a: set<T>, b: set<T>)
    requires a <= b
    ensures |a| <= |b|
  {
    assert b == a + (b - a);
  }

  // ---- What a table holds, by what happened ----

  /** Something was opened before moment `k` and has not been closed since. */
  ghost predicate HeldSince(opens: nat -> bool, closes: nat -> bool, k: nat)
  {
    exists i: nat :: i < k && opens(i) && forall j: nat | i < j < k :: !closes(j)
  }

  /** An entry that every step opens, keeps or closes is there exactly since it was last opened. */
  lemma {:induction false} LedgerIff(held: nat -> bool, opens: nat -> bool, closes: nat -> bool, k: nat)
    requires !held(0) && forall i: nat | i < k :: LedgerStep(held, opens, closes, i)
    ensures held(k) <==> HeldSince(opens, closes, k)
    decreases k
  {
    if k > 0 {
      var last := k - 1;
      LedgerIff(held, opens, closes, last);
      assert LedgerStep(held, opens, closes, last);
      if HeldSince(opens, closes, last) && !closes(last) {
        var i: nat :| i < last && opens(i) && forall j: nat | i < j < last :: !closes(j);
        assert forall j: nat | i < j < k :: !closes(j);
      }
      if HeldSince(opens, closes, k) {
        var i: nat :| i < k && opens(i) && forall j: nat | i < j < k :: !closes(j);
        if i < last { assert HeldSince(opens, closes, last); }
      }
    }
  }

  ghost predicate LedgerStep(held: nat -> bool, opens: nat -> bool, closes: nat -> bool, i: nat)
  {
    held(i + 1) <==> opens(i) || (held(i) && !closes(i))
  }
}
