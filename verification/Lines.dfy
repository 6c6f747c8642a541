/** Splitting a stream on a delimiter: the reference every incremental line reader is compared with. */
module Lines {
  import opened Common

  function IndexOf<T(==)>(s: seq<T>, nl: T): (i: nat)
    ensures i <= |s|
  {
    if s == [] || s[0] == nl then 0 else IndexOf(s[1..], nl) + 1
  }

  predicate Has<T(==)>(s: seq<T>, nl: T)
  {
    IndexOf(s, nl) < |s|
  }

  lemma {:induction false} IndexIsFirst<T>(s: seq<T>, nl: T)
    ensures var i := IndexOf(s, nl); nl !in s[..i] && (i < |s| ==> s[i] == nl)
    ensures Has(s, nl) <==> nl in s
    decreases |s|
  {
    if s != [] && s[0] != nl {
      IndexIsFirst(s[1..], nl);
      var i := IndexOf(s[1..], nl);
      assert s[..i + 1] == [s[0]] + s[1..][..i];
    }
  }

  /** The lines that are complete. */
  function Complete<T(==)>(s: seq<T>, nl: T): seq<seq<T>>
    decreases |s|
  {
    if Has(s, nl) then
      var i := IndexOf(s, nl);
      [s[..i]] + Complete(s[i + 1..], nl)
    else []
  }

  /** What follows the last delimiter. */
  function Rest<T(==)>(s: seq<T>, nl: T): seq<T>
    decreases |s|
  {
    if Has(s, nl) then Rest(s[IndexOf(s, nl) + 1..], nl) else s
  }

  function Concat<T>(chunks: seq<seq<T>>): seq<T>
  {
    if chunks == [] then [] else Concat(chunks[..|chunks| - 1]) + chunks[|chunks| - 1]
  }

  function Joined<T>(lines: seq<seq<T>>, nl: T): seq<T>
  {
    if lines == [] then [] else lines[0] + [nl] + Joined(lines[1..], nl)
  }

  lemma {:induction false} FirstLine<T>(line: seq<T>, nl: T, more: seq<T>)
    requires nl !in line
    ensures var s := line + [nl] + more; IndexOf(s, nl) == |line| && s[..|line|] == line && s[|line| + 1..] == more
    ensures Has(line + [nl] + more, nl)
    decreases |line|
  {
    var s := line + [nl] + more;
    if line != [] {
      assert s[0] == line[0] && line[0] in line;
      assert s[1..] == line[1..] + [nl] + more;
      FirstLine(line[1..], nl, more);
    }
  }

  lemma LineThenMore<T>(line: seq<T>, nl: T, more: seq<T>)
    requires nl !in line
    ensures Complete(line + [nl] + more, nl) == [line] + Complete(more, nl)
    ensures Rest(line + [nl] + more, nl) == Rest(more, nl)
  {
    FirstLine(line, nl, more);
  }

  /** A stream may be cut anywhere: what has arrived so far leaves its complete lines and a rest,
      and the rest goes on with what arrives next. */
  lemma {:induction false} SplitsAnywhere<T>(a: seq<T>, b: seq<T>, nl: T)
    ensures Complete(a + b, nl) == Complete(a, nl) + Complete(Rest(a, nl) + b, nl)
    ensures Rest(a + b, nl) == Rest(Rest(a, nl) + b, nl)
    decreases |a|
  {
    if Has(a, nl) {
      var i := IndexOf(a, nl);
      var line, more := a[..i], a[i + 1..];
      IndexIsFirst(a, nl);
      assert a + b == line + [nl] + (more + b);
      LineThenMore(line, nl, more + b);
      SplitsAnywhere(more, b, nl);
      Regroup([line], Complete(more, nl), Complete(Rest(more, nl) + b, nl));
    }
  }

  lemma ConcatSnoc<T>(chunks: seq<seq<T>>, i: nat)
    requires i < |chunks|
    ensures Concat(chunks[..i + 1]) == Concat(chunks[..i]) + chunks[i]
  {
    assert chunks[..i + 1][..i] == chunks[..i];
  }

  /** Framing: lines that contain no delimiter come back exactly. */
  lemma {:induction false} FramingReadsBack<T>(lines: seq<seq<T>>, nl: T)
    requires forall i | 0 <= i < |lines| :: nl !in lines[i]
    ensures Complete(Joined(lines, nl), nl) == lines && Rest(Joined(lines, nl), nl) == []
    decreases |lines|
  {
    if lines != [] {
      assert nl !in lines[0];
      FirstLine(lines[0], nl, Joined(lines[1..], nl));
      FramingReadsBack(lines[1..], nl);
    }
  }

  lemma JoinedCons<T>(line: seq<T>, nl: T, lines: seq<seq<T>>)
    ensures Joined([line] + lines, nl) == line + [nl] + Joined(lines, nl)
  {
    assert ([line] + lines)[1..] == lines;
  }

  /** Conversely a stream is its complete lines, each ended, and its rest, and neither a line nor the
      rest contains the delimiter. */
  lemma {:induction false} LinesMakeTheStream<T>(s: seq<T>, nl: T)
    ensures s == Joined(Complete(s, nl), nl) + Rest(s, nl)
    ensures nl !in Rest(s, nl) && forall i | 0 <= i < |Complete(s, nl)| :: nl !in Complete(s, nl)[i]
    decreases |s|
  {
    IndexIsFirst(s, nl);
    if Has(s, nl) {
      var i := IndexOf(s, nl);
      var line, more := s[..i], s[i + 1..];
      assert s == line + [nl] + more;
      LinesMakeTheStream(more, nl);
      JoinedCons(line, nl, Complete(more, nl));
      Regroup(line + [nl], Joined(Complete(more, nl), nl), Rest(more, nl));
    }
  }

  /** That is the only way to cut a stream into lines and a rest. */
  lemma SplitIff<T>(s: seq<T>, nl: T, lines: seq<seq<T>>, rest: seq<T>)
    ensures lines == Complete(s, nl) && rest == Rest(s, nl) <==>
            s == Joined(lines, nl) + rest && nl !in rest && forall i | 0 <= i < |lines| :: nl !in lines[i]
  {
    LinesMakeTheStream(s, nl);
    if s == Joined(lines, nl) + rest && nl !in rest && forall i | 0 <= i < |lines| :: nl !in lines[i] {
      FramingReadsBack(lines, nl);
      SplitsAnywhere(Joined(lines, nl), rest, nl);
      assert [] + rest == rest;
      IndexIsFirst(rest, nl);
    }
  }

  // ---- What the lines of a stream make of themselves ----

  function Gather<L, M>(f: L -> seq<M>, lines: seq<L>): seq<M>
  {
    if lines == [] then [] else f(lines[0]) + Gather(f, lines[1..])
  }

  lemma GatherCons<L, M>(f: L -> seq<M>, line: L, more: seq<L>)
    ensures Gather(f, [line] + more) == f(line) + Gather(f, more)
  {
    assert ([line] + more)[1..] == more;
  }

  lemma {:induction false} GatherConcat<L, M>(f: L -> seq<M>, a: seq<L>, b: seq<L>)
    ensures Gather(f, a + b) == Gather(f, a) + Gather(f, b)
    decreases |a|
  {
    if a == [] {
      assert a + b == b;
    } else {
      GatherConcat(f, a[1..], b);
      assert a + b == [a[0]] + (a[1..] + b);
      GatherCons(f, a[0], a[1..] + b);
      Regroup(f(a[0]), Gather(f, a[1..]), Gather(f, b));
    }
  }
}
