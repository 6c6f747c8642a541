/** What the builder's reader makes of a stream, told by its lines: the first line that is out of place
    decides, and otherwise how the stream ended. */
module ReaderVerdicts {
  import opened Common
  import opened Lines
  import opened LineReaders

  /** Is this a result that decodes? */
  predicate Built<P, B>(e: Event<P, B>)
  {
    e.Result? && e.built.Some?
  }

  /** Nothing among the first `j` lines is out of place: progress, and at the end perhaps the result. */
  ghost predicate InPlace<P, B>(parse: seq<Byte> -> Event<P, B>, lines: seq<seq<Byte>>, j: nat)
    requires j <= |lines|
  {
    forall i | 0 <= i < j :: parse(lines[i]).Progress? || (i == j - 1 && Built(parse(lines[i])))
  }

  ghost predicate Done<P, B>(parse: seq<Byte> -> Event<P, B>, lines: seq<seq<Byte>>, j: nat)
    requires j <= |lines|
  {
    j > 0 && Built(parse(lines[j - 1]))
  }

  /** The error a line is, behind lines that are in place. */
  predicate IsError<P, B>(e: Event<P, B>, done: bool, error: Error)
  {
    match e
    case Malformed => error == InvalidEvent
    case Failure(code) => error == Reported(code)
    case Unknown => error == OutOfOrder
    case Progress(_) => done && error == OutOfOrder
    case Result(built) => if done then error == OutOfOrder else built.None? && error == InvalidResult
  }

  /** The updates of the progress lines among the first `j`, in order. */
  ghost predicate UpdatesAre<P, B>(parse: seq<Byte> -> Event<P, B>, lines: seq<seq<Byte>>, j: nat, updates: seq<P>)
    requires j <= |lines|
  {
    var n := if Done(parse, lines, j) then j - 1 else j;
    |updates| == n && forall i | 0 <= i < n :: parse(lines[i]) == Progress(updates[i])
  }

  lemma FoldSnoc<P, B>(parse: seq<Byte> -> Event<P, B>, lines: seq<seq<Byte>>, j: nat)
    requires j < |lines|
    ensures Fold(parse, Going([], None), lines[..j + 1]) == Next(Fold(parse, Going([], None), lines[..j]), parse(lines[j]))
  {
    assert lines[..j + 1] == lines[..j] + [lines[j]];
    FoldConcat(parse, Going([], None), lines[..j], [lines[j]]);
    assert [lines[j]][1..] == [];
  }

  /** Lines in place lead to their updates, and to the result if it has come. */
  lemma {:induction false} InPlaceLeads<P, B>(parse: seq<Byte> -> Event<P, B>, lines: seq<seq<Byte>>, j: nat)
    requires j <= |lines| && InPlace(parse, lines, j)
    ensures var s := Fold(parse, Going([], None), lines[..j]);
            && s.Going? && UpdatesAre(parse, lines, j, s.updates)
            && s.completed == if Done(parse, lines, j) then parse(lines[j - 1]).built else None
    decreases j
  {
    if j > 0 {
      assert InPlace(parse, lines, j - 1) && !Done(parse, lines, j - 1);
      InPlaceLeads(parse, lines, j - 1);
      FoldSnoc(parse, lines, j - 1);
    }
  }

  lemma StopIsFinal<P, B>(parse: seq<Byte> -> Event<P, B>, lines: seq<seq<Byte>>, j: nat, s: State<P, B>)
    requires j <= |lines| && s == Fold(parse, Going([], None), lines[..j]) && s.Stopped?
    ensures Fold(parse, Going([], None), lines) == s
  {
    assert lines == lines[..j] + lines[j..];
    FoldConcat(parse, Going([], None), lines[..j], lines[j..]);
    StoppedStays(parse, s, lines[j..]);
  }

  /** A line out of place stops the reader there. */
  lemma OutOfPlaceStops<P, B>(parse: seq<Byte> -> Event<P, B>, lines: seq<seq<Byte>>, j: nat, error: Error) returns (s: State<P, B>)
    requires j < |lines| && InPlace(parse, lines, j) && IsError(parse(lines[j]), Done(parse, lines, j), error)
    ensures s == Fold(parse, Going([], None), lines) && s.Stopped? && s.error == error && UpdatesAre(parse, lines, j, s.updates)
  {
    InPlaceLeads(parse, lines, j);
    FoldSnoc(parse, lines, j);
    s := Next(Fold(parse, Going([], None), lines[..j]), parse(lines[j]));
    StopIsFinal(parse, lines, j + 1, s);
  }

  /** Either every line is in place or there is a first one that is not, and it is an error. */
  lemma EveryStreamIsJudged<P, B>(parse: seq<Byte> -> Event<P, B>, lines: seq<seq<Byte>>) returns (j: nat, error: Error)
    ensures j <= |lines| && InPlace(parse, lines, j)
    ensures j < |lines| ==> IsError(parse(lines[j]), Done(parse, lines, j), error)
  {
    j, error := 0, OutOfOrder;
    while j < |lines| && !Done(parse, lines, j) && (parse(lines[j]).Progress? || Built(parse(lines[j])))
      invariant j <= |lines| && InPlace(parse, lines, j)
    {
      j := j + 1;
    }
    if j < |lines| {
      match parse(lines[j])
      case Malformed => error := InvalidEvent;
      case Failure(code) => error := Reported(code);
      case Result(_) => error := if Done(parse, lines, j) then OutOfOrder else InvalidResult;
      case Progress(_) =>
      case Unknown =>
    }
  }

  /** A chunk fits if it makes no more than 160 MiB with the unfinished line. */
  predicate WithinLimit(chunks: seq<seq<Byte>>, k: nat)
    requires k < |chunks|
  {
    |Rest(Concat(chunks[..k]), 10)| + |chunks[k]| <= 167772160
  }

  lemma LimitsAgree(chunks: seq<seq<Byte>>, k: nat)
    requires k <= |chunks| && forall i | 0 <= i < k :: WithinLimit(chunks, i)
    ensures forall i | 0 <= i < k :: Fits(chunks, i)
  {
    forall i | 0 <= i < k ensures Fits(chunks, i) { assert WithinLimit(chunks, i); }
  }

  /** A line out of place in the chunks that fit is the verdict, with the updates before it. */
  lemma ReaderRefuses<P, B>(parse: seq<Byte> -> Event<P, B>, chunks: seq<seq<Byte>>, k: nat, j: nat, error: Error)
    requires k <= |chunks| && forall i | 0 <= i < k :: WithinLimit(chunks, i)
    requires var lines := Complete(Concat(chunks[..k]), 10);
             j < |lines| && InPlace(parse, lines, j) && IsError(parse(lines[j]), Done(parse, lines, j), error)
    ensures Limited(parse, chunks).verdict == Refused(error)
    ensures UpdatesAre(parse, Complete(Concat(chunks[..k]), 10), j, Limited(parse, chunks).updates)
  {
    LimitsAgree(chunks, k);
    var _ := OutOfPlaceStops(parse, Complete(Concat(chunks[..k]), 10), j, error);
    StoppedEarly(parse, chunks, k);
  }

  /** A chunk that does not fit is, if every line before it is in place. */
  lemma ReaderStopsAtLimit<P, B>(parse: seq<Byte> -> Event<P, B>, chunks: seq<seq<Byte>>, k: nat)
    requires k < |chunks| && (forall i | 0 <= i < k :: WithinLimit(chunks, i)) && !WithinLimit(chunks, k)
    requires var lines := Complete(Concat(chunks[..k]), 10); InPlace(parse, lines, |lines|)
    ensures Limited(parse, chunks).verdict == Refused(TooLarge)
    ensures var lines := Complete(Concat(chunks[..k]), 10); UpdatesAre(parse, lines, |lines|, Limited(parse, chunks).updates)
  {
    LimitsAgree(chunks, k);
    TakenPast(chunks, k);
    var lines := Complete(Concat(chunks[..k]), 10);
    InPlaceLeads(parse, lines, |lines|);
    assert lines[..|lines|] == lines;
  }

  /** And if all fit and every line is in place, the stream is accepted with its result, or refused for
      an unfinished line, or else for a missing result. */
  lemma ReaderEnds<P, B>(parse: seq<Byte> -> Event<P, B>, chunks: seq<seq<Byte>>)
    requires forall i | 0 <= i < |chunks| :: WithinLimit(chunks, i)
    requires var lines := Complete(Concat(chunks), 10); InPlace(parse, lines, |lines|)
    ensures var lines, rest := Complete(Concat(chunks), 10), Rest(Concat(chunks), 10);
            && UpdatesAre(parse, lines, |lines|, Limited(parse, chunks).updates)
            && Limited(parse, chunks).verdict ==
               if rest != [] then Refused(EndedMidEvent)
               else if Done(parse, lines, |lines|) then Accepted(parse(lines[|lines| - 1]).built.value)
               else Refused(EndedWithoutResult)
  {
    LimitsAgree(chunks, |chunks|);
    TakenPast(chunks, |chunks|);
    var lines := Complete(Concat(chunks), 10);
    InPlaceLeads(parse, lines, |lines|);
    assert lines[..|lines|] == lines;
  }

  // ---- The prelude's transport ----

  /** A line among others adds its message, if it is not blank and parses, and nothing otherwise; the
      lines before and after it are not affected. */
  lemma LineIsDispatched<M>(parse: string -> Option<M>, before: seq<string>, line: string, behind: seq<string>)
    ensures DispatchAll(parse, before + [line] + behind) ==
            DispatchAll(parse, before)
            + (if Trim(line) != "" && parse(Trim(line)).Some? then [parse(Trim(line)).value] else [])
            + DispatchAll(parse, behind)
  {
    GatherConcat(Dispatcher(parse), before + [line], behind);
    GatherConcat(Dispatcher(parse), before, [line]);
    DispatchCons(parse, line, []);
    assert [line] + [] == [line];
  }
}
