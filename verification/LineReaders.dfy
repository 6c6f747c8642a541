/** The reader of the builder's streaming response, with its `scanned` cursor, and the line
    transport of the worker prelude.  Both are proved against splitting the whole stream. */
module LineReaders {
  import opened Common
  import opened Lines

  type Byte = bv8

  const NEWLINE: Byte := 10

  /** 160 MiB. */
  const LIMIT := 160 * 1024 * 1024

  /** What one line says.  `Result(None)` is a result whose payload does not decode. */
  datatype Event<P, B> =
    | Malformed
    | Progress(update: P)
    | Result(built: Option<B>)
    | Failure(code: string)
    | Unknown

  datatype Error =
    | InvalidEvent
    | InvalidResult
    | OutOfOrder
    | Reported(code: string)
    | EndedMidEvent
    | EndedWithoutResult
    | TooLarge

  /** Progress through the events: the updates made so far, and the result or the error. */
  datatype State<P, B> = Going(updates: seq<P>, completed: Option<B>) | Stopped(updates: seq<P>, error: Error)

  function Next<P, B>(s: State<P, B>, e: Event<P, B>): State<P, B>
  {
    if s.Stopped? then s
    else
      match e
      case Malformed => Stopped(s.updates, InvalidEvent)
      case Progress(u) => if s.completed.None? then Going(s.updates + [u], None) else Stopped(s.updates, OutOfOrder)
      case Result(b) =>
        if s.completed.Some? then Stopped(s.updates, OutOfOrder)
        else if b.None? then Stopped(s.updates, InvalidResult)
        else Going(s.updates, b)
      case Failure(code) => Stopped(s.updates, Reported(code))
      case Unknown => Stopped(s.updates, OutOfOrder)
  }

  function Fold<P, B>(parse: seq<Byte> -> Event<P, B>, s: State<P, B>, lines: seq<seq<Byte>>): State<P, B>
    decreases |lines|
  {
    if lines == [] then s else Fold(parse, Next(s, parse(lines[0])), lines[1..])
  }

  datatype Outcome<P, B> = Outcome(updates: seq<P>, verdict: Verdict<B>)
  datatype Verdict<B> = Accepted(built: B) | Refused(error: Error)

  function AtEnd<P, B>(s: State<P, B>, rest: seq<Byte>): Outcome<P, B>
  {
    match s
    case Stopped(us, e) => Outcome(us, Refused(e))
    case Going(us, done) =>
      Outcome(us, if rest != [] then Refused(EndedMidEvent) else if done.None? then Refused(EndedWithoutResult) else Accepted(done.value))
  }

  /** The simple reader: split the whole stream, then take the events in order. */
  function Whole<P, B>(parse: seq<Byte> -> Event<P, B>, stream: seq<Byte>): Outcome<P, B>
  {
    AtEnd(Fold(parse, Going([], None), Complete(stream, NEWLINE)), Rest(stream, NEWLINE))
  }

  /** A chunk is taken only if the unfinished line and the chunk fit together. */
  predicate Fits(chunks: seq<seq<Byte>>, i: nat)
    requires i < |chunks|
  {
    |Rest(Concat(chunks[..i]), NEWLINE)| + |chunks[i]| <= LIMIT
  }

  /** How many chunks are taken, from number `i` on. */
  function Taken(chunks: seq<seq<Byte>>, i: nat): (k: nat)
    requires i <= |chunks|
    ensures i <= k <= |chunks| && (k < |chunks| ==> !Fits(chunks, k))
    decreases |chunks| - i
  {
    if i == |chunks| || !Fits(chunks, i) then i else Taken(chunks, i + 1)
  }

  /** Where the events of the first `i` chunks lead. */
  function After<P, B>(parse: seq<Byte> -> Event<P, B>, chunks: seq<seq<Byte>>, i: nat): State<P, B>
    requires i <= |chunks|
  {
    Fold(parse, Going([], None), Complete(Concat(chunks[..i]), NEWLINE))
  }

  /** The simple reader with the size limit: events of the chunks taken come first. */
  function Limited<P, B>(parse: seq<Byte> -> Event<P, B>, chunks: seq<seq<Byte>>): Outcome<P, B>
  {
    var k := Taken(chunks, 0);
    if k == |chunks| then Whole(parse, Concat(chunks))
    else
      match After(parse, chunks, k)
      case Stopped(us, e) => Outcome(us, Refused(e))
      case Going(us, _) => Outcome(us, Refused(TooLarge))
  }

  // ---- Facts about the fold ----

  lemma {:induction false} FoldConcat<P, B>(parse: seq<Byte> -> Event<P, B>, s: State<P, B>, a: seq<seq<Byte>>, b: seq<seq<Byte>>)
    ensures Fold(parse, s, a + b) == Fold(parse, Fold(parse, s, a), b)
    decreases |a|
  {
    if a == [] {
      assert a + b == b;
    } else {
      FoldConcat(parse, Next(s, parse(a[0])), a[1..], b);
      assert (a + b)[0] == a[0] && (a + b)[1..] == a[1..] + b;
    }
  }

  lemma {:induction false} StoppedStays<P, B>(parse: seq<Byte> -> Event<P, B>, s: State<P, B>, lines: seq<seq<Byte>>)
    requires s.Stopped?
    ensures Fold(parse, s, lines) == s
    decreases |lines|
  {
    if lines != [] { StoppedStays(parse, s, lines[1..]); }
  }

  lemma AfterNext<P, B>(parse: seq<Byte> -> Event<P, B>, chunks: seq<seq<Byte>>, i: nat)
    requires i < |chunks|
    ensures var bytes := Rest(Concat(chunks[..i]), NEWLINE) + chunks[i];
            && After(parse, chunks, i + 1) == Fold(parse, After(parse, chunks, i), Complete(bytes, NEWLINE))
            && Rest(Concat(chunks[..i + 1]), NEWLINE) == Rest(bytes, NEWLINE)
  {
    var a := Concat(chunks[..i]);
    ConcatSnoc(chunks, i);
    SplitsAnywhere(a, chunks[i], NEWLINE);
    FoldConcat(parse, Going([], None), Complete(a, NEWLINE), Complete(Rest(a, NEWLINE) + chunks[i], NEWLINE));
  }

  lemma StoppedNext<P, B>(parse: seq<Byte> -> Event<P, B>, chunks: seq<seq<Byte>>, i: nat)
    requires i < |chunks| && After(parse, chunks, i).Stopped?
    ensures After(parse, chunks, i + 1) == After(parse, chunks, i)
  {
    AfterNext(parse, chunks, i);
    StoppedStays(parse, After(parse, chunks, i), Complete(Rest(Concat(chunks[..i]), NEWLINE) + chunks[i], NEWLINE));
  }

  lemma {:induction false} StoppedAfter<P, B>(parse: seq<Byte> -> Event<P, B>, chunks: seq<seq<Byte>>, i: nat, k: nat)
    requires i <= k <= |chunks| && After(parse, chunks, i).Stopped?
    ensures After(parse, chunks, k) == After(parse, chunks, i)
    decreases k - i
  {
    if i < k {
      StoppedAfter(parse, chunks, i, k - 1);
      StoppedNext(parse, chunks, k - 1);
    }
  }

  lemma {:induction false} TakenPast(chunks: seq<seq<Byte>>, i: nat)
    requires i <= |chunks| && forall j | 0 <= j < i :: Fits(chunks, j)
    ensures Taken(chunks, 0) == Taken(chunks, i)
    decreases i
  {
    if i > 0 { TakenPast(chunks, i - 1); }
  }

  /** An error met among the lines of the first chunks is the final verdict. */
  lemma StoppedEarly<P, B>(parse: seq<Byte> -> Event<P, B>, chunks: seq<seq<Byte>>, i: nat)
    requires i <= |chunks| && forall j | 0 <= j < i :: Fits(chunks, j)
    requires After(parse, chunks, i).Stopped?
    ensures Limited(parse, chunks) == Outcome(After(parse, chunks, i).updates, Refused(After(parse, chunks, i).error))
  {
    TakenPast(chunks, i);
    StoppedAfter(parse, chunks, i, Taken(chunks, 0));
    assert chunks[..|chunks|] == chunks;
  }

  // ---- The reader with its cursor ----

  /** One event against the reader's two variables. */
  method HandleEvent<P, B>(event: Event<P, B>, updates: seq<P>, completed: Option<B>) returns (s: State<P, B>)
    ensures s == Next(Going(updates, completed), event)
  {
    match event
    case Progress(u) =>
      if completed.Some? { return Stopped(updates, OutOfOrder); }
      return Going(updates + [u], completed);
    case Result(b) =>
      if completed.Some? { return Stopped(updates, OutOfOrder); }
      if b.None? { return Stopped(updates, InvalidResult); }
      return Going(updates, b);
    case Failure(code) => return Stopped(updates, Reported(code));
    case Malformed => return Stopped(updates, InvalidEvent);
    case Unknown => return Stopped(updates, OutOfOrder);
  }

  lemma LineOff<P, B>(parse: seq<Byte> -> Event<P, B>, s: State<P, B>, bytes: seq<Byte>)
    requires Has(bytes, NEWLINE)
    ensures var i := IndexOf(bytes, NEWLINE);
            && Fold(parse, s, Complete(bytes, NEWLINE)) == Fold(parse, Next(s, parse(bytes[..i])), Complete(bytes[i + 1..], NEWLINE))
            && Rest(bytes, NEWLINE) == Rest(bytes[i + 1..], NEWLINE)
  {
    var i := IndexOf(bytes, NEWLINE);
    assert Complete(bytes, NEWLINE)[1..] == Complete(bytes[i + 1..], NEWLINE);
  }

  /** Consumes the line that ends at the newline found `offset` bytes behind the cursor. */
  method ConsumeLine<P, B>(parse: seq<Byte> -> Event<P, B>, buffer: seq<Byte>, scanned: nat, offset: nat, updates: seq<P>, completed: Option<B>)
    returns (s: State<P, B>, bytes: seq<Byte>)
    requires scanned <= |buffer| && NEWLINE !in buffer[..scanned]
    requires offset == IndexOf(buffer[scanned..], NEWLINE) && offset < |buffer[scanned..]|
    ensures |bytes| < |buffer| && Rest(bytes, NEWLINE) == Rest(buffer, NEWLINE)
    ensures Fold(parse, s, Complete(bytes, NEWLINE)) == Fold(parse, Going(updates, completed), Complete(buffer, NEWLINE))
  {
    var end := scanned + offset;
    CursorFinds(buffer, scanned, offset);
    LineOff(parse, Going(updates, completed), buffer);
    s := HandleEvent(parse(buffer[..end]), updates, completed);
    bytes := buffer[end + 1..];
  }

  /** Consumes the complete lines of the buffer.  `scanned` bytes are known to hold no newline, so
      the first search starts behind them. */
  method DrainLines<P, B>(parse: seq<Byte> -> Event<P, B>, buffer: seq<Byte>, cursor: nat, updates: seq<P>, completed: Option<B>)
    returns (s: State<P, B>, bytes: seq<Byte>)
    requires cursor <= |buffer| && NEWLINE !in buffer[..cursor]
    ensures s == Fold(parse, Going(updates, completed), Complete(buffer, NEWLINE))
    ensures s.Going? ==> bytes == Rest(buffer, NEWLINE) && NEWLINE !in bytes
  {
    var scanned := cursor;
    bytes := buffer;
    s := Going(updates, completed);
    ghost var goal := Fold(parse, s, Complete(buffer, NEWLINE));
    var offset := IndexOf(bytes[scanned..], NEWLINE);
    while offset < |bytes[scanned..]|
      invariant s.Going? && scanned <= |bytes| && NEWLINE !in bytes[..scanned] && offset == IndexOf(bytes[scanned..], NEWLINE)
      invariant Fold(parse, s, Complete(bytes, NEWLINE)) == goal && Rest(bytes, NEWLINE) == Rest(buffer, NEWLINE)
      decreases |bytes|
    {
      s, bytes := ConsumeLine(parse, bytes, scanned, offset, s.updates, s.completed);
      if s.Stopped? {
        StoppedStays(parse, s, Complete(bytes, NEWLINE));
        return;
      }
      scanned := 0;
      offset := IndexOf(bytes[scanned..], NEWLINE);
    }
    NoneLeft(bytes, scanned);
  }

  /** One chunk behind the unfinished line, which is known to hold no newline. */
  method TakeChunk<P, B>(parse: seq<Byte> -> Event<P, B>, chunks: seq<seq<Byte>>, i: nat, buffer: seq<Byte>, scanned: nat,
                         updates: seq<P>, completed: Option<B>) returns (s: State<P, B>, bytes: seq<Byte>)
    requires i < |chunks| && After(parse, chunks, i) == Going(updates, completed)
    requires buffer == Rest(Concat(chunks[..i]), NEWLINE) && scanned == |buffer| && NEWLINE !in buffer
    ensures s == After(parse, chunks, i + 1)
    ensures s.Going? ==> bytes == Rest(Concat(chunks[..i + 1]), NEWLINE) && NEWLINE !in bytes
  {
    AfterNext(parse, chunks, i);
    assert (buffer + chunks[i])[..scanned] == buffer;
    s, bytes := DrainLines(parse, buffer + chunks[i], scanned, updates, completed);
  }

  /** Takes chunks as they come, within the size limit, and checks how the stream ended. */
  method Read<P, B>(parse: seq<Byte> -> Event<P, B>, chunks: seq<seq<Byte>>) returns (r: Outcome<P, B>)
    ensures r == Limited(parse, chunks)
  {
    var bytes: seq<Byte>, scanned := [], 0;
    var updates: seq<P>, completed: Option<B> := [], None;
    for i := 0 to |chunks|
      invariant forall j | 0 <= j < i :: Fits(chunks, j)
      invariant bytes == Rest(Concat(chunks[..i]), NEWLINE) && scanned == |bytes| && NEWLINE !in bytes
      invariant After(parse, chunks, i) == Going(updates, completed)
    {
      if |bytes| + |chunks[i]| > LIMIT {
        TakenPast(chunks, i);
        return Outcome(updates, Refused(TooLarge));
      }
      var s;
      s, bytes := TakeChunk(parse, chunks, i, bytes, scanned, updates, completed);
      if s.Stopped? {
        StoppedEarly(parse, chunks, i + 1);
        return Outcome(s.updates, Refused(s.error));
      }
      updates, completed, scanned := s.updates, s.completed, |bytes|;
    }
    TakenPast(chunks, |chunks|);
    assert chunks[..|chunks|] == chunks;
    if bytes != [] { return Outcome(updates, Refused(EndedMidEvent)); }
    if completed.None? { return Outcome(updates, Refused(EndedWithoutResult)); }
    return Outcome(updates, Accepted(completed.value));
  }

  /** Searching from the cursor finds the first newline of the buffer. */
  lemma CursorFinds(bytes: seq<Byte>, scanned: nat, offset: nat)
    requires scanned <= |bytes| && NEWLINE !in bytes[..scanned]
    requires offset == IndexOf(bytes[scanned..], NEWLINE) && offset < |bytes[scanned..]|
    ensures Has(bytes, NEWLINE) && IndexOf(bytes, NEWLINE) == scanned + offset
  {
    var end := scanned + offset;
    IndexIsFirst(bytes[scanned..], NEWLINE);
    assert bytes[..end] == bytes[..scanned] + bytes[scanned..][..offset];
    assert bytes == bytes[..end] + [NEWLINE] + bytes[end + 1..];
    FirstLine(bytes[..end], NEWLINE, bytes[end + 1..]);
  }

  lemma NoneLeft(bytes: seq<Byte>, scanned: nat)
    requires scanned <= |bytes| && NEWLINE !in bytes[..scanned] && !Has(bytes[scanned..], NEWLINE)
    ensures NEWLINE !in bytes && Complete(bytes, NEWLINE) == [] && Rest(bytes, NEWLINE) == bytes
  {
    IndexIsFirst(bytes[scanned..], NEWLINE);
    IndexIsFirst(bytes, NEWLINE);
    assert bytes == bytes[..scanned] + bytes[scanned..];
  }

  // ---- What is accepted, and independence of the chunking ----

  lemma {:induction false} ProgressOnly<P, B>(parse: seq<Byte> -> Event<P, B>, updates: seq<P>, lines: seq<seq<Byte>>)
    ensures var s := Fold(parse, Going(updates, None), lines);
            s.Going? && s.completed.None? <==> forall i | 0 <= i < |lines| :: parse(lines[i]).Progress?
    decreases |lines|
  {
    if lines != [] {
      var e := parse(lines[0]);
      if e.Progress? {
        ProgressOnly(parse, updates + [e.update], lines[1..]);
        assert forall i | 0 < i < |lines| :: lines[i] == lines[1..][i - 1];
      } else {
        NeverNoneAgain(parse, Next(Going(updates, None), e), lines[1..]);
      }
    }
  }

  lemma {:induction false} NeverNoneAgain<P, B>(parse: seq<Byte> -> Event<P, B>, s: State<P, B>, lines: seq<seq<Byte>>)
    requires s.Stopped? || s.completed.Some?
    ensures var r := Fold(parse, s, lines); r.Stopped? || r.completed.Some?
    decreases |lines|
  {
    if lines != [] { NeverNoneAgain(parse, Next(s, parse(lines[0])), lines[1..]); }
  }

  /** The stream is progress events, then one result, each line ended. */
  ghost predicate WellFormed<P, B>(parse: seq<Byte> -> Event<P, B>, stream: seq<Byte>, b: B)
  {
    var lines := Complete(stream, NEWLINE);
    && |lines| > 0 && Rest(stream, NEWLINE) == []
    && (forall i | 0 <= i < |lines| - 1 :: parse(lines[i]).Progress?)
    && parse(lines[|lines| - 1]) == Result(Some(b))
  }

  lemma AcceptsIff<P, B>(parse: seq<Byte> -> Event<P, B>, stream: seq<Byte>, b: B)
    ensures Whole(parse, stream).verdict == Accepted(b) <==> WellFormed(parse, stream, b)
  {
    var lines := Complete(stream, NEWLINE);
    if lines != [] {
      var init, last := lines[..|lines| - 1], lines[|lines| - 1];
      assert lines == init + [last];
      FoldConcat(parse, Going([], None), init, [last]);
      var s := Fold(parse, Going([], None), init);
      assert Fold(parse, s, [last]) == Next(s, parse(last));
      ProgressOnly(parse, [], init);
    }
  }

  /** However the stream is cut, as long as every piece fits, the outcome is the same. */
  lemma ChunkingDoesNotMatter<P, B>(parse: seq<Byte> -> Event<P, B>, chunks: seq<seq<Byte>>, chunks': seq<seq<Byte>>)
    requires Concat(chunks) == Concat(chunks')
    requires (forall i | 0 <= i < |chunks| :: Fits(chunks, i)) && (forall i | 0 <= i < |chunks'| :: Fits(chunks', i))
    ensures Limited(parse, chunks) == Limited(parse, chunks') == Whole(parse, Concat(chunks))
  {
    TakenPast(chunks, |chunks|);
    TakenPast(chunks', |chunks'|);
  }

  // ---- The prelude's transport ----

  /** What one line makes the worker dispatch: nothing if it is blank or does not parse. */
  function Dispatched<M>(parse: string -> Option<M>, line: string): seq<M>
  {
    var text := Trim(line);
    if text == "" then [] else match parse(text) case None => [] case Some(m) => [m]
  }

  function Dispatcher<M>(parse: string -> Option<M>): string -> seq<M>
  {
    line => Dispatched(parse, line)
  }

  function DispatchAll<M>(parse: string -> Option<M>, lines: seq<string>): seq<M>
  {
    Gather(Dispatcher(parse), lines)
  }

  lemma DispatchCons<M>(parse: string -> Option<M>, line: string, more: seq<string>)
    ensures DispatchAll(parse, [line] + more) == Dispatched(parse, line) + DispatchAll(parse, more)
  {
    GatherCons(Dispatcher(parse), line, more);
  }

  class Transport<M> {
    const parse: string -> Option<M>
    var buffer: string
    var dispatched: seq<M>
    /** All the input so far. */
    ghost var input: string

    ghost predicate Valid()
      reads this
    {
      && buffer == Rest(input, '\n')
      && dispatched == DispatchAll(parse, Complete(input, '\n'))
    }

    constructor (parse: string -> Option<M>)
      ensures Valid() && input == "" && dispatched == [] && this.parse == parse
    {
      this.parse := parse;
      buffer, dispatched, input := "", [], "";
    }

    /** Consumes the first line of the buffer. */
    method TakeLine(nl: nat)
      requires nl == IndexOf(buffer, '\n') < |buffer|
      modifies `buffer, `dispatched
      ensures buffer == old(buffer)[nl + 1..]
      ensures dispatched == old(dispatched) + Dispatched(parse, old(buffer)[..nl])
    {
      var line := Trim(buffer[..nl]);
      buffer := buffer[nl + 1..];
      if line != "" {
        var parsed := parse(line);
        if parsed.Some? { dispatched := dispatched + [parsed.value]; }
      }
    }

    /** One `data` event: dispatch every line that is now complete, keep the rest. */
    method OnData(chunk: string)
      requires Valid()
      modifies this
      ensures Valid() && input == old(input) + chunk
    {
      ghost var done := Complete(input, '\n');
      SplitsAnywhere(input, chunk, '\n');
      buffer := buffer + chunk;
      input := input + chunk;
      ghost var todo := Complete(buffer, '\n');
      GatherConcat(Dispatcher(parse), done, todo);
      ghost var goal, rest := DispatchAll(parse, done + todo), Rest(buffer, '\n');
      var nl := IndexOf(buffer, '\n');
      while nl < |buffer|
        invariant nl == IndexOf(buffer, '\n') && input == old(input) + chunk
        invariant todo == Complete(buffer, '\n') && rest == Rest(buffer, '\n')
        invariant dispatched + DispatchAll(parse, todo) == goal
        decreases |buffer|
      {
        ghost var more := Complete(buffer[nl + 1..], '\n');
        DispatchCons(parse, buffer[..nl], more);
        Regroup(dispatched, Dispatched(parse, buffer[..nl]), DispatchAll(parse, more));
        TakeLine(nl);
        todo := more;
        nl := IndexOf(buffer, '\n');
      }
    }
  }

  /** Whatever the pieces, the transport has dispatched what the whole input says. */
  method Feed<M>(parse: string -> Option<M>, chunks: seq<string>) returns (messages: seq<M>)
    ensures messages == DispatchAll(parse, Complete(Concat(chunks), '\n'))
  {
    var t := new Transport(parse);
    for i := 0 to |chunks|
      invariant t.Valid() && t.input == Concat(chunks[..i])
      invariant t.parse == parse
    {
      ConcatSnoc(chunks, i);
      t.OnData(chunks[i]);
    }
    assert chunks[..|chunks|] == chunks;
    messages := t.dispatched;
  }
}
