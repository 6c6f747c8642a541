/** One message per line: a sender writes the JSON text of a message and a newline, and the
    receiving transport gives back the same messages however the bytes were cut. */
module Framing {
  import opened Common
  import opened JsonText
  import opened Lines
  import opened LineReaders

  // ---- The wire ----

  function Texts(messages: seq<Json>): seq<string>
  {
    seq(|messages|, i requires 0 <= i < |messages| => Text(messages[i]))
  }

  /** What the sender writes: each text and a newline. */
  function Wire(messages: seq<Json>): string
  {
    Joined(Texts(messages), '\n')
  }

  lemma ObjectNeedsNoTrim(m: Json)
    requires m.Obj?
    ensures Trim(Text(m)) == Text(m) && Text(m) != ""
  {
    var t := Text(m);
    assert t[0] == '{' && t[|t| - 1] == '}';
  }

  lemma {:induction false} MessagesComeBack(parse: string -> Option<Json>, messages: seq<Json>)
    requires forall i | 0 <= i < |messages| :: messages[i].Obj? && parse(Text(messages[i])) == Some(messages[i])
    ensures DispatchAll(parse, Texts(messages)) == messages
    decreases |messages|
  {
    if messages != [] {
      ObjectNeedsNoTrim(messages[0]);
      assert Texts(messages) == [Text(messages[0])] + Texts(messages[1..]);
      DispatchCons(parse, Text(messages[0]), Texts(messages[1..]));
      MessagesComeBack(parse, messages[1..]);
      assert messages == [messages[0]] + messages[1..];
    }
  }

  /** Given a parser that undoes the printer, every sequence of messages arrives unchanged,
      in order, for every way of cutting the stream. */
  lemma FramedMessagesArrive(parse: string -> Option<Json>, messages: seq<Json>, chunks: seq<string>)
    requires forall i | 0 <= i < |messages| :: messages[i].Obj? && Printable(messages[i])
    requires forall i | 0 <= i < |messages| :: parse(Text(messages[i])) == Some(messages[i])
    requires Concat(chunks) == Wire(messages)
    ensures DispatchAll(parse, Complete(Concat(chunks), '\n')) == messages && Rest(Concat(chunks), '\n') == ""
  {
    forall i | 0 <= i < |messages| ensures '\n' !in Texts(messages)[i] { TextIsOneLine(messages[i]); }
    FramingReadsBack(Texts(messages), '\n');
    MessagesComeBack(parse, messages);
  }

  /** Nothing about the parser has to be taken on trust if it reads each text as the value it is the
      text of. */
  lemma MessagesArriveAsTheirValues(messages: seq<Json>, chunks: seq<string>)
    requires forall i | 0 <= i < |messages| :: messages[i].Obj? && Printable(messages[i])
    requires Concat(chunks) == Wire(messages)
    ensures DispatchAll(t => ValueOf(t), Complete(Concat(chunks), '\n')) == messages && Rest(Concat(chunks), '\n') == ""
  {
    var parse := t => ValueOf(t);
    forall i | 0 <= i < |messages| ensures parse(Text(messages[i])) == Some(messages[i]) { ParserUndoesPrinter(messages[i]); }
    FramedMessagesArrive(parse, messages, chunks);
  }

  /** The receiving transport, fed with the pieces one by one, dispatches exactly the messages that
      were sent, in order. */
  method Deliver(parse: string -> Option<Json>, ghost messages: seq<Json>, chunks: seq<string>) returns (received: seq<Json>)
    requires forall i | 0 <= i < |messages| :: messages[i].Obj? && Printable(messages[i])
    requires forall i | 0 <= i < |messages| :: parse(Text(messages[i])) == Some(messages[i])
    requires Concat(chunks) == Wire(messages)
    ensures received == messages
  {
    received := Feed(parse, chunks);
    FramedMessagesArrive(parse, messages, chunks);
  }
}
