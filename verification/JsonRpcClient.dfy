/**
 The line-framed JSON-RPC client: text arrives in arbitrary chunks, complete lines are handled
 as they come, and each response settles the request of its id.
 */
module JsonRpcClient {
  import opened Outcomes
  import Text

  /** A response's id (section 5 of JSON-RPC 2.0): absent, a number, or something no request carries. */
  datatype Id = Absent | Number(n: int) | Foreign

  /** A line that parses as JSON. */
  datatype Message = Message(id: Id, error: Option<string>, result: string, method_: Option<string>, note: string)

  datatype Outcome = Resolved(result: string) | Rejected(error: string)

  datatype Settlement = Settlement(id: int, outcome: Outcome)

  // ---------------------------------------------------------------- framing

  /** `text.split('\n')` */
  function Split(text: string): (pieces: seq<string>)
    ensures |pieces| >= 1
  {
    Text.Split(text, '\n')
  }

  /** The newline-terminated lines of a text. */
  function Lines(text: string): seq<string> {
    Split(text)[..|Split(text)| - 1]
  }

  /** What follows the last newline. */
  function Tail(text: string): string {
    Split(text)[|Split(text)| - 1]
  }

  function Unlines(lines: seq<string>): string {
    if |lines| == 0 then "" else lines[0] + (['\n'] + Unlines(lines[1..]))
  }

  lemma UnlinesHead(first: string, rest: seq<string>, tail: string)
    ensures Unlines([first] + rest) + tail == first + (['\n'] + (Unlines(rest) + tail))
  {
  }

  lemma OneMore(c: char, a: string, b: string)
    ensures ([c] + a) + b == [c] + (a + b)
  {
  }

  /** Lines and tail put together are the text, and none of them contains a newline. */
  lemma {:induction false} FramingIsFaithful(text: string)
    ensures Unlines(Lines(text)) + Tail(text) == text
    ensures (forall k :: 0 <= k < |Lines(text)| ==> '\n' !in Lines(text)[k]) && '\n' !in Tail(text)
  {
    if |text| > 0 {
      FramingIsFaithful(text[1..]);
      SplitHead(text);
      var later, tail := Lines(text[1..]), Tail(text[1..]);
      assert text == [text[0]] + text[1..];
      if text[0] == '\n' {
        UnlinesHead("", later, tail);
      } else if |later| > 0 {
        assert later == [later[0]] + later[1..];
        UnlinesHead(later[0], later[1..], tail);
        UnlinesHead([text[0]] + later[0], later[1..], tail);
        OneMore(text[0], later[0], ['\n'] + (Unlines(later[1..]) + tail));
      }
    }
  }

  /** How one more character in front changes lines and tail. */
  lemma SplitHead(text: string)
    requires |text| > 0
    ensures text[0] == '\n' ==> Lines(text) == [""] + Lines(text[1..]) && Tail(text) == Tail(text[1..])
    ensures text[0] != '\n' && |Lines(text[1..])| == 0 ==>
        Lines(text) == [] && Tail(text) == [text[0]] + Tail(text[1..])
    ensures text[0] != '\n' && |Lines(text[1..])| > 0 ==>
      Lines(text) == [[text[0]] + Lines(text[1..])[0]] + Lines(text[1..])[1..] && Tail(text) == Tail(text[1..])
  {
  }

  /** Text that arrives later continues the unterminated tail. */
  lemma {:induction false} FramingContinues(a: string, b: string)
    ensures Lines(a + b) == Lines(a) + Lines(Tail(a) + b)
    ensures Tail(a + b) == Tail(Tail(a) + b)
  {
    if |a| == 0 {
      assert a + b == b && Tail(a) + b == b;
    } else {
      assert (a + b)[1..] == a[1..] + b;
      FramingContinues(a[1..], b);
      SplitHead(a);
      SplitHead(a + b);
      if a[0] != '\n' && |Lines(a[1..])| == 0 {
        var c := Tail(a) + b;
        assert c[1..] == Tail(a[1..]) + b;
        SplitHead(c);
      }
    }
  }

  // ---------------------------------------------------------------- handling lines, as functions

  /** Requests sent so far, those pending, and everything settled and logged, in order. */
  datatype State = State(requestCounter: nat, pending: set<int>, settled: seq<Settlement>, log: seq<string>)

  const FRESH: State := State(0, {}, [], [])

  function HandleMessage(s: State, m: Message): State {
    if m.id.Absent? then
      if m.method_ == Some("notifications/message") then s.(log := s.log + [m.note]) else s
    else if m.id.Number? && m.id.n in s.pending then
      s.(pending := s.pending - {m.id.n},
         settled := s.settled
             + [Settlement(m.id.n, if m.error.Some? then Rejected(m.error.value) else Resolved(m.result))])
    else s
  }

  /** How a line is read: blank lines and lines that are not JSON carry no message. */
  function Reader(parse: string -> Option<Message>): string -> Option<Message> {
    line => if Text.Trim(line) == "" then None else parse(line)
  }

  /** Only lines of white space are passed over unread. */
  lemma BlankLinesPassedOver(parse: string -> Option<Message>, line: string)
    ensures Reader(parse)(line) == if Text.Blank(line) then None else parse(line)
  {
    var i := Text.TrimStands(line);
  }

  function HandleLine(s: State, read: string -> Option<Message>, line: string): State {
    match read(line)
    case None => s
    case Some(m) => HandleMessage(s, m)
  }

  function HandleLines(s: State, read: string -> Option<Message>, lines: seq<string>): State
    decreases |lines|
  {
    if |lines| == 0 then s else HandleLines(HandleLine(s, read, lines[0]), read, lines[1..])
  }

  // ---------------------------------------------------------------- the client

  class Client {
    const parse: string -> Option<Message>
    var requestCounter: nat
    var pendingRequests: set<int>
    var settled: seq<Settlement>
    var log: seq<string>
    var buffer: string

    function Now(): State
      reads this
    {
      State(requestCounter, pendingRequests, settled, log)
    }

    constructor (parse: string -> Option<Message>)
      ensures this.parse == parse && Now() == FRESH && buffer == ""
    {
      this.parse := parse;
      requestCounter, pendingRequests, settled, log, buffer := 0, {}, [], [], "";
    }

    method HandleJsonLine(line: string)
      modifies this
      ensures Now() == HandleLine(old(Now()), Reader(parse), line) && buffer == old(buffer)
    {
      if Text.Trim(line) == "" {
        return;
      }
      var response := parse(line);
      if response.None? {
        return;
      }
      var m := response.value;
      if !m.id.Absent? {
        if m.id.Number? && m.id.n in pendingRequests {
          pendingRequests := pendingRequests - {m.id.n};
          if m.error.Some? {
            settled := settled + [Settlement(m.id.n, Rejected(m.error.value))];
          } else {
            settled := settled + [Settlement(m.id.n, Resolved(m.result))];
          }
        }
      } else if m.method_ == Some("notifications/message") {
        log := log + [m.note];
      }
    }

    method HandleData(data: string)
      modifies this
      ensures Now() == HandleLines(old(Now()), Reader(parse), Lines(old(buffer) + data))
      ensures buffer == Tail(old(buffer) + data)
    {
      buffer := buffer + data;
      var lines := Split(buffer);
      ghost var all, tail := Lines(buffer), Tail(buffer);
      while |lines| > 1
        invariant 1 <= |lines| && lines[|lines| - 1] == tail
        invariant HandleLines(old(Now()), Reader(parse), all) == HandleLines(Now(), Reader(parse), lines[..|lines| - 1])
      {
        assert lines[..|lines| - 1][1..] == lines[1..][..|lines| - 2];
        HandleJsonLine(lines[0]);
        lines := lines[1..];
      }
      buffer := lines[0];
    }

    /** Registers a request under the next id; what is written to the child process is not kept here. */
    method Send() returns (id: int)
      modifies this
      ensures Now() == Sent(old(Now())) && id == requestCounter && buffer == old(buffer)
    {
      requestCounter := requestCounter + 1;
      id := requestCounter;
      pendingRequests := pendingRequests + {id};
    }
  }

  function Sent(s: State): State {
    s.(requestCounter := s.requestCounter + 1, pending := s.pending + {s.requestCounter + 1})
  }

  // ---------------------------------------------------------------- chunking does not matter

  /** The client's state and buffer after a chunk. */
  function Receive(s: State, buffer: string, read: string -> Option<Message>, chunk: string): (State, string) {
    (HandleLines(s, read, Lines(buffer + chunk)), Tail(buffer + chunk))
  }

  function ReceiveAll(s: State, buffer: string, read: string -> Option<Message>, chunks: seq<string>): (State, string)
    decreases |chunks|
  {
    if |chunks| == 0 then (s, buffer) else
    var (next, rest) := Receive(s, buffer, read, chunks[0]);
    ReceiveAll(next, rest, read, chunks[1..])
  }

  function Concat(chunks: seq<string>): string {
    if |chunks| == 0 then "" else chunks[0] + Concat(chunks[1..])
  }

  lemma HandleFirst(s: State, read: string -> Option<Message>, line: string, rest: seq<string>)
    ensures HandleLines(s, read, [line] + rest) == HandleLines(HandleLine(s, read, line), read, rest)
  {
  }

  lemma {:induction false} HandleLinesInTurn(s: State, read: string -> Option<Message>, a: seq<string>, b: seq<string>)
    ensures HandleLines(s, read, a + b) == HandleLines(HandleLines(s, read, a), read, b)
    decreases |a|
  {
    if |a| == 0 {
      assert a + b == b;
    } else {
      var line, rest := a[0], a[1..];
      HandleLinesInTurn(HandleLine(s, read, line), read, rest, b);
      HandleFirst(s, read, line, rest);
      HandleFirst(s, read, line, rest + b);
      assert a == [line] + rest && a + b == [line] + (rest + b);
    }
  }

  lemma {:induction false} UnterminatedHasNoLines(text: string)
    requires '\n' !in text
    ensures Lines(text) == [] && Tail(text) == text
  {
    if |text| > 0 {
      UnterminatedHasNoLines(text[1..]);
      SplitHead(text);
    }
  }

  lemma ConcatContinues(buffer: string, chunks: seq<string>)
    requires |chunks| > 0
    ensures (buffer + chunks[0]) + Concat(chunks[1..]) == buffer + Concat(chunks)
  {
    Text.Associative(buffer, chunks[0], Concat(chunks[1..]));
  }

  /** A text handled in two parts. */
  lemma TwoParts(s: State, read: string -> Option<Message>, text: string, rest: string)
    ensures HandleLines(HandleLines(s, read, Lines(text)), read, Lines(Tail(text) + rest))
        == HandleLines(s, read, Lines(text + rest))
    ensures Tail(Tail(text) + rest) == Tail(text + rest)
  {
    FramingContinues(text, rest);
    HandleLinesInTurn(s, read, Lines(text), Lines(Tail(text) + rest));
  }

  /**
   Framing is independent of chunking: for every split of the incoming text into chunks, the
   lines handled are the newline-terminated lines of the whole text in order, and the buffer is
   its unterminated tail.
   */
  lemma {:induction false} ChunkingDoesNotMatter(
      s: State, buffer: string, read: string -> Option<Message>, chunks: seq<string>)
    requires '\n' !in buffer
    ensures ReceiveAll(s, buffer, read, chunks)
         == (HandleLines(s, read, Lines(buffer + Concat(chunks))), Tail(buffer + Concat(chunks)))
    decreases |chunks|
  {
    if |chunks| == 0 {
      assert buffer + "" == buffer;
      UnterminatedHasNoLines(buffer);
    } else {
      var text, rest := buffer + chunks[0], Concat(chunks[1..]);
      FramingIsFaithful(text);
      var next := HandleLines(s, read, Lines(text));
      ChunkingDoesNotMatter(next, Tail(text), read, chunks[1..]);
      TwoParts(s, read, text, rest);
      ConcatContinues(buffer, chunks);
    }
  }

  // ---------------------------------------------------------------- every request is settled at most once

  function TimesSettled(settled: seq<Settlement>, id: int): nat {
    if |settled| == 0 then 0
    else TimesSettled(settled[..|settled| - 1], id) + (if settled[|settled| - 1].id == id then 1 else 0)
  }

  /** Every request sent is either pending or settled exactly once; nothing else is pending or settled. */
  ghost predicate Accounted(s: State) {
    forall id ::
      TimesSettled(s.settled, id) + (if id in s.pending then 1 else 0)
      == if 1 <= id <= s.requestCounter then 1 else 0
  }

  lemma MessageKeepsAccounts(s: State, m: Message)
    requires Accounted(s)
    ensures Accounted(HandleMessage(s, m))
    ensures s.settled <= HandleMessage(s, m).settled
  {
  }

  lemma {:induction false} LinesKeepAccounts(s: State, read: string -> Option<Message>, lines: seq<string>)
    requires Accounted(s)
    ensures Accounted(HandleLines(s, read, lines))
    ensures s.settled <= HandleLines(s, read, lines).settled
    decreases |lines|
  {
    if |lines| > 0 {
      var next := HandleLine(s, read, lines[0]);
      if read(lines[0]).Some? {
        MessageKeepsAccounts(s, read(lines[0]).value);
      }
      LinesKeepAccounts(next, read, lines[1..]);
    }
  }

  datatype Event = SendRequest | Data(chunk: string)

  function RunEvents(read: string -> Option<Message>, events: seq<Event>): (State, string) {
    if |events| == 0 then (FRESH, "") else
    var (s, buffer) := RunEvents(read, events[..|events| - 1]);
    match events[|events| - 1]
    case SendRequest => (Sent(s), buffer)
    case Data(chunk) => Receive(s, buffer, read, chunk)
  }

  /** Whatever the child process writes and when, each request sent is pending or settled exactly once. */
  lemma {:induction false} RequestsSettleOnce(read: string -> Option<Message>, events: seq<Event>)
    ensures Accounted(RunEvents(read, events).0)
  {
    if |events| > 0 {
      RequestsSettleOnce(read, events[..|events| - 1]);
      var (s, buffer) := RunEvents(read, events[..|events| - 1]);
      match events[|events| - 1]
      case SendRequest =>
      case Data(chunk) => LinesKeepAccounts(s, read, Lines(buffer + chunk));
    }
  }

  // ---------------------------------------------------------------- what settles a request, and how

  /** The line is a response to the request. */
  ghost predicate Answers(read: string -> Option<Message>, line: string, id: int) {
    read(line).Some? && read(line).value.id == Number(id)
  }

  ghost predicate Unanswered(read: string -> Option<Message>, lines: seq<string>, id: int) {
    forall k :: 0 <= k < |lines| ==> !Answers(read, lines[k], id)
  }

  /** The response's error rejects the request; without one its result resolves it. */
  ghost predicate Conveys(m: Message, outcome: Outcome) {
    match m.error
    case Some(error) => outcome == Rejected(error)
    case None => outcome == Resolved(m.result)
  }

  /** Line k is the first response to a pending request, and this is how it settles it. */
  ghost predicate SettledBy(
      pending: set<int>, read: string -> Option<Message>, lines: seq<string>, x: Settlement, k: nat) {
    && k < |lines| && x.id in pending && Answers(read, lines[k], x.id) && Unanswered(read, lines[..k], x.id)
    && Conveys(read(lines[k]).value, x.outcome)
  }

  ghost predicate HasSettler(
      pending: set<int>, read: string -> Option<Message>, lines: seq<string>, x: Settlement) {
    exists k: nat :: SettledBy(pending, read, lines, x, k)
  }

  /** The notes of the log notifications among the lines. */
  ghost function Notes(read: string -> Option<Message>, lines: seq<string>): seq<string> {
    if |lines| == 0 then [] else
    var m := read(lines[|lines| - 1]);
    var earlier := Notes(read, lines[..|lines| - 1]);
    if m.Some? && m.value.id == Absent && m.value.method_ == Some("notifications/message")
    then earlier + [m.value.note] else earlier
  }

  lemma SettlerOfOneMore(pending: set<int>, read: string -> Option<Message>, lines: seq<string>, x: Settlement)
    requires |lines| > 0
    ensures var init, last := lines[..|lines| - 1], lines[|lines| - 1];
            HasSettler(pending, read, lines, x) <==>
              || HasSettler(pending, read, init, x)
              || (x.id in pending && Answers(read, last, x.id) && Unanswered(read, init, x.id)
                  && Conveys(read(last).value, x.outcome))
  {
    var n := |lines| - 1;
    var init := lines[..n];
    assert lines[..n] == init;
    if HasSettler(pending, read, lines, x) {
      var k: nat :| SettledBy(pending, read, lines, x, k);
      assert k < n ==> init[..k] == lines[..k] && SettledBy(pending, read, init, x, k);
    }
    if HasSettler(pending, read, init, x) {
      var k: nat :| SettledBy(pending, read, init, x, k);
      assert init[..k] == lines[..k] && SettledBy(pending, read, lines, x, k);
    } else if x.id in pending && Answers(read, lines[n], x.id) && Unanswered(read, init, x.id)
              && Conveys(read(lines[n]).value, x.outcome) {
      assert SettledBy(pending, read, lines, x, n);
    }
  }

  lemma UnansweredByOneMore(read: string -> Option<Message>, lines: seq<string>, id: int)
    requires |lines| > 0
    ensures Unanswered(read, lines, id) <==>
            Unanswered(read, lines[..|lines| - 1], id) && !Answers(read, lines[|lines| - 1], id)
  {
    var init := lines[..|lines| - 1];
    if Unanswered(read, lines, id) {
      assert forall k :: 0 <= k < |init| ==> init[k] == lines[k];
    }
    if Unanswered(read, init, id) && !Answers(read, lines[|lines| - 1], id) {
      forall k | 0 <= k < |lines| ensures !Answers(read, lines[k], id) {
        assert k < |init| ==> init[k] == lines[k];
      }
    }
  }

  /** What handling the lines has done so far, told by the lines. */
  ghost predicate Handled(s: State, after: State, read: string -> Option<Message>, lines: seq<string>) {
    && after.requestCounter == s.requestCounter
    && after.log == s.log + Notes(read, lines)
    && (forall id :: id in after.pending <==> id in s.pending && Unanswered(read, lines, id))
    && s.settled <= after.settled
    && (forall x :: x in after.settled[|s.settled|..] <==> HasSettler(s.pending, read, lines, x))
  }

  lemma LastLineHandled(s: State, before: State, read: string -> Option<Message>, lines: seq<string>)
    requires |lines| > 0 && Handled(s, before, read, lines[..|lines| - 1])
    ensures Handled(s, HandleLine(before, read, lines[|lines| - 1]), read, lines)
  {
    var init, last, n := lines[..|lines| - 1], lines[|lines| - 1], |s.settled|;
    var after := HandleLine(before, read, last);
    forall id ensures id in after.pending <==> id in s.pending && Unanswered(read, lines, id) {
      UnansweredByOneMore(read, lines, id);
    }
    assert after.settled[n..] == before.settled[n..] + after.settled[|before.settled|..];
    forall x ensures x in after.settled[n..] <==> HasSettler(s.pending, read, lines, x) {
      SettlerOfOneMore(s.pending, read, lines, x);
      assert x in after.settled[n..] <==> x in before.settled[n..] || x in after.settled[|before.settled|..];
    }
  }

  /**
   Of all lines received, the first response to a pending request settles it, by rejection
   exactly if it carries an error; nothing else is settled, and the log gains exactly the notes
   of the log notifications, in order.
   */
  lemma {:induction false} FirstResponseSettles(s: State, read: string -> Option<Message>, lines: seq<string>)
    ensures Handled(s, HandleLines(s, read, lines), read, lines)
  {
    if |lines| == 0 {
      assert s.settled[|s.settled|..] == [];
    } else {
      var init, last := lines[..|lines| - 1], lines[|lines| - 1];
      FirstResponseSettles(s, read, init);
      HandleLinesInTurn(s, read, init, [last]);
      assert lines == init + [last];
      HandleFirst(HandleLines(s, read, init), read, last, []);
      assert [last] + [] == [last];
      LastLineHandled(s, HandleLines(s, read, init), read, lines);
    }
  }

  /** A request takes the next number and waits; no earlier one is affected. */
  lemma SentOutcome(s: State)
    requires Accounted(s)
    ensures var after := Sent(s);
            && after.requestCounter == s.requestCounter + 1 && after.settled == s.settled && after.log == s.log
            && s.requestCounter + 1 !in s.pending
            && forall id :: id in after.pending <==> id in s.pending || id == s.requestCounter + 1
  {
    assert TimesSettled(s.settled, s.requestCounter + 1) + (if s.requestCounter + 1 in s.pending then 1 else 0) == 0;
  }
}
