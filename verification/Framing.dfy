/** Messages on a connection: how they are written to the byte stream and read from it. */
module Framing {
  import opened Rio

  datatype Message = Message(tag: string, data: string)

  datatype Result = SUCCESS | EOF_OR_ERROR | INVALID_MSG

  const MAX_LEN: nat := 255

  predicate Known(tag: string) {
    || tag == "err" || tag == "ok" || tag == "slogin" || tag == "rlogin" || tag == "join" || tag == "leave"
    || tag == "sendall" || tag == "senduser" || tag == "quit" || tag == "delivery" || tag == "empty"
  }

  function Encoded(msg: Message): string { msg.tag + ":" + msg.data + "\n" }

  /** The first line of a stream as `receive` reads it. */
  function LineOf(stream: string): string { stream[..LineLength(stream, MAX_LEN - 1)] }

  /** A char array read as a C string. */
  function CString(s: string): string { s[..First(s, '\0', 0)] }

  /** The message in a line. Without a colon, both its parts are the whole text. */
  function Parsed(line: string): Message {
    var text := CString(line);
    var colon := First(text, ':', 0);
    if colon == |text| then Message(text, text) else Message(text[..colon], text[colon + 1..])
  }

  lemma {:induction false} FirstIs(s: string, c: char, from: nat, i: nat)
    requires from <= i <= |s| && forall k :: from <= k < i ==> s[k] != c
    requires i < |s| ==> s[i] == c
    ensures First(s, c, from) == i
    decreases i - from
  {
    if from < i {
      FirstIs(s, c, from + 1, i);
    }
  }

  /** Whatever stands behind the terminator does not matter. */
  lemma TerminatorCuts(s: string, n: nat)
    requires n < |s| && s[n] == '\0'
    ensures CString(s) == CString(s[..n])
  {
    var i := First(s, '\0', 0);
    if n < i {
      FirstSkips(s, '\0', 0, n);
    }
    forall k | 0 <= k < i ensures s[k] != '\0' {
      FirstSkips(s, '\0', 0, k);
    }
    FirstIs(s[..n], '\0', 0, i);
  }

  /** The tags of the protocol. */
  const TAGS := ["err", "ok", "slogin", "rlogin", "join", "leave", "sendall", "senduser", "quit", "delivery", "empty"]

  /** `text` is `tag`, or begins with it and a colon. */
  predicate Carries(text: string, tag: string) { text == tag || tag + ":" <= text }

  /** A line is a message if its text, up to a NUL, is one of the eleven tags alone or begins
      with one of them and a colon. */
  predicate Accepted(line: string) {
    exists k :: 0 <= k < |TAGS| && Carries(CString(line), TAGS[k])
  }

  lemma KnownTag(tag: string)
    ensures Known(tag) <==> exists k :: 0 <= k < |TAGS| && TAGS[k] == tag
  {
    assert TAGS[0] == "err" && TAGS[1] == "ok" && TAGS[2] == "slogin" && TAGS[3] == "rlogin";
    assert TAGS[4] == "join" && TAGS[5] == "leave" && TAGS[6] == "sendall" && TAGS[7] == "senduser";
    assert TAGS[8] == "quit" && TAGS[9] == "delivery" && TAGS[10] == "empty";
  }

  /** The tag a line is given is the one it carries. */
  lemma ParsedCarries(line: string, tag: string)
    requires forall k :: 0 <= k < |tag| ==> tag[k] != ':'
    ensures Parsed(line).tag == tag <==> Carries(CString(line), tag)
  {
    var text := CString(line);
    var colon := First(text, ':', 0);
    if colon < |text| && text[..colon] == tag {
      assert text[..|tag| + 1] == tag + ":";
    } else if Carries(text, tag) && |tag| < |text| {
      assert text[..|tag|] == tag && text[|tag|] == ':';
      forall k | 0 <= k < |tag| ensures text[k] != ':' {
        assert text[k] == tag[k];
      }
      FirstIs(text, ':', 0, |tag|);
    } else if text == tag {
      forall k | 0 <= k < |text| ensures text[k] != ':' {
        assert text[k] == tag[k];
      }
      FirstIs(text, ':', 0, |text|);
    }
  }

  /** Which lines are accepted. */
  lemma AcceptedIsKnown(line: string)
    ensures Known(Parsed(line).tag) <==> Accepted(line)
  {
    var tag := Parsed(line).tag;
    KnownTag(tag);
    if Known(tag) {
      PlainTag(tag);
      ParsedCarries(line, tag);
    } else if Accepted(line) {
      var k :| 0 <= k < |TAGS| && Carries(CString(line), TAGS[k]);
      KnownTag(TAGS[k]);
      PlainTag(TAGS[k]);
      ParsedCarries(line, TAGS[k]);
    }
  }

  lemma CutAt(text: string, i: nat)
    requires i < |text|
    ensures text == text[..i] + [text[i]] + text[i + 1..]
  {
  }

  lemma NoneBefore(text: string, c: char)
    ensures c !in text[..First(text, c, 0)]
  {
    forall i | 0 <= i < First(text, c, 0) ensures text[i] != c {
      FirstSkips(text, c, 0, i);
    }
  }

  lemma FoundIfThere(text: string, c: char, k: nat)
    requires k < |text| && text[k] == c
    ensures First(text, c, 0) < |text|
  {
    if k < First(text, c, 0) {
      FirstSkips(text, c, 0, k);
    }
  }

  /** The first colon splits a text in two. */
  lemma SplitAtColon(text: string)
    requires ':' in text
    ensures var colon := First(text, ':', 0);
            colon < |text| && ':' !in text[..colon] && text == text[..colon] + ":" + text[colon + 1..]
  {
    var k: nat :| k < |text| && text[k] == ':';
    FoundIfThere(text, ':', k);
    NoneBefore(text, ':');
    CutAt(text, First(text, ':', 0));
  }

  lemma OneSplit(tag: string, data: string)
    requires ':' !in tag
    ensures var text := tag + ":" + data;
            First(text, ':', 0) == |tag| && text[..|tag|] == tag && text[|tag| + 1..] == data
  {
    var text := tag + ":" + data;
    forall i | 0 <= i < |tag| ensures text[i] != ':' {
      assert text[i] == tag[i];
    }
    FirstIs(text, ':', 0, |tag|);
  }

  /** How a line is taken apart: its text ends at the first NUL, its tag at the first colon,
      and the data is what follows; a text without a colon is both tag and data. */
  lemma ParsedMeans(line: string, text: string, msg: Message)
    requires text <= line && (forall k :: 0 <= k < |text| ==> text[k] != '\0')
    requires text == line || line[|text|] == '\0'
    ensures Parsed(line) == msg <==>
            if ':' in text then text == msg.tag + ":" + msg.data && ':' !in msg.tag
            else msg == Message(text, text)
  {
    FirstIs(line, '\0', 0, |text|);
    assert CString(line) == text;
    if ':' in text {
      SplitAtColon(text);
      if ':' !in msg.tag {
        OneSplit(msg.tag, msg.data);
      }
    } else {
      FirstIs(text, ':', 0, |text|);
    }
  }

  class Connection {
    const io: Buffered
    var lastResult: Result

    ghost predicate Valid()
      reads this, io
    {
      io.Valid()
    }

    constructor (fd: Descriptor)
      ensures Valid() && fresh(io) && fresh(io.buf) && io.fd == fd && lastResult == SUCCESS
      ensures io.Rest() == fd.incoming
    {
      io := new Buffered(fd);
      lastResult := SUCCESS;
    }

    /** Writes the whole encoding, however the calls split it up, or reports the error. */
    method Send(msg: Message) returns (ok: bool)
      requires Valid()
      modifies this, io.fd`outgoing, io.fd`plan
      ensures Valid() && io.Rest() == old(io.Rest())
      ensures lastResult == if ok then SUCCESS else EOF_OR_ERROR
      ensures ok ==> io.fd.outgoing == old(io.fd.outgoing) + (msg.tag + ":" + msg.data + "\n")
      ensures !ok ==> WrotePart(old(io.fd.outgoing), io.fd.outgoing, Encoded(msg))
      ensures old(Reliable(io.fd.plan)) ==> Reliable(io.fd.plan) && ok
    {
      var message := msg.tag + ":" + msg.data + "\n";
      var result := WriteN(io.fd, message);
      ok := result == |message|;
      lastResult := if ok then SUCCESS else EOF_OR_ERROR;
    }

    /** Reads the next line of the stream, however it arrives, and takes it apart. */
    method Receive(msg: Message) returns (ok: bool, received: Message)
      requires Valid()
      modifies this, io, io.buf, io.fd`incoming, io.fd`plan
      ensures Valid() && (ok <==> lastResult == SUCCESS)
      ensures lastResult == EOF_OR_ERROR ==> received == msg.(tag := "empty")
      ensures lastResult != EOF_OR_ERROR ==>
                var stream := old(io.Rest());
                && stream != "" && received == Parsed(LineOf(stream)) && ok == Accepted(LineOf(stream))
                && io.Rest() == stream[|LineOf(stream)|..]
      ensures EndOf(io.Rest(), old(io.Rest()))
      ensures old(Reliable(io.fd.plan)) ==>
                Reliable(io.fd.plan) && (lastResult == EOF_OR_ERROR <==> old(io.Rest()) == "")
    {
      ghost var stream := io.Rest();
      var buf := new char[MAX_LEN];
      var n := io.ReadLine(buf, MAX_LEN);
      SomeLine(stream, MAX_LEN - 1);
      if n <= 0 {
        lastResult := EOF_OR_ERROR;
        return false, msg.(tag := "empty");
      }
      TerminatorCuts(buf[..], n);
      assert buf[..][..n] == buf[..n] == LineOf(stream);
      var text := CString(buf[..]);
      var index := First(text, ':', 0);
      received := if index == |text| then Message(text, text) else Message(text[..index], text[index + 1..]);
      ok := Known(received.tag);
      AcceptedIsKnown(LineOf(stream));
      lastResult := if ok then SUCCESS else INVALID_MSG;
    }
  }

  lemma SomeLine(s: string, max: nat)
    requires max > 0
    ensures LineLength(s, max) == 0 <==> s == ""
  {
  }

  predicate Without(s: string, c: char) { First(s, c, 0) == |s| }

  /** What the format asks of a message: no newline or NUL in its data, at most 254 bytes. */
  predicate Fits(msg: Message) {
    Without(msg.data, '\n') && Without(msg.data, '\0') && |Encoded(msg)| <= MAX_LEN - 1
  }

  /** A message as the receiver sees it: the newline stays with the data. */
  function Seen(msg: Message): Message { msg.(data := msg.data + "\n") }

  function Min(a: nat, b: nat): nat { if a <= b then a else b }

  /** How many characters of its data and newline are in the line a message arrives as:
      those up to the first newline, in the first 254 bytes. */
  function InLine(msg: Message): (k: nat)
    requires Known(msg.tag)
    ensures k <= |msg.data| + 1
  {
    Min(First(msg.data, '\n', 0) + 1, MAX_LEN - 1 - |msg.tag| - 1)
  }

  /** How many of them the message arrives with: those before the first NUL. */
  function Kept(msg: Message): (k: nat)
    requires Known(msg.tag)
    ensures k <= |msg.data| + 1
  {
    var nul := First(msg.data, '\0', 0);
    if nul < |msg.data| then Min(nul, InLine(msg)) else InLine(msg)
  }

  predicate Plain(c: char) { c != ':' && c != '\n' && c != '\0' }

  lemma PlainTag(tag: string)
    requires Known(tag)
    ensures |tag| <= 8 && forall k :: 0 <= k < |tag| ==> Plain(tag[k])
  {
  }

  /** The place of `c` in a tag, a colon, some data, and what follows. */
  lemma FirstInMessage(tag: string, data: string, c: char, after: string)
    requires c != ':' && forall k :: 0 <= k < |tag| ==> tag[k] != c
    requires First(data, c, 0) < |data| || (after != "" && after[0] == c) || after == ""
    ensures First(tag + ":" + data + after, c, 0) == |tag| + 1 + First(data, c, 0)
  {
    var s, d := tag + ":" + data + after, First(data, c, 0);
    var i := |tag| + 1 + d;
    forall k | 0 <= k < i ensures s[k] != c {
      if k > |tag| {
        FirstSkips(data, c, 0, k - |tag| - 1);
      }
    }
    FirstIs(s, c, 0, i);
  }

  /** Cutting a string before or behind its first `c`. */
  lemma FirstInPart(s: string, c: char, n: nat)
    requires n <= |s|
    ensures First(s[..n], c, 0) == Min(First(s, c, 0), n)
  {
    var i := Min(First(s, c, 0), n);
    forall k | 0 <= k < i ensures s[k] != c {
      FirstSkips(s, c, 0, k);
    }
    FirstIs(s[..n], c, 0, i);
  }

  lemma LineArrives(msg: Message, rest: string)
    requires Known(msg.tag)
    ensures LineOf(Encoded(msg) + rest) == msg.tag + ":" + (msg.data + "\n")[..InLine(msg)]
  {
    PlainTag(msg.tag);
    var stream := msg.tag + ":" + msg.data + ("\n" + rest);
    FirstInMessage(msg.tag, msg.data, '\n', "\n" + rest);
    assert Encoded(msg) + rest == stream;
  }

  lemma NulInData(data: string, n: nat)
    requires n <= |data| + 1
    ensures First((data + "\n")[..n], '\0', 0)
            == if First(data, '\0', 0) < |data| then Min(First(data, '\0', 0), n) else n
  {
    var i := First(data, '\0', 0);
    forall k | 0 <= k < i ensures (data + "\n")[k] != '\0' {
      FirstSkips(data, '\0', 0, k);
    }
    FirstIs(data + "\n", '\0', 0, if i < |data| then i else |data| + 1);
    FirstInPart(data + "\n", '\0', n);
  }

  lemma CStringOfLine(tag: string, part: string)
    requires Known(tag)
    ensures CString(tag + ":" + part) == tag + ":" + part[..First(part, '\0', 0)]
  {
    PlainTag(tag);
    FirstInMessage(tag, part, '\0', "");
    assert tag + ":" + part + "" == tag + ":" + part;
  }

  lemma ColonFound(tag: string, part: string)
    requires Known(tag)
    ensures First(tag + ":" + part, ':', 0) == |tag|
  {
    PlainTag(tag);
    FirstIs(tag + ":" + part, ':', 0, |tag|);
  }

  /** A line with a known tag is taken apart at its colon, and its data ends at a NUL. */
  lemma ParsedLine(tag: string, part: string)
    requires Known(tag)
    ensures Parsed(tag + ":" + part) == Message(tag, part[..First(part, '\0', 0)])
  {
    CStringOfLine(tag, part);
    var kept := part[..First(part, '\0', 0)];
    ColonFound(tag, kept);
    var text := tag + ":" + kept;
    assert text[..|tag|] == tag && text[|tag| + 1..] == kept;
  }

  /** What becomes of any message with a known tag, whatever follows it in the stream. */
  lemma MessageArrives(msg: Message, rest: string)
    requires Known(msg.tag)
    ensures Parsed(LineOf(Encoded(msg) + rest)) == Message(msg.tag, (msg.data + "\n")[..Kept(msg)])
  {
    var whole, line, kept := msg.data + "\n", InLine(msg), Kept(msg);
    var part := whole[..line];
    LineArrives(msg, rest);
    ParsedLine(msg.tag, part);
    assert First(part, '\0', 0) == kept by { NulInData(msg.data, line); }
    assert part[..kept] == whole[..kept];
  }

  lemma WithoutMeans(s: string, c: char)
    ensures Without(s, c) <==> forall k :: 0 <= k < |s| ==> s[k] != c
  {
    if Without(s, c) {
      forall k | 0 <= k < |s| ensures s[k] != c {
        FirstSkips(s, c, 0, k);
      }
    } else {
      assert s[First(s, c, 0)] == c;
    }
  }

  /** The format in plain terms. */
  lemma FitsMeans(msg: Message)
    ensures Fits(msg) <==>
            && (forall k :: 0 <= k < |msg.data| ==> msg.data[k] != '\n' && msg.data[k] != '\0')
            && |msg.tag| + |msg.data| + 2 <= 254
  {
    WithoutMeans(msg.data, '\n');
    WithoutMeans(msg.data, '\0');
  }

  lemma ArrivesWhole(msg: Message, rest: string)
    requires Known(msg.tag)
    ensures Parsed(LineOf(Encoded(msg) + rest)) == Seen(msg) <==> Fits(msg)
    ensures Fits(msg) ==> LineOf(Encoded(msg) + rest) == Encoded(msg)
  {
    PlainTag(msg.tag);
    MessageArrives(msg, rest);
    LineArrives(msg, rest);
    var whole := msg.data + "\n";
    assert whole[..Kept(msg)] == whole <==> Kept(msg) == |whole|;
    assert whole[..|whole|] == whole;
  }

  /** A message with a known tag comes through, with the newline behind its data and what
      follows it left in place, if and only if its data is free of newline and NUL and its
      encoding has at most 254 bytes. */
  lemma RoundTrip(msg: Message, rest: string)
    requires Known(msg.tag)
    ensures var stream := msg.tag + ":" + msg.data + "\n" + rest;
            Parsed(LineOf(stream)) == Message(msg.tag, msg.data + "\n")
            <==> && (forall k :: 0 <= k < |msg.data| ==> msg.data[k] != '\n' && msg.data[k] != '\0')
                 && |msg.tag| + |msg.data| + 2 <= 254
    ensures Fits(msg) ==> LineOf(Encoded(msg) + rest) == Encoded(msg)
  {
    ArrivesWhole(msg, rest);
    FitsMeans(msg);
  }

  function EncodedAll(msgs: seq<Message>): string {
    if msgs == [] then "" else Encoded(msgs[0]) + EncodedAll(msgs[1..])
  }

  /** What successive receives return until the end of the stream. */
  function ReceivedAll(stream: string): seq<Message>
    decreases |stream|
  {
    if stream == "" then []
    else
      SomeLine(stream, MAX_LEN - 1);
      [Parsed(LineOf(stream))] + ReceivedAll(stream[|LineOf(stream)|..])
  }

  function SeenAll(msgs: seq<Message>): seq<Message> {
    if msgs == [] then [] else [Seen(msgs[0])] + SeenAll(msgs[1..])
  }

  predicate AllKnown(msgs: seq<Message>) { forall i :: 0 <= i < |msgs| ==> Known(msgs[i].tag) }

  predicate AllFit(msgs: seq<Message>) { forall i :: 0 <= i < |msgs| ==> Fits(msgs[i]) }

  lemma FitOneByOne(msgs: seq<Message>)
    requires msgs != []
    ensures AllFit(msgs) <==> Fits(msgs[0]) && AllFit(msgs[1..])
  {
  }

  lemma ListStep(msgs: seq<Message>)
    requires AllKnown(msgs) && msgs != []
    requires ReceivedAll(EncodedAll(msgs[1..])) == SeenAll(msgs[1..]) <==> AllFit(msgs[1..])
    ensures ReceivedAll(EncodedAll(msgs)) == SeenAll(msgs) <==> AllFit(msgs)
  {
    var msg, more := msgs[0], EncodedAll(msgs[1..]);
    var stream := Encoded(msg) + more;
    FitOneByOne(msgs);
    ArrivesWhole(msg, more);
    var head, tail := Parsed(LineOf(stream)), ReceivedAll(stream[|LineOf(stream)|..]);
    assert ReceivedAll(stream) == [head] + tail;
    FirstAndRest(head, tail, Seen(msg), SeenAll(msgs[1..]));
    if Fits(msg) {
      assert stream[|LineOf(stream)|..] == more;
    }
  }

  /** A list of messages with known tags comes through, each once and in order, if and only
      if every one of them fits the format. */
  lemma {:induction false} ListRoundTrip(msgs: seq<Message>)
    requires AllKnown(msgs)
    ensures ReceivedAll(EncodedAll(msgs)) == SeenAll(msgs) <==> AllFit(msgs)
  {
    if msgs != [] {
      ListRoundTrip(msgs[1..]);
      ListStep(msgs);
    }
  }

  lemma FirstAndRest(a: Message, s: seq<Message>, b: Message, t: seq<Message>)
    ensures [a] + s == [b] + t <==> a == b && s == t
  {
    assert ([a] + s)[0] == a && ([b] + t)[0] == b && ([a] + s)[1..] == s && ([b] + t)[1..] == t;
  }

  lemma EncodedMore(msgs: seq<Message>, i: nat)
    requires i < |msgs|
    ensures EncodedAll(msgs[..i + 1]) == EncodedAll(msgs[..i]) + Encoded(msgs[i])
  {
    if i == 0 {
      assert msgs[..1] == [msgs[0]];
      assert msgs[..1][1..] == [] && msgs[..0] == [];
    } else {
      EncodedMore(msgs[1..], i - 1);
      assert msgs[1..][..i] == msgs[..i + 1][1..] && msgs[1..][..i - 1] == msgs[..i][1..];
    }
  }

  /** Sends one message after the other. */
  method SendAll(c: Connection, msgs: seq<Message>)
    requires c.Valid() && Reliable(c.io.fd.plan)
    modifies c, c.io.fd`outgoing, c.io.fd`plan
    ensures c.Valid() && Reliable(c.io.fd.plan) && c.io.Rest() == old(c.io.Rest())
    ensures c.io.fd.outgoing == old(c.io.fd.outgoing) + EncodedAll(msgs)
  {
    for i := 0 to |msgs|
      invariant c.Valid() && Reliable(c.io.fd.plan) && c.io.Rest() == old(c.io.Rest())
      invariant c.io.fd.outgoing == old(c.io.fd.outgoing) + EncodedAll(msgs[..i])
    {
      EncodedMore(msgs, i);
      var ok := c.Send(msgs[i]);
    }
    assert msgs[..|msgs|] == msgs;
  }

  /** One more line of a stream, received behind `got`. */
  lemma ReceivedMore(stream: string, got: seq<Message>, rest: string)
    requires ReceivedAll(stream) == got + ReceivedAll(rest) && rest != ""
    ensures var left := rest[|LineOf(rest)|..];
            |left| < |rest| && ReceivedAll(stream) == got + [Parsed(LineOf(rest))] + ReceivedAll(left)
  {
    SomeLine(rest, MAX_LEN - 1);
    var head, tail := [Parsed(LineOf(rest))], ReceivedAll(rest[|LineOf(rest)|..]);
    assert got + (head + tail) == got + head + tail;
  }

  /** Receives until the end of the stream. */
  method ReceiveAll(c: Connection) returns (got: seq<Message>)
    requires c.Valid() && Reliable(c.io.fd.plan)
    modifies c, c.io, c.io.buf, c.io.fd`incoming, c.io.fd`plan
    ensures c.Valid() && Reliable(c.io.fd.plan) && c.io.Rest() == ""
    ensures got == ReceivedAll(old(c.io.Rest()))
  {
    got := [];
    var msg := Message("", "");
    ghost var stream, rest := c.io.Rest(), c.io.Rest();
    while true
      invariant c.Valid() && Reliable(c.io.fd.plan) && rest == c.io.Rest()
      invariant ReceivedAll(stream) == got + ReceivedAll(rest)
      decreases |rest|
    {
      var ok;
      ok, msg := c.Receive(msg);
      if c.lastResult == EOF_OR_ERROR {
        break;
      }
      ReceivedMore(stream, got, rest);
      got := got + [msg];
      rest := c.io.Rest();
    }
  }

  /** The near end: a fresh connection, and what sending the messages over it writes. */
  method SendOver(msgs: seq<Message>, plan: seq<Outcome>) returns (stream: string)
    requires Reliable(plan)
    ensures stream == EncodedAll(msgs)
  {
    var fd := new Descriptor("", plan);
    var c := new Connection(fd);
    SendAll(c, msgs);
    stream := fd.outgoing;
  }

  /** The far end: a fresh connection, and what it receives of a stream. */
  method ReceiveFrom(stream: string, plan: seq<Outcome>) returns (got: seq<Message>)
    requires Reliable(plan)
    ensures got == ReceivedAll(stream)
  {
    var fd := new Descriptor(stream, plan);
    var c := new Connection(fd);
    got := ReceiveAll(c);
  }

  /** Messages with known tags, sent over one connection and received from its other end,
      arrive each once and in order if and only if every one fits the format; and this
      however the writes and the reads are split up and interrupted. */
  method Transfer(msgs: seq<Message>, writing: seq<Outcome>, reading: seq<Outcome>) returns (got: seq<Message>)
    requires AllKnown(msgs) && Reliable(writing) && Reliable(reading)
    ensures got == SeenAll(msgs) <==> AllFit(msgs)
  {
    var stream := SendOver(msgs, writing);
    got := ReceiveFrom(stream, reading);
    ListRoundTrip(msgs);
  }
}
