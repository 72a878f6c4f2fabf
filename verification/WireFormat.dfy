/** When a message survives serialization, framing and deserialization. */
module WireFormat {
  import opened CppString
  import opened Tokenizer
  import opened Messages

  /** The characters that the wire format gives a meaning to. */
  const RESERVED: string := ['-', '|', NUL]

  predicate CleanField(s: string) {
    Clean(s, RESERVED)
  }

  /** Messages that the wire format can express. */
  predicate WireSafe(m: Msg) {
    && m.msgType != SetClientList && m.priority == Normal
    && CleanField(m.clientSrc) && CleanField(m.clientDest)
    && CleanField(m.serverSrc) && CleanField(m.serverDest) && CleanField(m.data)
  }

  /** Received as it was sent. */
  predicate Deliverable(m: Msg) {
    WireSafe(m) && |Wire(m)| <= CONTENT_LIMIT
  }

  ghost predicate CleanAll(fields: seq<string>) {
    forall i :: 0 <= i < |fields| ==> CleanField(fields[i])
  }

  lemma TypesRoundTrip(t: MessageType)
    ensures EncodeType(DecodeType(t)) == (if t == SetClientList then NoType else t)
    ensures CleanField(DecodeType(t)) && DecodeType(t)[0] == 'M'
  {
    hide CleanField;
    TypeTextClean(t);
  }

  lemma TypeTextClean(t: MessageType)
    ensures CleanField(DecodeType(t))
  {
    hide EncodeType;
  }

  lemma CleanIs(s: string)
    ensures CleanField(s) <==> s != "" && '-' !in s && '|' !in s && NUL !in s
  {
    assert RESERVED[0] == '-' && RESERVED[1] == '|' && RESERVED[2] == NUL;
  }

  lemma FieldsClean(m: Msg)
    requires WireSafe(m)
    ensures CleanAll(Fields(m)) && AllTokens(Fields(m), '-')
  {
    hide CleanField, DecodeType;
    TypesRoundTrip(m.msgType);
    CleanIs("MSG_PRIORITY_NORMAL");
    forall i | 0 <= i < 7 ensures CleanField(Fields(m)[i]) && IsToken(Fields(m)[i], '-') {
      CleanIs(Fields(m)[i]);
    }
  }

  lemma {:induction false} JoinChars(ts: seq<string>, sep: char, c: char)
    requires c != sep && forall i :: 0 <= i < |ts| ==> c !in ts[i]
    ensures c !in Join(ts, sep)
  {
    if |ts| > 1 { JoinChars(ts[1..], sep, c); }
  }

  lemma CTextPrefix(s: string)
    requires s != "" && s[0] != NUL
    ensures CText(s) != "" && CText(s)[0] == s[0]
  {
  }

  /** Everything that starts like a message decodes to a safe message, if to
      any at all. */
  lemma DecodedIsSafe(text: string)
    requires text != "" && text[0] != '-' && '|' !in text && NUL !in text
    ensures Decode(text).Some? ==> WireSafe(Decode(text).value)
  {
    var ts := Runs(text, '-');
    RunsChars(text, '-', '|');
    RunsChars(text, '-', NUL);
    if |ts| >= 7 {
      forall i | 0 <= i < |ts| ensures CleanField(ts[i]) {
        assert IsToken(ts[i], '-');
        CleanIs(ts[i]);
      }
    }
  }

  /** ... in particular everything framed from a serialized message. */
  lemma ReceivedIsSafe(m: Msg, rest: string)
    ensures Received(Wire(m) + rest).Some? ==> WireSafe(Received(Wire(m) + rest).value)
  {
    var stream := Wire(m) + rest;
    TypesRoundTrip(m.msgType);
    assert stream[0] == 'M';
    var p := Span(stream, '|');
    if ReadFrame(stream).Framed? {
      var raw := stream[..if p < BUFFER_SIZE && p < |stream| then p else BUFFER_SIZE - 1];
      assert raw == stream[..p][..|raw|];
      assert raw != "" && raw[0] == 'M';
      CTextPrefix(raw);
      DecodedIsSafe(CText(raw));
    }
  }

  // ----- the three ranges of length

  lemma WholeFrame(m: Msg, rest: string)
    requires WireSafe(m) && |Wire(m)| <= BUFFER_SIZE
    ensures ReadFrame(Wire(m) + rest) == Framed(Join(Fields(m), '-'), |Wire(m)|)
    ensures Decode(Join(Fields(m), '-')) == Some(m)
  {
    FieldsClean(m);
    SafeText(m);
    var text := Join(Fields(m), '-');
    var stream := Wire(m) + rest;
    assert stream[..|text|] == text && stream[|text|] == '|';
    assert forall i :: 0 <= i < |text| ==> stream[i] == text[i];
    SpanIs(stream, '|', |text|);
    TokensOfJoin(Fields(m), '-');
    TypesRoundTrip(m.msgType);
  }

  lemma SafeText(m: Msg)
    requires WireSafe(m)
    ensures '|' !in Join(Fields(m), '-') && NUL !in Join(Fields(m), '-')
  {
    FieldsClean(m);
    forall i | 0 <= i < 7 ensures '|' !in Fields(m)[i] && NUL !in Fields(m)[i] { CleanIs(Fields(m)[i]); }
    JoinChars(Fields(m), '-', '|');
    JoinChars(Fields(m), '-', NUL);
  }

  /** Six fields and the separator before the priority. */
  ghost function Head(m: Msg): string {
    Join(Fields(m)[..6], '-') + "-"
  }

  lemma TextSplits(m: Msg)
    ensures Join(Fields(m), '-') == Head(m) + "MSG_PRIORITY_NORMAL"
    ensures |Wire(m)| == |Head(m)| + 20
  {
    JoinAppend(Fields(m)[..6], Fields(m)[6..], '-');
    assert Fields(m)[..6] + Fields(m)[6..] == Fields(m);
  }

  lemma FullBuffer(m: Msg, rest: string)
    requires WireSafe(m) && |Wire(m)| > BUFFER_SIZE
    ensures ReadFrame(Wire(m) + rest) == Framed(Join(Fields(m), '-')[..BUFFER_SIZE - 1], BUFFER_SIZE)
  {
    SafeText(m);
    var text := Join(Fields(m), '-');
    var stream := Wire(m) + rest;
    assert stream[..BUFFER_SIZE] == text[..BUFFER_SIZE];
    SpanBeyond(stream, '|', BUFFER_SIZE);
    assert stream[..BUFFER_SIZE - 1] == text[..BUFFER_SIZE - 1];
    assert NUL !in text[..BUFFER_SIZE - 1];
  }

  lemma CutInPriority(m: Msg)
    requires WireSafe(m) && BUFFER_SIZE < |Wire(m)| <= CONTENT_LIMIT
    ensures Decode(Join(Fields(m), '-')[..BUFFER_SIZE - 1]) == Some(m)
  {
    TextSplits(m);
    FieldsClean(m);
    TypesRoundTrip(m.msgType);
    var six := Fields(m)[..6];
    var last := "MSG_PRIORITY_NORMAL"[..BUFFER_SIZE - 1 - |Head(m)|];
    PriorityPrefix(|last|);
    JoinAppend(six, [last], '-');
    assert Join(Fields(m), '-')[..BUFFER_SIZE - 1] == Join(six + [last], '-');
    hide Join;
    TokensOfJoin(six + [last], '-');
  }

  lemma PriorityPrefix(n: nat)
    requires 0 < n <= 19
    ensures IsToken("MSG_PRIORITY_NORMAL"[..n], '-')
  {
    assert '-' !in "MSG_PRIORITY_NORMAL";
  }

  lemma CutBeforePriority(m: Msg)
    requires WireSafe(m) && |Wire(m)| > CONTENT_LIMIT
    ensures Decode(Join(Fields(m), '-')[..BUFFER_SIZE - 1]) == None
  {
    TextSplits(m);
    FieldsClean(m);
    TypesRoundTrip(m.msgType);
    var six := Fields(m)[..6];
    var text := Join(Fields(m), '-')[..BUFFER_SIZE - 1];
    assert Head(m) == text + Head(m)[BUFFER_SIZE - 1..];
    FewerRuns(text, Head(m)[BUFFER_SIZE - 1..], '-');
    RunsOfJoin(six, '-');
    RunsConcat(Join(six, '-'), "", '-');
    assert Join(six, '-') + ['-'] + "" == Head(m);
    assert text[0] == Join(six, '-')[0] != '-';
  }

  /** A frame is incomplete if and only if the stream ends before a bar and
      before the buffer is full. */
  lemma IncompleteIff(stream: string)
    ensures ReadFrame(stream) == Incomplete <==> '|' !in stream && |stream| < 4096
  {
    hide CText;
    if '|' !in stream {
      assert stream[..|stream|] == stream;
      SpanBeyond(stream, '|', |stream|);
    } else {
      assert stream[..|stream|] == stream;
    }
  }

  // ----- main results

  /** A message is received as it was sent exactly when it is expressible and
      at most 4114 characters long; exactly the message is consumed when it is
      at most 4096 long. What follows it in the stream does not matter. */
  lemma WireRoundTrip(m: Msg, rest: string)
    ensures Received(Wire(m) + rest) == Some(m) <==> WireSafe(m) && |Wire(m)| <= 4114
    ensures WireSafe(m) && |Wire(m)| > 4114 ==> Received(Wire(m) + rest) == None
    ensures WireSafe(m) ==> ReadFrame(Wire(m) + rest).Framed?
    ensures WireSafe(m) ==> (ReadFrame(Wire(m) + rest).length == |Wire(m)| <==> |Wire(m)| <= 4096)
  {
    ReceivedIsSafe(m, rest);
    if WireSafe(m) {
      if |Wire(m)| <= BUFFER_SIZE {
        WholeFrame(m, rest);
      } else {
        FullBuffer(m, rest);
        if |Wire(m)| <= CONTENT_LIMIT { CutInPriority(m); } else { CutBeforePriority(m); }
      }
    }
  }

  lemma Arrives(m: Msg)
    requires Deliverable(m)
    ensures Received(Wire(m)) == Some(m)
  {
    WireRoundTrip(m, "");
    assert Wire(m) + "" == Wire(m);
  }

  predicate FitsBuffer(m: Msg) {
    WireSafe(m) && |Wire(m)| <= BUFFER_SIZE
  }

  function WireAll(ms: seq<Msg>): string {
    if ms == [] then "" else Wire(ms[0]) + WireAll(ms[1..])
  }

  /** What n successive `Recv` calls on one stream yield, and what they leave. */
  function ReceiveAll(stream: string, n: nat): Option<(seq<Msg>, string)> {
    if n == 0 then Some(([], stream))
    else
      match ReadFrame(stream)
      case Incomplete => None
      case Framed(text, length) =>
        match Decode(text)
        case None => None
        case Some(m) =>
          if length > |stream| then None
          else
            match ReceiveAll(stream[length..], n - 1)
            case None => None
            case Some(r) => Some(([m] + r.0, r.1))
  }

  /** A concatenation of messages is received as that sequence. */
  lemma {:induction false} StreamRoundTrip(ms: seq<Msg>, rest: string)
    requires forall i :: 0 <= i < |ms| ==> FitsBuffer(ms[i])
    ensures ReceiveAll(WireAll(ms) + rest, |ms|) == Some((ms, rest))
  {
    if ms == [] {
      assert "" + rest == rest;
    } else {
      hide ReceiveAll, Wire, FitsBuffer;
      var tail := WireAll(ms[1..]) + rest;
      assert FitsBuffer(ms[0]);
      Assoc(Wire(ms[0]), WireAll(ms[1..]), rest);
      FirstOfStream(ms[0], tail, |ms| - 1);
      StreamRoundTrip(ms[1..], rest);
      assert [ms[0]] + ms[1..] == ms;
    }
  }

  lemma FirstOfStream(m: Msg, tail: string, n: nat)
    requires FitsBuffer(m)
    ensures ReceiveAll(Wire(m) + tail, n + 1) ==
      match ReceiveAll(tail, n)
      case None => None
      case Some(r) => Some(([m] + r.0, r.1))
  {
    WholeFrame(m, tail);
    assert (Wire(m) + tail)[|Wire(m)|..] == tail;
  }

  /** Type and addresses survive any payload that leaves the frame intact; of
      the payload its first run arrives. Without any run there is no result. */
  lemma RoutingHeader(m: Msg)
    requires m.msgType != SetClientList && m.priority == Normal
    requires CleanField(m.clientSrc) && CleanField(m.clientDest) && CleanField(m.serverSrc) && CleanField(m.serverDest)
    ensures var r := Decode(Join(Fields(m), '-'));
      if Blank(m.data, '-') then r == None
      else Runs(m.data, '-') != [] && r == Some(m.(data := Runs(m.data, '-')[0]))
  {
    RunsOfFields(m);
    NoRuns(m.data, '-');
    TypesRoundTrip(m.msgType);
    assert Join(Fields(m), '-')[0] == 'M';
  }

  lemma RunsOfFields(m: Msg)
    requires CleanField(m.clientSrc) && CleanField(m.clientDest) && CleanField(m.serverSrc) && CleanField(m.serverDest)
    ensures Runs(Join(Fields(m), '-'), '-') == Fields(m)[..5] + (Runs(m.data, '-') + [DecodePriority(m.priority)])
  {
    var head, tail := Fields(m)[..5], Fields(m)[5..];
    TypesRoundTrip(m.msgType);
    forall i | 0 <= i < 5 ensures IsToken(head[i], '-') { CleanIs(head[i]); }
    assert head + tail == Fields(m);
    JoinAppend(head, tail, '-');
    RunsOfJoin(head, '-');
    RunsConcat(Join(head, '-'), Join(tail, '-'), '-');
    RunsOfTail(m);
  }

  lemma RunsOfTail(m: Msg)
    ensures Runs(Join(Fields(m)[5..], '-'), '-') == Runs(m.data, '-') + [DecodePriority(m.priority)]
  {
    var priority := DecodePriority(m.priority);
    assert Fields(m)[5..] == [m.data] + [priority];
    JoinTwo(m.data, priority, '-');
    RunsConcat(m.data, priority, '-');
    PriorityIsToken(m.priority);
    RunsOfToken(priority, '-');
  }

  lemma JoinTwo(a: string, b: string, sep: char)
    ensures Join([a] + [b], sep) == a + [sep] + b
  {
    assert ([a] + [b])[1..] == [b];
  }

  lemma PriorityIsToken(p: Priority)
    ensures IsToken(DecodePriority(p), '-')
  {
  }

  lemma {:induction false} NoRuns(s: string, sep: char)
    ensures Runs(s, sep) == [] <==> Blank(s, sep)
  {
    if s != "" && s[0] == sep {
      NoRuns(s[1..], sep);
      assert forall i :: 1 <= i < |s| ==> s[i] == s[1..][i - 1];
      assert Blank(s[1..], sep) ==> Blank(s, sep);
      if Blank(s, sep) {
        assert forall i :: 0 <= i < |s[1..]| ==> s[1..][i] == s[i + 1];
      }
    }
  }

  lemma WireLength(m: Msg)
    ensures |Wire(m)| == |DecodeType(m.msgType)| + |m.clientSrc| + |m.clientDest| + |m.serverSrc| + |m.serverDest|
        + |m.data| + 26
  {
    JoinSeven(Fields(m), '-');
  }
}
