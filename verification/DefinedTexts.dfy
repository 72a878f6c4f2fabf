/** For which texts the code has a result at all, and which: what the server
    reads of a text it is sent, and what the receiver makes of it. */
module DefinedTexts {
  import opened CppString
  import opened Tokenizer
  import opened Messages
  import opened WireFormat
  import opened NodeData
  import opened Registries
  import opened Server
  import opened Client
  import opened Network
  import opened RosterUpdates
  import opened Delivery

  // ----- what a frame shows of the end of a message

  /** What room characters of buffer hold of s up to its first `|`, read as a C
      string. */
  function Seen(s: string, room: nat): (w: string)
    ensures |w| <= room
  {
    var v := CText(s[..Span(s, '|')]);
    if |v| <= room then v else v[..room]
  }

  lemma {:induction false} CTextAfter(prefix: string, s: string)
    requires NUL !in prefix
    ensures CText(prefix + s) == prefix + CText(s)
  {
    if prefix == "" {
      assert prefix + s == s && prefix + CText(s) == CText(s);
    } else {
      assert (prefix + s)[1..] == prefix[1..] + s;
      CTextAfter(prefix[1..], s);
    }
  }

  lemma {:induction false} CTextCut(s: string, k: nat)
    requires k <= |s|
    ensures CText(s[..k]) == if |CText(s)| <= k then CText(s) else CText(s)[..k]
  {
    if k > 0 && s[0] != NUL {
      CTextCut(s[1..], k - 1);
      CTextStep(s);
      CTextStep(s[..k]);
      assert s[..k][1..] == s[1..][..k - 1];
      CutStep(s[0], CText(s[1..]), k);
    }
  }

  lemma CTextStep(s: string)
    requires s != "" && s[0] != NUL
    ensures CText(s) == [s[0]] + CText(s[1..])
  {
  }

  lemma CutStep(ch: char, rest: string, k: nat)
    requires 0 < k
    ensures (if |[ch] + rest| <= k then [ch] + rest else ([ch] + rest)[..k])
      == [ch] + (if |rest| <= k - 1 then rest else rest[..k - 1])
  {
    if |rest| > k - 1 { assert ([ch] + rest)[..k] == [ch] + rest[..k - 1]; }
  }

  lemma SpanAfter(prefix: string, s: string)
    requires '|' !in prefix
    ensures Span(prefix + s, '|') == |prefix| + Span(s, '|')
  {
    var n := Span(s, '|');
    forall i | 0 <= i < |prefix| + n ensures (prefix + s)[i] != '|' {
      if i >= |prefix| { assert (prefix + s)[i] == s[..n][i - |prefix|]; }
    }
    SpanIs(prefix + s, '|', |prefix| + n);
  }

  lemma CutShorter(prefix: string, s: string, p: nat, n: nat)
    requires n <= p <= |s|
    ensures s[..p][..n] == s[..n] && (prefix + s)[..|prefix| + n] == prefix + s[..n]
  {
  }

  lemma FrameAfter(prefix: string, s: string)
    requires '|' !in prefix && NUL !in prefix && |prefix| < BUFFER_SIZE && Span(s, '|') < |s|
    ensures ReadFrame(prefix + s).Framed? && ReadFrame(prefix + s).text == prefix + Seen(s, BUFFER_SIZE - 1 - |prefix|)
  {
    hide CText, Span;
    var p, room := Span(s, '|'), BUFFER_SIZE - 1 - |prefix|;
    SpanAfter(prefix, s);
    var n := if p <= room then p else room;
    CTextCut(s[..p], n);
    CutShorter(prefix, s, p, n);
    CTextAfter(prefix, s[..n]);
  }

  // ----- what the server reads

  /** The characters of a request in front of the text. */
  function Prefix(a: ClientState, to: string, server: string): string {
    Join(["MSG_SEND_MESSAGE", a.name, to, VOID, server], '-') + "-" + (a.nickname + "@")
  }

  /** The room a full buffer leaves for the text. */
  function Room(a: ClientState, to: string, server: string): int {
    4072 - |a.name| - |to| - |server| - |a.nickname|
  }

  /** ... and behind it. */
  const SUFFIX: string := "-MSG_PRIORITY_NORMAL|"

  lemma SuffixAt(text: string)
    ensures Span(text + SUFFIX, '|') < |text + SUFFIX|
    ensures '|' !in text ==> Span(text + SUFFIX, '|') == |text| + 20
  {
    var s := text + SUFFIX;
    assert s[|text| + 20] == '|';
    assert s[..|s|] == s && '|' in s;
    if '|' !in text {
      assert forall i :: 0 <= i < 20 ==> SUFFIX[i] != '|';
      SpanIs(s, '|', |text| + 20);
    }
  }

  lemma RequestIs(a: ClientState, to: string, server: string, text: string)
    ensures Wire(Request(a, to, server, text)) == Prefix(a, to, server) + (text + SUFFIX)
    ensures |Prefix(a, to, server)| == BUFFER_SIZE - 1 - Room(a, to, server)
  {
    var five := ["MSG_SEND_MESSAGE", a.name, to, VOID, server];
    var data := a.nickname + "@" + text;
    var last := [data, "MSG_PRIORITY_NORMAL"];
    assert Fields(Request(a, to, server, text)) == five + last;
    JoinAppend(five, last, '-');
    assert last == [data] + ["MSG_PRIORITY_NORMAL"];
    JoinTwo(data, "MSG_PRIORITY_NORMAL", '-');
    Regrouped(Join(five, '-'), a.nickname, text);
    JoinFive(a.name, to, VOID, server);
  }

  lemma Regrouped(head: string, nick: string, text: string)
    ensures head + ['-'] + ((nick + "@" + text) + ['-'] + "MSG_PRIORITY_NORMAL") + "|"
        == head + "-" + (nick + "@") + (text + SUFFIX)
  {
  }

  lemma JoinFive(a: string, b: string, c: string, d: string)
    ensures |Join(["MSG_SEND_MESSAGE", a, b, c, d], '-')| == 20 + |a| + |b| + |c| + |d|
  {
    var f := ["MSG_SEND_MESSAGE", a, b, c, d];
    assert f[1..] == [a, b, c, d] && [a, b, c, d][1..] == [b, c, d] && [b, c, d][1..] == [c, d] && [c, d][1..] == [d];
    assert |Join([c, d], '-')| == |c| + 1 + |d|;
    assert |Join([b, c, d], '-')| == |b| + 1 + |Join([c, d], '-')|;
    assert |Join([a, b, c, d], '-')| == |a| + 1 + |Join([b, c, d], '-')|;
    assert |"MSG_SEND_MESSAGE"| == 16;
  }

  /** The clients and the server of a request have names a format can carry. */
  predicate Bearable(a: ClientState, to: string, server: string) {
    GoodName(a.name) && GoodName(a.nickname) && GoodName(to) && GoodServer(server)
  }

  lemma RoomLeft(a: ClientState, to: string, server: string)
    requires Bearable(a, to, server)
    ensures 3564 <= Room(a, to, server) < BUFFER_SIZE
  {
    hide CleanName, CleanField;
  }

  lemma PrefixIsClean(a: ClientState, to: string, server: string)
    requires Bearable(a, to, server)
    ensures '|' !in Prefix(a, to, server) && NUL !in Prefix(a, to, server)
    ensures AllTokens(["MSG_SEND_MESSAGE", a.name, to, VOID, server], '-')
  {
    CleanNameIs(a.name);
    CleanNameIs(a.nickname);
    CleanNameIs(to);
    CleanIs(server);
    var five := ["MSG_SEND_MESSAGE", a.name, to, VOID, server];
    JoinChars(five, '-', '|');
    JoinChars(five, '-', NUL);
  }

  /** What the server reads of a text. */
  function ServerReads(a: ClientState, to: string, server: string, text: string): string
    requires Bearable(a, to, server)
  {
    Seen(text + SUFFIX, Room(a, to, server))
  }

  lemma FramedRequest(a: ClientState, to: string, server: string, text: string)
    requires Bearable(a, to, server)
    ensures var f := ReadFrame(Wire(Request(a, to, server, text)));
      f.Framed? && f.text == Prefix(a, to, server) + ServerReads(a, to, server, text)
  {
    hide Wire, ReadFrame, Prefix, Seen, GoodName, GoodServer;
    RequestIs(a, to, server, text);
    PrefixIsClean(a, to, server);
    RoomLeft(a, to, server);
    SuffixAt(text);
    FrameAfter(Prefix(a, to, server), text + SUFFIX);
  }

  /** The piece of a text that arrives: up to the first `-` of what is read. */
  function Piece(w: string): string {
    w[..Span(w, '-')]
  }

  lemma SpanOfRead(nick: string, w: string)
    requires '-' !in nick
    ensures Span(nick + "@" + w, '-') == |nick| + 1 + Span(w, '-')
  {
    var data, n := nick + "@" + w, Span(w, '-');
    forall i | 0 <= i < |nick| + 1 + n ensures data[i] != '-' {
      if i > |nick| { assert data[i] == w[..n][i - |nick| - 1]; }
    }
    SpanIs(data, '-', |nick| + 1 + n);
  }

  lemma RunsOfRead(nick: string, w: string)
    requires nick != "" && '-' !in nick
    ensures var ts := Runs(nick + "@" + w, '-');
      && ts != [] && ts[0] == nick + "@" + Piece(w)
      && (|ts| >= 2 <==> !Blank(w[Span(w, '-')..], '-'))
  {
    hide Runs, Span, Blank;
    var data, n := nick + "@" + w, Span(w, '-');
    SpanOfRead(nick, w);
    assert data[0] == nick[0] && nick[0] in nick;
    FirstRun(data, '-');
    assert data[..|nick| + 1 + n] == nick + "@" + w[..n] && data[|nick| + 1 + n..] == w[n..];
    NoRuns(w[n..], '-');
  }

  /** The server has a result exactly if something follows the first `-`, and
      then it reads the same request for the piece in front. */
  lemma RequestRead(a: ClientState, to: string, server: string, text: string)
    requires Bearable(a, to, server)
    ensures var w := ServerReads(a, to, server, text);
      Received(Wire(Request(a, to, server, text))) ==
        if Blank(w[Span(w, '-')..], '-') then None else Some(Request(a, to, server, Piece(w)))
  {
    hide ServerReads, Wire, GoodServer, ReadFrame, Bearable;
    FramedRequest(a, to, server, text);
    PrefixIsClean(a, to, server);
    var w := ServerReads(a, to, server, text);
    DecodedRequest(a, to, server, w);
  }

  lemma DecodedRequest(a: ClientState, to: string, server: string, w: string)
    requires Bearable(a, to, server)
    ensures Decode(Prefix(a, to, server) + w) ==
      if Blank(w[Span(w, '-')..], '-') then None else Some(Request(a, to, server, Piece(w)))
  {
    hide GoodServer, Runs, Span, Join, Blank;
    var five := ["MSG_SEND_MESSAGE", a.name, to, VOID, server];
    var head, data := Join(five, '-'), a.nickname + "@" + w;
    PrefixIsClean(a, to, server);
    CleanNameIs(a.nickname);
    SplitRead(head, a.nickname, w);
    RunsConcat(head, data, '-');
    RunsOfJoin(five, '-');
    RunsOfRead(a.nickname, w);
    StartsWithType(a, to, server);
    assert (Prefix(a, to, server) + w)[0] == head[0];
  }

  lemma SplitRead(head: string, nick: string, w: string)
    ensures head + "-" + (nick + "@") + w == head + ['-'] + (nick + "@" + w)
  {
  }

  lemma StartsWithType(a: ClientState, to: string, server: string)
    ensures var head := Join(["MSG_SEND_MESSAGE", a.name, to, VOID, server], '-');
      head != "" && head[0] == 'M'
  {
  }

  // ----- what the receiver makes of it

  /** The text has a result at server and receiver: behind the first `-` that is
      read there is more than `-`, and in front of it there is a first run
      without `@` that fits into the event's buffer. */
  predicate Understood(text: string, room: nat) {
    var w := Seen(text + SUFFIX, room);
    var ts := Runs(Piece(w), '@');
    !Blank(w[Span(w, '-')..], '-') && ts != [] && |ts[0]| < TEXT_SIZE
  }

  /** What the receiver is shown then. */
  function Meaning(text: string, room: nat): string
    requires Understood(text, room)
  {
    Runs(Piece(Seen(text + SUFFIX, room)), '@')[0]
  }

  lemma PieceIsPlain(a: ClientState, to: string, server: string, text: string)
    requires Bearable(a, to, server)
    ensures var w := ServerReads(a, to, server, text);
      && '-' !in Piece(w) && '|' !in Piece(w) && NUL !in Piece(w)
      && (!Blank(w[Span(w, '-')..], '-') ==> Deliverable(Forwarded(a, to, server, Piece(w))))
  {
    hide GoodServer, GoodName;
    var s, w := text + SUFFIX, ServerReads(a, to, server, text);
    var v := CText(s[..Span(s, '|')]);
    assert '|' !in v && NUL !in v;
    assert forall x :: x in w ==> x in v;
    assert forall x :: x in Piece(w) ==> x in w;
    ForwardedFits(a, to, server, w);
  }

  lemma ForwardedFits(a: ClientState, to: string, server: string, w: string)
    requires Bearable(a, to, server) && |w| <= Room(a, to, server)
    requires '-' !in Piece(w) && '|' !in Piece(w) && NUL !in Piece(w)
    ensures !Blank(w[Span(w, '-')..], '-') ==> Deliverable(Forwarded(a, to, server, Piece(w)))
  {
    hide GoodName, GoodServer, Wire, WireSafe, Piece, Forwarded, Blank;
    RequestSafe(a, to, server, Piece(w));
    ForwardedLength(a, to, server, Piece(w));
    TwoBehind(w);
  }

  lemma ForwardedLength(a: ClientState, to: string, server: string, text: string)
    ensures |Wire(Forwarded(a, to, server, text))| == CONTENT_LIMIT - Room(a, to, server) + |text| + 2
  {
    hide Wire;
    WireLength(Forwarded(a, to, server, text));
    assert |DecodeType(SendMessage)| == 16 && |VOID| == 1;
  }

  lemma TwoBehind(w: string)
    ensures !Blank(w[Span(w, '-')..], '-') ==> |Piece(w)| + 2 <= |w|
  {
    var k := Span(w, '-');
    if |w| == k + 1 { assert w[k..] == ['-']; }
  }

  /** The event that a payload raises at the receiver. */
  function Raised(data: string): Event {
    match Payload(data)
    case None => UndefinedEvent
    case Some(p) => MessageEvent(p.0, p.1)
  }

  /** With or without a result, this is the outcome. */
  lemma TextOutcome(server: string, r: Registry, net: Net, e: Endpoint, dest: string, text: string, f: Endpoint)
    requires Connected(server, r, net, e, dest, f)
    ensures Bearable(net[e], net[f].name, server)
    ensures var a, to := net[e], net[f].name;
      var w := ServerReads(a, to, server, text);
      var data := a.nickname + "@" + Piece(w);
      var p := Some(Packet(f.ip, f.port, Forwarded(a, to, server, Piece(w))));
      SendText(server, r, net, e, dest, text) ==
        if Blank(w[Span(w, '-')..], '-') then Outcome(Undefined, net, None)
        else Outcome(if Payload(data).Some? then RetSuccess else Undefined,
                     net[f := net[f].(events := net[f].events + [Raised(data)])], p)
  {
    hide Wire, Received, Exchange, ServerReads, Runs, Piece, Payload, MessageEvent, Deliverable, GoodName,
        GoodServer, AddressOf;
    var a, to := net[e], net[f].name;
    var w := ServerReads(a, to, server, text);
    RequestRead(a, to, server, text);
    PieceIsPlain(a, to, server, text);
    if Blank(w[Span(w, '-')..], '-') {
      Unreadable(server, r, net, e, dest, text, f);
    } else {
      AfterRequest(server, r, net, e, dest, text, Piece(w), f);
      ForwardingEffect(server, net, a, Piece(w), f);
      AckArrives();
      ErrorArrives();
    }
  }

  lemma Unreadable(server: string, r: Registry, net: Net, e: Endpoint, dest: string, text: string, f: Endpoint)
    requires Connected(server, r, net, e, dest, f)
    requires Received(Wire(Request(net[e], net[f].name, server, text))) == None
    ensures SendText(server, r, net, e, dest, text) == Outcome(Undefined, net, None)
  {
    hide Wire, Received;
  }

  /** The error `Send` makes up travels back to the sender. */
  lemma ErrorArrives()
    ensures Received(Wire(ErrorMsg("Error receiving reply"))) == Some(ErrorMsg("Error receiving reply"))
  {
    ErrorTravels("Error receiving reply");
  }

  lemma ErrorTravels(text: string)
    requires CleanField(text) && |text| < 128
    ensures Received(Wire(ErrorMsg(text))) == Some(ErrorMsg(text))
  {
    hide Wire, Received, Clean;
    VoidIsField();
    WireLength(ErrorMsg(text));
    Arrives(ErrorMsg(text));
  }

  // ----- main results

  lemma DefinedIffRaised(server: string, r: Registry, net: Net, e: Endpoint, dest: string, text: string, f: Endpoint)
    requires Connected(server, r, net, e, dest, f)
    ensures var room := Room(net[e], net[f].name, server);
      && room >= 3564
      && var w := Seen(text + SUFFIX, room);
        Defined(net, SendText(server, r, net, e, dest, text)) <==>
          !Blank(w[Span(w, '-')..], '-') && Raised(net[e].nickname + "@" + Piece(w)) != UndefinedEvent
  {
    hide SendText, Seen, Bearable, AddressOf, CleanName, Defined, Raised, Payload;
    TextOutcome(server, r, net, e, dest, text, f);
    RoomLeft(net[e], net[f].name, server);
    var data := net[e].nickname + "@" + Piece(Seen(text + SUFFIX, Room(net[e], net[f].name, server)));
    LastEvent(net, f, Raised(data));
    NothingRaised(data);
    UndefinedIsNotDefined(net, SendText(server, r, net, e, dest, text));
  }

  lemma NothingRaised(data: string)
    ensures Payload(data) == None ==> Raised(data) == UndefinedEvent
  {
    hide Payload;
  }

  /** What the receiver needs, whatever the nickname: a second token, and room
      for the first two. A nickname that starts with `@` makes all the rest of
      the payload the first token. */
  predicate Announced(nick: string, piece: string)
    requires nick != ""
  {
    var data, ts := nick + "@" + piece, Runs(piece, '@');
    if nick[0] == '@' then !Blank(data, '@') && |data| - Lead(data, '@') < NICK_SIZE
    else |Runs(nick, '@')| >= 2 || (ts != [] && |ts[0]| < TEXT_SIZE)
  }

  lemma AnnouncedIff(nick: string, piece: string)
    requires nick != "" && |nick| < NICK_SIZE
    ensures Announced(nick, piece) <==> Raised(nick + "@" + piece) != UndefinedEvent
  {
    hide Runs;
    var data := nick + "@" + piece;
    assert data[0] == nick[0];
    if nick[0] == '@' {
      AnnouncedAfterAt(data);
    } else {
      assert data == nick + ['@'] + piece;
      RunsConcat(nick, piece, '@');
      NoRuns(nick, '@');
      RunsShort(nick, '@');
    }
  }

  lemma AnnouncedAfterAt(data: string)
    requires data != "" && data[0] == '@'
    ensures Raised(data) != UndefinedEvent <==> !Blank(data, '@') && |data| - Lead(data, '@') < NICK_SIZE
  {
    hide Runs;
    var k := Lead(data, '@');
    if k == |data| {
      assert Blank(data, '@');
    } else {
      var rest := data[k..];
      assert rest[0] == data[k] != '@';
      NoRuns(rest, '@');
      RunsShort(rest, '@');
    }
  }

  /** The code has a result for the text of a connected sender if and only if
      something other than `-` follows the first `-` the server reads, and what
      precedes it can be announced under the sender's nickname. */
  lemma DefinedIffAnnounced(server: string, r: Registry, net: Net, e: Endpoint, dest: string, text: string, f: Endpoint)
    requires Connected(server, r, net, e, dest, f)
    ensures var room := Room(net[e], net[f].name, server);
      && room >= 3564 && net[e].nickname != ""
      && var w := Seen(text + SUFFIX, room);
        Defined(net, SendText(server, r, net, e, dest, text)) <==>
          !Blank(w[Span(w, '-')..], '-') && Announced(net[e].nickname, Piece(w))
  {
    hide SendText, Seen, AddressOf, CleanName, Defined, Raised, Announced;
    DefinedIffRaised(server, r, net, e, dest, text, f);
    CleanNameIs(net[e].nickname);
    AnnouncedIff(net[e].nickname, Piece(Seen(text + SUFFIX, Room(net[e], net[f].name, server))));
  }

  /** If the nickname is without `@`: if and only if the text is understood; then
      its meaning is shown to the receiver, and the sender is told of success. */
  lemma DefinedIffUnderstood(server: string, r: Registry, net: Net, e: Endpoint, dest: string, text: string,
      f: Endpoint)
    requires Connected(server, r, net, e, dest, f) && '@' !in net[e].nickname
    ensures var room := Room(net[e], net[f].name, server);
      var o := SendText(server, r, net, e, dest, text);
      && room >= 3564
      && (Defined(net, o) <==> Understood(text, room))
      && (Understood(text, room) ==>
           && o.ret == RetSuccess
           && o.net == net[f := net[f].(events := net[f].events + [NewMessage(net[e].nickname, Meaning(text, room))])])
  {
    hide SendText, Seen, Runs, Bearable, AddressOf, CleanName, Defined, Payload;
    TextOutcome(server, r, net, e, dest, text, f);
    DefinedIffRaised(server, r, net, e, dest, text, f);
    var a, room := net[e], Room(net[e], net[f].name, server);
    var piece := Piece(Seen(text + SUFFIX, room));
    PieceIsPlain(a, net[f].name, server, text);
    CleanNameIs(a.nickname);
    PayloadOfText(a.nickname, piece);
    RunsChars(piece, '@', NUL);
  }

  lemma UndefinedIsNotDefined(net: Net, o: Outcome)
    ensures o.ret == Undefined ==> !Defined(net, o)
  {
  }

  lemma LastEvent(net: Net, f: Endpoint, ev: Event)
    requires f in net
    ensures forall o: Outcome :: o.ret != Undefined && o.net == net[f := net[f].(events := net[f].events + [ev])] ==>
      (Defined(net, o) <==> ev != UndefinedEvent)
  {
    var after := net[f := net[f].(events := net[f].events + [ev])];
    assert |after[f].events| == |net[f].events| + 1 && after[f] != net[f];
    forall g | g in net && g != f ensures after[g] == net[g] {
    }
  }

  // ----- whoever the bearer of the nickname is

  /** The process at e knows the server and has an entry for dest. */
  predicate Equipped(server: string, net: Net, e: Endpoint, dest: string) {
    e in net && net[e].server == server && dest in net[e].roster && Bearable(net[e], net[e].roster[dest], server)
  }

  /** The client runs at its registered address. */
  predicate Reachable(r: Registry, net: Net, n: string) {
    && n in r.addr && AddressOf(r.addr[n]).Address?
    && var f := Endpoint(AddressOf(r.addr[n]).ip, AddressOf(r.addr[n]).port);
      f in net && net[f].name == n
  }

  /** What the server reads of a text is more than a field. */
  predicate Readable(a: ClientState, to: string, server: string, text: string)
    requires Bearable(a, to, server)
  {
    var w := ServerReads(a, to, server, text);
    !Blank(w[Span(w, '-')..], '-')
  }

  /** `sendMessage` returns success if and only if the server can read the text,
      the bearer of the nickname is registered and runs at its registered
      address, and it finds two tokens in what it is sent. Otherwise the code has
      no result. */
  lemma SucceedsIff(server: string, r: Registry, net: Net, e: Endpoint, dest: string, text: string)
    requires Equipped(server, net, e, dest)
    requires forall n :: n in r.addr ==> AddressOf(r.addr[n]).Address?
    ensures var a, to := net[e], net[e].roster[dest];
      var o := SendText(server, r, net, e, dest, text);
      && (o.ret == RetSuccess || o.ret == Undefined)
      && (o.ret == RetSuccess <==>
           && Readable(a, to, server, text) && Reachable(r, net, to)
           && Payload(a.nickname + "@" + Piece(ServerReads(a, to, server, text))).Some?)
  {
    hide SendText, ServerReads, Piece, Payload, Blank, Span, AddressOf, Bearable;
    var to := net[e].roster[dest];
    if Reachable(r, net, to) {
      var f := Endpoint(AddressOf(r.addr[to]).ip, AddressOf(r.addr[to]).port);
      ReachableIsConnected(server, r, net, e, dest);
      TextOutcome(server, r, net, e, dest, text, f);
    } else {
      OutOfReach(server, r, net, e, dest, text);
    }
  }

  lemma ReachableIsConnected(server: string, r: Registry, net: Net, e: Endpoint, dest: string)
    requires Equipped(server, net, e, dest) && Reachable(r, net, net[e].roster[dest])
    ensures var a := AddressOf(r.addr[net[e].roster[dest]]);
      Connected(server, r, net, e, dest, Endpoint(a.ip, a.port))
  {
    hide GoodName, GoodServer, AddressOf;
  }

  lemma OutOfReach(server: string, r: Registry, net: Net, e: Endpoint, dest: string, text: string)
    requires Equipped(server, net, e, dest) && !Reachable(r, net, net[e].roster[dest])
    requires forall n :: n in r.addr ==> AddressOf(r.addr[n]).Address?
    ensures SendText(server, r, net, e, dest, text).ret == Undefined
  {
    hide Wire, Received, ServerReads, Piece, Blank, Span, AddressOf, Bearable, Exchange;
    var a, to := net[e], net[e].roster[dest];
    var w := ServerReads(a, to, server, text);
    RequestRead(a, to, server, text);
    ErrorTravels("DESTINATION NOT FOUND");
    if !Blank(w[Span(w, '-')..], '-') && to in r.addr {
      var f := AddressOf(r.addr[to]);
      PieceIsPlain(a, to, server, text);
      NobodyThere(net, Packet(f.ip, f.port, Forwarded(a, to, server, Piece(w))));
    }
  }

  /** Nobody, or somebody else, listens there: `Send` makes up an error. */
  lemma NobodyThere(net: Net, p: Packet)
    requires var f := Endpoint(p.ip, p.port); f !in net || net[f].name != p.msg.clientDest
    requires Deliverable(p.msg)
    ensures var x := Exchange(net, p);
      && x.Some? && x.value.0 == net && x.value.1.msgType == ErrorType
      && Received(Wire(x.value.1)) == Some(x.value.1)
  {
    hide Wire, Received, Deliverable;
    Arrives(p.msg);
    ErrorTravels("Error connecting");
    ErrorTravels("Error receiving reply");
    var f := Endpoint(p.ip, p.port);
    if f in net { assert net[f := net[f]] == net; }
  }

  /** The code has a result everywhere if and only if, moreover, the event fits
      its buffers. */
  lemma DefinedTextIff(server: string, r: Registry, net: Net, e: Endpoint, dest: string, text: string)
    requires Equipped(server, net, e, dest)
    requires forall n :: n in r.addr ==> AddressOf(r.addr[n]).Address?
    ensures var a, to := net[e], net[e].roster[dest];
      && a.nickname != ""
      && (Defined(net, SendText(server, r, net, e, dest, text)) <==>
           && Readable(a, to, server, text) && Reachable(r, net, to)
           && Announced(a.nickname, Piece(ServerReads(a, to, server, text))))
  {
    hide SendText, Seen, Piece, Blank, Span, AddressOf, Defined, Announced, GoodServer, CleanName;
    var to := net[e].roster[dest];
    CleanNameIs(net[e].nickname);
    if Reachable(r, net, to) {
      var f := Endpoint(AddressOf(r.addr[to]).ip, AddressOf(r.addr[to]).port);
      ReachableIsConnected(server, r, net, e, dest);
      DefinedIffAnnounced(server, r, net, e, dest, text, f);
    } else {
      OutOfReach(server, r, net, e, dest, text);
      UndefinedIsNotDefined(net, SendText(server, r, net, e, dest, text));
    }
  }

  /** A sender that names another server, say a former one, is told so, nothing
      is forwarded, and it has no result. */
  lemma OtherServer(server: string, r: Registry, net: Net, e: Endpoint, dest: string, text: string)
    requires e in net && dest in net[e].roster && net[e].server != server
    requires Bearable(net[e], net[e].roster[dest], net[e].server)
    ensures SendText(server, r, net, e, dest, text) == Outcome(Undefined, net, None)
  {
    hide Wire, Received, ServerReads, Piece, Blank, Span, Bearable;
    RequestRead(net[e], net[e].roster[dest], net[e].server, text);
    ErrorTravels("Wrong destination");
  }

  /** A text for a nickname the sender does not know is an error, and no more. */
  lemma UnknownNickname(server: string, r: Registry, net: Net, e: Endpoint, dest: string, text: string)
    requires e in net && dest !in net[e].roster
    ensures var o := SendText(server, r, net, e, dest, text);
      o == Outcome(RetError, net, None) && Defined(net, o)
  {
    hide Received, Wire;
  }

  /** Text without `|` and NUL that fits the event's buffer is understood if and
      only if something other than `@` comes before its first `-`. */
  lemma ShortTextUnderstood(text: string, room: nat)
    requires '|' !in text && NUL !in text && |text| < TEXT_SIZE && room >= 3564
    ensures Understood(text, room) <==> !Blank(Piece(text), '@')
  {
    hide Runs, Seen;
    WholeSeen(text, room);
    var w, k := text + "-MSG_PRIORITY_NORMAL", Span(text, '-');
    assert forall i :: 0 <= i < k ==> w[i] == text[..k][i];
    SpanIs(w, '-', k);
    assert w[..k] == text[..k];
    assert w[|text| + 1] == "-MSG_PRIORITY_NORMAL"[1] == 'M';
    assert w[k..][|text| + 1 - k] == w[|text| + 1];
    hide Span;
    NoRuns(text[..k], '@');
    RunsShort(text[..k], '@');
  }

  lemma WholeSeen(text: string, room: nat)
    requires '|' !in text && NUL !in text && |text| + 20 <= room
    ensures Seen(text + SUFFIX, room) == text + "-MSG_PRIORITY_NORMAL"
  {
    SuffixAt(text);
    assert (text + SUFFIX)[..|text| + 20] == text + "-MSG_PRIORITY_NORMAL";
    assert NUL !in text + "-MSG_PRIORITY_NORMAL";
  }

  lemma NothingSeen(room: nat)
    ensures Seen("|" + SUFFIX, room) == ""
        && Blank(Seen("|" + SUFFIX, room)[Span(Seen("|" + SUFFIX, room), '-')..], '-')
  {
    var s := "|" + SUFFIX;
    assert s[0] == '|';
    SpanIs(s, '|', 0);
    assert s[..0] == "";
  }

  /** A bar alone leaves the server one token short. */
  lemma BarIsNotUnderstood(room: nat)
    ensures !Understood("|", room)
  {
    NothingSeen(room);
  }

  /** Only `@`: the receiver finds no text. */
  lemma AtIsNotUnderstood(room: nat)
    requires room >= 3564
    ensures !Understood("@", room)
  {
    SpanIs("@", '-', 1);
    ShortTextUnderstood("@", room);
  }

  /** A bar behind a `-` and more does no harm to what is in front. */
  lemma BarMayBeUnderstood(room: nat)
    requires room >= 3
    ensures Understood("a-b|c", room) && Meaning("a-b|c", room) == "a"
  {
    var s := "a-b|c" + SUFFIX;
    assert s[0] == 'a' && s[1] == '-' && s[2] == 'b' && s[3] == '|';
    SpanIs(s, '|', 3);
    assert s[..3] == "a-b";
    assert Seen(s, room) == "a-b";
    SpanIs("a-b", '-', 1);
    assert Piece("a-b") == "a" && "a-b"[1..][1] == 'b';
    RunsOfToken("a", '@');
  }
}
