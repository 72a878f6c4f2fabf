/** A text message from client to client: request, forwarding, acknowledgement,
    every leg over the wire. */
module Delivery {
  import opened CppString
  import opened Tokenizer
  import opened Messages
  import opened WireFormat
  import opened NodeData
  import opened Registries
  import opened Server
  import opened Client
  import opened Network
  import opened RosterUpdates

  /** `Send`: the receiver's new state and the decoded reply. None: a decoder
      has no defined result. */
  function Exchange(net: Net, p: Packet): Option<(Net, Msg)> {
    var e := Endpoint(p.ip, p.port);
    if e !in net then Some((net, ErrorMsg("Error connecting")))
    else
      match Received(Wire(p.msg))
      case None => None
      case Some(m) =>
        var (c, reply) := Down(net[e], m);
        match reply
        case None => Some((net[e := c], ErrorMsg("Error receiving reply")))
        case Some(r) =>
          match Received(Wire(r))
          case None => None
          case Some(q) => Some((net[e := c], q))
  }

  datatype Outcome = Outcome(ret: Status, net: Net, forwarded: Option<Packet>)

  /** The sender's end: what it makes of the server's answer. A reply that is an
      error, or none at all, has no result. */
  function Conclude(answer: Option<Msg>, net: Net, forwarded: Option<Packet>): (o: Outcome)
    ensures o.forwarded == forwarded && o.net == net && o.ret != RetError
    ensures o.ret == RetSuccess ==> answer.Some?
  {
    match answer
    case None => Outcome(Undefined, net, forwarded)
    case Some(a) =>
      match Received(Wire(a))
      case None => Outcome(Undefined, net, forwarded)
      case Some(q) => Outcome(if q.msgType == ErrorType then Undefined else RetSuccess, net, forwarded)
  }

  /** `sendMessage(dest, text)` of the process at e, up to its return value. */
  function SendText(server: string, r: Registry, net: Net, e: Endpoint, dest: string, text: string): Outcome
    requires e in net
  {
    match TextRequest(net[e], dest, text)
    case None => Outcome(RetError, net, None)
    case Some(request) =>
      match Received(Wire(request))
      case None => Outcome(Undefined, net, None)
      case Some(m) =>
        match if m.serverDest == server && m.msgType == SendMessage then Forward(r, server, m) else None
        case None => Conclude(Answer(r, server, m, BLANK), net, None)
        case Some(p) =>
          match Exchange(net, p)
          case None => Outcome(Undefined, net, Some(p))
          case Some(x) => Conclude(Answer(r, server, m, x.1), x.0, Some(p))
  }

  /** The outcome is one the code has: no decoder runs out of tokens, no event
      overruns its buffers and no error is reported to the sender. */
  ghost predicate Defined(net: Net, o: Outcome) {
    && o.ret != Undefined
    && forall f :: f in net && f in o.net && o.net[f] != net[f] ==>
         o.net[f].events != [] && o.net[f].events[|o.net[f].events| - 1] != UndefinedEvent
  }

  /** The process at e knows the server and has an entry for dest, whose bearer
      is registered and listens at f. */
  ghost predicate Connected(server: string, r: Registry, net: Net, e: Endpoint, dest: string, f: Endpoint) {
    && GoodServer(server)
    && e in net && GoodName(net[e].name) && GoodName(net[e].nickname) && net[e].server == server
    && dest in net[e].roster
    && f in net && GoodName(net[f].name) && net[f].name == net[e].roster[dest]
    && net[f].name in r.addr && AddressOf(r.addr[net[f].name]) == Address(f.ip, f.port)
  }

  /** Text that arrives as it was typed. */
  predicate PlainText(text: string) {
    Clean(text, ['-', '|', NUL, '@']) && |text| < TEXT_SIZE
  }

  lemma PlainTextIs(text: string)
    ensures PlainText(text)
        <==> text != "" && '-' !in text && '|' !in text && NUL !in text && '@' !in text && |text| < 1024
  {
    assert forall c :: c in ['-', '|', NUL, '@'] <==> c == '-' || c == '|' || c == NUL || c == '@';
  }

  function Request(a: ClientState, to: string, server: string, text: string): Msg {
    Msg(SendMessage, a.name, to, VOID, server, a.nickname + "@" + text, Normal)
  }

  function Forwarded(a: ClientState, to: string, server: string, text: string): Msg {
    Msg(SendMessage, a.name, to, server, VOID, a.nickname + "@" + text, Normal)
  }

  lemma RequestSafe(a: ClientState, to: string, server: string, text: string)
    requires GoodName(a.name) && GoodName(a.nickname) && GoodName(to) && GoodServer(server)
    ensures '-' !in text && '|' !in text && NUL !in text
        ==> WireSafe(Request(a, to, server, text)) && WireSafe(Forwarded(a, to, server, text))
    ensures '-' !in text && '|' !in text && NUL !in text && |text| < TEXT_SIZE
      ==> Deliverable(Request(a, to, server, text)) && Deliverable(Forwarded(a, to, server, text))
  {
    CleanNameIs(a.name);
    CleanNameIs(a.nickname);
    CleanNameIs(to);
    CleanIs(a.name);
    CleanIs(to);
    CleanIs(a.nickname + "@" + text);
    VoidIsField();
    WireLength(Request(a, to, server, text));
    WireLength(Forwarded(a, to, server, text));
  }

  /** What the receiver makes of the payload. */
  lemma PayloadOfText(nick: string, text: string)
    requires GoodName(nick) && '@' !in nick
    ensures var runs := Runs(text, '@');
      Payload(nick + "@" + text) == if runs == [] then None else Some((nick, runs[0]))
  {
    hide Runs;
    CleanNameIs(nick);
    assert nick + ['@'] + text == nick + "@" + text;
    RunsConcat(nick, text, '@');
    RunsOfToken(nick, '@');
    assert (nick + "@" + text)[0] == nick[0] && nick[0] in nick;
  }

  lemma AckArrives()
    ensures Received(Wire(BLANK)) == Some(BLANK)
  {
    hide Clean, Wire;
    VoidIsField();
    WireLength(BLANK);
    Arrives(BLANK);
  }

  /** The receiver raises exactly (nick, text) only for plain text from a
      nickname without `@`. */
  lemma RaisedIff(nick: string, text: string)
    requires GoodName(nick) && '-' !in text && '|' !in text && NUL !in text
    ensures var p := Payload(nick + "@" + text);
      PlainText(text) && '@' !in nick <==> p.Some? && MessageEvent(p.value.0, p.value.1) == NewMessage(nick, text)
  {
    hide Runs, Payload;
    PlainTextIs(text);
    CleanNameIs(nick);
    RunsChars(text, '@', NUL);
    if '@' in nick {
      NotTheNickname(nick, text);
    } else {
      PayloadOfText(nick, text);
      if PlainText(text) {
        RunsOfToken(text, '@');
      } else if Runs(text, '@') != [] {
        assert IsToken(Runs(text, '@')[0], '@');
      }
    }
  }

  /** Nobody with `@` in the nickname is announced under it. */
  lemma NotTheNickname(nick: string, text: string)
    requires nick != "" && '@' in nick && NUL !in nick
    ensures var p := Payload(nick + "@" + text);
      p.Some? ==> MessageEvent(p.value.0, p.value.1) != NewMessage(nick, text)
  {
    var data := nick + "@" + text;
    if Payload(data).Some? {
      var first := Tokens(data, '@').value[0];
      assert data[0] == nick[0];
      if nick[0] == '@' {
        assert first[0] != '@';
        assert CText(first) == "" || CText(first)[0] == first[0];
      } else {
        assert IsToken(first, '@');
      }
    }
  }

  /** The outcome once the server has read the request as one for text read. */
  lemma AfterRequest(server: string, r: Registry, net: Net, e: Endpoint, dest: string, text: string, read: string,
      f: Endpoint)
    requires Connected(server, r, net, e, dest, f)
    requires Received(Wire(Request(net[e], net[f].name, server, text)))
        == Some(Request(net[e], net[f].name, server, read))
    ensures var p := Packet(f.ip, f.port, Forwarded(net[e], net[f].name, server, read));
      SendText(server, r, net, e, dest, text) ==
        match Exchange(net, p)
        case None => Outcome(Undefined, net, Some(p))
        case Some(x) => Conclude(Some(x.1), x.0, Some(p))
  {
    hide Wire, Received, Exchange, Conclude, AddressOf;
  }

  /** What forwarding does at the receiver. */
  lemma ForwardingEffect(server: string, net: Net, a: ClientState, text: string, f: Endpoint)
    requires f in net && GoodName(net[f].name) && GoodName(a.name) && GoodName(a.nickname) && GoodServer(server)
    requires '-' !in text && '|' !in text && NUL !in text
    ensures var m := Forwarded(a, net[f].name, server, text);
      var p := Payload(m.data);
      Exchange(net, Packet(f.ip, f.port, m)) ==
        if !Deliverable(m) then None
        else if p == None then
          Some((net[f := net[f].(events := net[f].events + [UndefinedEvent])], ErrorMsg("Error receiving reply")))
        else
          Some((net[f := net[f].(events := net[f].events + [MessageEvent(p.value.0, p.value.1)])], BLANK))
  {
    hide Wire, Received, Payload, Clean;
    var m := Forwarded(a, net[f].name, server, text);
    RequestSafe(a, net[f].name, server, text);
    WireRoundTrip(m, "");
    assert Wire(m) + "" == Wire(m);
    AckArrives();
    assert Endpoint(f.ip, f.port) == f;
  }

  /** A text message is sent to the receiver's registered address, makes the
      receiver raise exactly the sender's nickname and the text, and returns
      success, if and only if the text is plain and the nickname without `@`. */
  lemma DeliveredIffPlain(server: string, r: Registry, net: Net, e: Endpoint, dest: string, text: string, f: Endpoint)
    requires Connected(server, r, net, e, dest, f)
    ensures SendText(server, r, net, e, dest, text) ==
        Outcome(RetSuccess,
                net[f := net[f].(events := net[f].events + [NewMessage(net[e].nickname, text)])],
                Some(Packet(f.ip, f.port, Forwarded(net[e], net[f].name, server, text))))
      <==> PlainText(text) && '@' !in net[e].nickname
  {
    hide Wire, Received, Exchange, Clean, Payload, MessageEvent;
    var a, to := net[e], net[f].name;
    var o := SendText(server, r, net, e, dest, text);
    PlainTextIs(text);
    if '-' in text || '|' in text || NUL in text {
      Garbled(server, r, net, e, dest, text, f);
    } else {
      var q := Request(a, to, server, text);
      RequestSafe(a, to, server, text);
      WireRoundTrip(q, "");
      assert Wire(q) + "" == Wire(q);
      RaisedIff(a.nickname, text);
      SameLength(a, to, server, text);
      AckArrives();
      if Deliverable(q) {
        AfterRequest(server, r, net, e, dest, text, text, f);
        ForwardingEffect(server, net, a, text, f);
        EventDecides(net, f, text, a.nickname);
      }
    }
  }

  lemma SameLength(a: ClientState, to: string, server: string, text: string)
    ensures |Wire(Request(a, to, server, text))| == |Wire(Forwarded(a, to, server, text))|
  {
    WireLength(Request(a, to, server, text));
    WireLength(Forwarded(a, to, server, text));
  }

  /** Different last events make different networks. */
  lemma EventDecides(net: Net, f: Endpoint, text: string, nick: string)
    requires f in net
    ensures forall x, y: Event ::
      net[f := net[f].(events := net[f].events + [x])] == net[f := net[f].(events := net[f].events + [y])] ==> x == y
  {
    forall x, y: Event | net[f := net[f].(events := net[f].events + [x])]
        == net[f := net[f].(events := net[f].events + [y])]
      ensures x == y
    {
      assert (net[f := net[f].(events := net[f].events + [x])])[f].events[|net[f].events|] == x;
      assert (net[f := net[f].(events := net[f].events + [y])])[f].events[|net[f].events|] == y;
    }
  }

  /** Text with reserved characters is never forwarded as it was typed. */
  lemma Garbled(server: string, r: Registry, net: Net, e: Endpoint, dest: string, text: string, f: Endpoint)
    requires Connected(server, r, net, e, dest, f)
    requires '-' in text || '|' in text || NUL in text
    ensures SendText(server, r, net, e, dest, text).forwarded
        != Some(Packet(f.ip, f.port, Forwarded(net[e], net[f].name, server, text)))
  {
    hide Wire, Received, Exchange, Conclude, AddressOf, Clean;
    var q := Request(net[e], net[f].name, server, text);
    ReceivedIsSafe(q, "");
    assert Wire(q) + "" == Wire(q);
    if Received(Wire(q)).Some? {
      var data := Received(Wire(q)).value.data;
      CleanIs(data);
      assert data != net[e].nickname + "@" + text;
    }
  }
}
