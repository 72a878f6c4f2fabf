/** `CimabueClient` and `ConsoleView`: the client's own nickname -> name map, the
    events it raises, and the list a view keeps from them. */
module Client {
  import opened CppString
  import opened KeyOrder
  import opened Tokenizer
  import opened Messages
  import opened NodeData
  import opened RosterText
  import opened Registries

  /** What the views are told. Undefined: a payload without two tokens, or text
      that does not fit the event's buffers. */
  datatype Event =
    | NewMessage(nick: string, text: string) | ListAdd(nick: string) | ListRem(nick: string) | UndefinedEvent

  const NICK_SIZE: nat := 128
  const TEXT_SIZE: nat := 1024

  function MessageEvent(nick: string, text: string): Event {
    if |nick| < NICK_SIZE && |text| < TEXT_SIZE then NewMessage(CText(nick), CText(text)) else UndefinedEvent
  }

  function AddEvent(nick: string): Event {
    if |nick| < NICK_SIZE then ListAdd(CText(nick)) else UndefinedEvent
  }

  function RemEvent(nick: string): Event {
    if |nick| < NICK_SIZE then ListRem(CText(nick)) else UndefinedEvent
  }

  datatype ClientState = ClientState(
    name: string, nickname: string, ip: string, port: nat,
    connected: bool, server: string,
    roster: map<string, string>,  // clientNickToNameMap
    events: seq<Event>)

  // ----- what a down message does

  function AddEntries(c: ClientState, es: seq<Entry>): ClientState
    decreases |es|
  {
    if es == [] then c
    else
      AddEntries(
        c.(roster := Insert(c.roster, es[0].0, es[0].1), events := c.events + [AddEvent(es[0].0)]),
        es[1..])
  }

  /** The first key, in map order, that maps to v. */
  function FirstWith(ks: seq<string>, m: map<string, string>, v: string): (k: Option<string>)
    ensures k.Some? ==> k.value in m && m[k.value] == v
    ensures k.None? ==> forall x :: x in ks && x in m ==> m[x] != v
  {
    if ks == [] then None
    else if ks[0] in m && m[ks[0]] == v then Some(ks[0])
    else FirstWith(ks[1..], m, v)
  }

  function RemEntry(c: ClientState, gone: string): ClientState {
    match FirstWith(Keys(c.roster.Keys), c.roster, gone)
    case None => c
    case Some(nick) => c.(roster := c.roster - {nick}, events := c.events + [RemEvent(nick)])
  }

  /** Sender and text of a `nick@text` payload. */
  function Payload(data: string): Option<(string, string)> {
    match Tokens(data, '@')
    case None => None
    case Some(t) => if |t| < 2 then None else Some((t[0], t[1]))
  }

  /** New state and reply of `processDownMessage`. */
  function Down(c: ClientState, m: Msg): (ClientState, Option<Msg>)
    requires |m.data| < NPOS
  {
    if m.clientDest != c.name then (c, None)
    else
      match m.msgType
      case PingClient => (c, Some(BLANK))
      case SendMessage =>
        (match Payload(m.data)
         case None => (c.(events := c.events + [UndefinedEvent]), None)
         case Some(p) => (c.(events := c.events + [MessageEvent(p.0, p.1)]), Some(BLANK)))
      case UpdateAddClients => (AddEntries(c, ReadList(m.data).0), Some(BLANK))
      case UpdateRemClients => (RemEntry(c, m.data), None)
      case _ => (c, None)
  }

  /** Which messages the client answers: its own pings, add messages and texts
      that it can take apart; all of them with a blank message. */
  lemma AnsweredIff(c: ClientState, m: Msg)
    requires |m.data| < NPOS
    ensures Down(c, m).1 == Some(BLANK) || Down(c, m).1 == None
    ensures Down(c, m).1 == Some(BLANK) <==>
      && m.clientDest == c.name
      && (m.msgType == PingClient || m.msgType == UpdateAddClients
          || (m.msgType == SendMessage && Payload(m.data).Some?))
  {
    hide AddEntries, RemEntry, ReadList, Payload;
  }

  /** Which events there is no room for. */
  lemma RoomForEvents(nick: string, text: string)
    ensures AddEvent(nick) == UndefinedEvent <==> |nick| >= 128
    ensures RemEvent(nick) == UndefinedEvent <==> |nick| >= 128
    ensures MessageEvent(nick, text) == UndefinedEvent <==> |nick| >= 128 || |text| >= 1024
  {
  }

  /** Events hold C strings: they show what stands in front of the first NUL. */
  lemma EventTexts(nick: string, text: string, rest: string)
    requires NUL !in nick && NUL !in text && |nick| + 1 + |rest| < 128 && |text| + 1 + |rest| < 1024
    ensures AddEvent(nick) == AddEvent(nick + [NUL] + rest) == ListAdd(nick)
    ensures RemEvent(nick) == RemEvent(nick + [NUL] + rest) == ListRem(nick)
    ensures MessageEvent(nick, text) == MessageEvent(nick + [NUL] + rest, text + [NUL] + rest) == NewMessage(nick, text)
  {
    hide CText;
    CTextIs(nick, rest);
    CTextIs(text, rest);
  }

  /** Which messages leave the client as it is, and what a text does. */
  lemma ChangesOnly(c: ClientState, m: Msg)
    requires |m.data| < NPOS
    ensures m.clientDest != c.name || m.msgType !in {SendMessage, UpdateAddClients, UpdateRemClients} ==>
      Down(c, m).0 == c
    ensures m.clientDest == c.name && m.msgType == SendMessage ==>
      && Down(c, m).0.events[..|Down(c, m).0.events| - 1] == c.events
      && Down(c, m).0.(events := c.events) == c
  {
    hide AddEntries, RemEntry, ReadList, Payload;
  }

  /** One event for each entry of an add message, in order. */
  lemma {:induction false} EventsInOrder(c: ClientState, es: seq<Entry>)
    ensures var after := AddEntries(c, es).events;
      && |after| == |c.events| + |es| && after[..|c.events|] == c.events
      && forall i :: 0 <= i < |es| ==> after[|c.events| + i] == AddEvent(es[i].0)
    decreases |es|
  {
    if es != [] {
      var d := c.(roster := Insert(c.roster, es[0].0, es[0].1), events := c.events + [AddEvent(es[0].0)]);
      EventsInOrder(d, es[1..]);
      var after := AddEntries(c, es).events;
      assert after[..|c.events|] == after[..|d.events|][..|c.events|];
      assert after[|c.events|] == after[..|d.events|][|c.events|];
      forall i | 0 < i < |es| ensures after[|c.events| + i] == AddEvent(es[i].0) {
        assert es[1..][i - 1] == es[i];
      }
    }
  }

  /** A remove message takes the least of the nicknames that lead to the name. */
  lemma RemovesLeast(c: ClientState, gone: string, nick: string)
    requires nick in c.roster && c.roster[nick] == gone
    ensures exists k :: k in c.roster && IsRemoval(c, gone, k, RemEntry(c, gone)) && (k == nick || Before(k, nick))
  {
    hide Keys, Before;
    FirstWithIsFirst(Keys(c.roster.Keys), c.roster, gone, nick);
  }

  /** d is c without the entry under k, which leads to gone. */
  predicate IsRemoval(c: ClientState, gone: string, k: string, d: ClientState)
    requires k in c.roster
  {
    c.roster[k] == gone && d == c.(roster := c.roster - {k}, events := c.events + [RemEvent(k)])
  }

  lemma {:induction false} FirstWithIsFirst(ks: seq<string>, m: map<string, string>, v: string, x: string)
    requires x in ks && x in m && m[x] == v && Ascending(ks)
    ensures var k := FirstWith(ks, m, v); k.Some? && (k.value == x || Before(k.value, x))
  {
    if !(ks[0] in m && m[ks[0]] == v) {
      assert x in ks[1..];
      forall i, j | 0 <= i < j < |ks[1..]| ensures Before(ks[1..][i], ks[1..][j]) {
        assert ks[1..][i] == ks[i + 1] && ks[1..][j] == ks[j + 1];
      }
      FirstWithIsFirst(ks[1..], m, v, x);
    } else if ks[0] != x {
      var j :| 0 <= j < |ks| && ks[j] == x;
      assert Before(ks[0], ks[j]);
    }
  }

  // ----- what the client sends

  function ConnectRequest(c: ClientState): Msg {
    Msg(AddClient, c.name, VOID, VOID, VOID, Record(c.nickname, c.ip, c.port), Normal)
  }

  /** None: the destination nickname is unknown. */
  function TextRequest(c: ClientState, dest: string, content: string): Option<Msg> {
    if dest !in c.roster then None
    else Some(Msg(SendMessage, c.name, c.roster[dest], VOID, c.server, c.nickname + "@" + content, Normal))
  }

  /** How many replies are errors before the first that is not. */
  function Failures(replies: seq<Msg>): (n: nat)
    ensures n <= |replies| && (n < |replies| ==> replies[n].msgType != ErrorType)
    ensures forall i :: 0 <= i < n ==> replies[i].msgType == ErrorType
  {
    if replies == [] || replies[0].msgType != ErrorType then 0 else 1 + Failures(replies[1..])
  }

  class CimabueClient {
    const name: string
    const nickname: string
    const ip: string
    const port: nat
    const serverIp: string
    const serverPort: nat
    var connectedToServer: bool
    var server: string
    var clientNickToNameMap: map<string, string>
    var events: seq<Event>
    var sent: seq<Packet>

    constructor (name: string, nickname: string, ip: string, port: nat, serverIp: string, serverPort: nat)
      ensures State() == ClientState(name, nickname, ip, port, false, "", map[], [])
      ensures sent == [] && this.serverIp == serverIp && this.serverPort == serverPort
    {
      this.name, this.nickname, this.ip, this.port := name, nickname, ip, port;
      this.serverIp, this.serverPort := serverIp, serverPort;
      connectedToServer, server := false, "";
      clientNickToNameMap, events, sent := map[], [], [];
    }

    function State(): ClientState
      reads this
    {
      ClientState(name, nickname, ip, port, connectedToServer, server, clientNickToNameMap, events)
    }

    /** Registers until the server answers; replies are what the attempts
        return, at least one of them without an error. */
    method ConnectToServer(replies: seq<Msg>)
      requires |Record(nickname, ip, port)| < 128
      requires connectedToServer || Failures(replies) < |replies|
      modifies this
      ensures old(connectedToServer) ==> State() == old(State()) && sent == old(sent)
      ensures !old(connectedToServer) ==>
        var n := Failures(replies);
        && State() == old(State()).(connected := true, server := replies[n].serverSrc)
        && |sent| == |old(sent)| + n + 1 && sent[..|old(sent)|] == old(sent)
        && forall i :: |old(sent)| <= i < |sent| ==>
             sent[i] == Packet(serverIp, serverPort, ConnectRequest(old(State())))
    {
      var nicknameIpPort := Record(nickname, ip, port);
      var connectMe := Msg(AddClient, name, VOID, VOID, VOID, nicknameIpPort, Normal);
      ghost var start := State();
      var i := 0;
      while !connectedToServer
        invariant |sent| == |old(sent)| + i && sent[..|old(sent)|] == old(sent)
        invariant forall j :: |old(sent)| <= j < |sent| ==> sent[j] == Packet(serverIp, serverPort, connectMe)
        invariant !connectedToServer ==> State() == start && i <= Failures(replies)
        invariant start.connected ==> i == 0 && State() == start
        invariant connectedToServer && !start.connected ==>
          i == Failures(replies) + 1 && State() == start.(connected := true, server := replies[i - 1].serverSrc)
        decreases !connectedToServer, |replies| - i
      {
        sent := sent + [Packet(serverIp, serverPort, connectMe)];
        var ret := replies[i];
        if ret.msgType != ErrorType {
          server := ret.serverSrc;
          connectedToServer := true;
        }
        i := i + 1;
      }
    }

    /** An unknown nickname is an error. An error reply has no result: the report
        of it casts the return code to a message. */
    method SendText(dest: string, content: string, reply: Msg) returns (ret: Status)
      modifies this`sent
      ensures dest !in clientNickToNameMap ==> ret == RetError && sent == old(sent)
      ensures dest in clientNickToNameMap ==>
        && sent == old(sent) + [Packet(serverIp, serverPort, TextRequest(State(), dest, content).value)]
        && ret == (if reply.msgType == ErrorType then Undefined else RetSuccess)
    {
      ret := RetError;
      if dest !in clientNickToNameMap {
        return;
      }
      var destName := clientNickToNameMap[dest];
      var dataToSend := nickname;
      dataToSend := dataToSend + "@";
      dataToSend := dataToSend + content;
      sent := sent + [Packet(serverIp, serverPort, Msg(SendMessage, name, destName, VOID, server, dataToSend, Normal))];
      if reply.msgType == ErrorType {
        return Undefined;
      }
      ret := RetSuccess;
    }

    method ExtractNicknameAndData(s: string) returns (r: Option<(string, string)>)
      requires |s| < NPOS
      ensures r == Payload(s)
    {
      var tokens := Tokenize(s, '@');
      if tokens == None || |tokens.value| < 2 {
        return None;
      }
      return Some((tokens.value[0], tokens.value[1]));
    }

    method ProcessDownMessage(msg: Msg) returns (reply: Option<Msg>)
      requires |msg.data| < NPOS
      modifies this
      ensures (State(), reply) == Down(old(State()), msg)
    {
      reply := None;
      if msg.clientDest != name {
        return;
      }
      match msg.msgType
      case PingClient =>
        reply := Some(BLANK);
      case SendMessage =>
        var p := ExtractNicknameAndData(msg.data);
        if p == None {
          events := events + [UndefinedEvent];
        } else {
          reply := Some(BLANK);
          events := events + [MessageEvent(p.value.0, p.value.1)];
        }
      case UpdateAddClients =>
        AddClients(msg.data);
        reply := Some(BLANK);
      case UpdateRemClients =>
        RemoveClient(msg.data);
      case _ =>
    }

    method AddClients(list: string)
      requires |list| < NPOS
      modifies this
      ensures State() == AddEntries(old(State()), ReadList(list).0)
    {
      hide Decimal.Atoi, Decimal.Unsigned, Extract;
      var firstSeparator := FindFirstOf(list, ':', 0);
      var clientNumberS := Substr(list, 0, firstSeparator).value;
      assert firstSeparator == NPOS ==> clientNumberS == list[0..] == list;
      var clientNumber := Decimal.Unsigned(Decimal.Atoi(clientNumberS));
      var data := Substr(list, SizeSucc(firstSeparator), NPOS).value;
      ghost var target := AddEntries(State(), ReadList(list).0);
      for i := 0 to clientNumber
        invariant |data| < NPOS
        invariant AddEntries(State(), ReadEntries(data, clientNumber - i).0) == target
      {
        var nick, clientName;
        ghost var before := data;
        nick, clientName, data := ExtractNewClient(data);
        assert ReadEntries(before, clientNumber - i).0[1..] == ReadEntries(data, clientNumber - i - 1).0;
        clientNickToNameMap := Insert(clientNickToNameMap, nick, clientName);
        events := events + [AddEvent(nick)];
      }
    }

    method RemoveClient(gone: string)
      modifies this
      ensures State() == RemEntry(old(State()), gone)
    {
      var ks := Keys(clientNickToNameMap.Keys);
      for i := 0 to |ks|
        invariant State() == old(State())
        invariant FirstWith(ks[i..], clientNickToNameMap, gone) == FirstWith(ks, clientNickToNameMap, gone)
      {
        assert ks[i..][0] == ks[i] && ks[i..][1..] == ks[i + 1..] && ks[i] in ks;
        if clientNickToNameMap[ks[i]] == gone {
          clientNickToNameMap := clientNickToNameMap - {ks[i]};
          events := events + [RemEvent(ks[i])];
          return;
        }
      }
    }
  }

  // ----- the console view

  function RemoveFirst(list: seq<string>, x: string): seq<string> {
    if list == [] then []
    else if list[0] == x then list[1..]
    else [list[0]] + RemoveFirst(list[1..], x)
  }

  function Shown(list: seq<string>, e: Event): seq<string> {
    match e
    case ListAdd(nick) => list + [nick]
    case ListRem(nick) => RemoveFirst(list, nick)
    case _ => list
  }

  /** The list of a view that has been attached from the start. */
  function ViewOf(events: seq<Event>): seq<string> {
    if events == [] then [] else Shown(ViewOf(events[..|events| - 1]), events[|events| - 1])
  }

  class ConsoleView {
    var clients: seq<string>

    constructor ()
      ensures clients == ViewOf([])
    {
      clients := [];
    }

    method Update(event: Event)
      modifies this
      ensures clients == Shown(old(clients), event)
    {
      match event
      case ListAdd(nick) =>
        clients := clients + [nick];
      case ListRem(nick) =>
        var i := 0;
        while i < |clients|
          invariant i <= |clients| && clients == old(clients)
          invariant nick !in clients[..i]
        {
          if clients[i] == nick {
            RemoveAt(clients, nick, i);
            clients := clients[..i] + clients[i + 1..];
            return;
          }
          i := i + 1;
        }
        assert clients[..i] == clients;
        RemoveFirstCounts(clients, nick);
      case _ =>
    }
  }

  lemma {:induction false} RemoveAt(list: seq<string>, x: string, i: nat)
    requires i < |list| && list[i] == x && x !in list[..i]
    ensures RemoveFirst(list, x) == list[..i] + list[i + 1..]
  {
    if i == 0 {
      assert list[..0] + list[1..] == list[1..];
    } else {
      assert list[0] == list[..i][0] && list[1..][..i - 1] == list[..i][1..];
      RemoveAt(list[1..], x, i - 1);
      assert list[1..][i..] == list[i + 1..];
      assert [list[0]] + (list[1..][..i - 1] + list[i + 1..]) == list[..i] + list[i + 1..];
    }
  }

  lemma {:induction false} RemoveFirstCounts(list: seq<string>, x: string)
    ensures x in list ==> multiset(RemoveFirst(list, x)) == multiset(list) - multiset{x}
    ensures x !in list ==> RemoveFirst(list, x) == list
  {
    if list != [] {
      assert list == [list[0]] + list[1..];
      if list[0] != x {
        RemoveFirstCounts(list[1..], x);
      }
    }
  }

  /** A view lists joiners in the order in which they were announced. */
  lemma {:induction false} ViewInOrder(events: seq<Event>)
    requires forall i :: 0 <= i < |events| ==> events[i].ListAdd?
    ensures |ViewOf(events)| == |events|
    ensures forall i :: 0 <= i < |events| ==> ViewOf(events)[i] == events[i].nick
  {
    if events != [] {
      ViewInOrder(events[..|events| - 1]);
    }
  }

  /** A removal keeps the order of the others. */
  lemma {:induction false} RemovalInOrder(before: seq<string>, x: string, after: seq<string>)
    requires x !in before
    ensures Shown(before + [x] + after, ListRem(x)) == before + after
  {
    assert (before + [x] + after)[..|before|] == before && (before + [x] + after)[|before| + 1..] == after;
    RemoveAt(before + [x] + after, x, |before|);
  }
}
