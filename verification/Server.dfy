/** `CimabueServer`: the operations of its two threads, each proved against
    what `Registries` says about the maps and the messages sent. */
module Server {
  import opened CppString
  import opened KeyOrder
  import opened Messages
  import opened NodeData
  import opened RosterText
  import opened Registries

  function ErrorMsg(text: string): Msg {
    Msg(ErrorType, VOID, VOID, VOID, VOID, text, Normal)
  }

  function AddReply(server: string, m: Msg): Msg {
    Msg(AddClient, VOID, m.clientSrc, server, VOID, m.data, Normal)
  }

  /** What `executeSendMessage` forwards, if it knows the destination. */
  function Forward(r: Registry, server: string, m: Msg): Option<Packet> {
    if m.clientDest in r.addr && AddressOf(r.addr[m.clientDest]).Address? then
      var a := AddressOf(r.addr[m.clientDest]);
      Some(Packet(a.ip, a.port, m.(serverSrc := server, serverDest := VOID)))
    else None
  }

  /** The answer to a down message; relayed is what the forwarding `Send`
      returned. None: the connection is closed without an answer. */
  function Answer(r: Registry, server: string, m: Msg, relayed: Msg): Option<Msg> {
    if m.msgType == AddClient then Some(AddReply(server, m))
    else if m.serverDest != server then Some(ErrorMsg("Wrong destination"))
    else if m.msgType == SendMessage then
      if m.clientDest in r.addr then Some(relayed) else Some(ErrorMsg("DESTINATION NOT FOUND"))
    else None
  }

  /** The maps and the packets a down message leads to. */
  function DownEffect(r: Registry, server: string, m: Msg, now: int): (Registry, seq<Packet>)
    requires m.msgType == AddClient ==> NicknameOf(m.data).Some?
  {
    if m.msgType == AddClient then
      var q := Register(r, m.clientSrc, m.data, now);
      (q, AddUpdates(q, server, m.clientSrc, m.data))
    else if m.serverDest == server && m.msgType == SendMessage && Forward(r, server, m).Some? then
      (r, [Forward(r, server, m).value])
    else (r, [])
  }

  /** Who gets which answer, whatever the maps are. */
  lemma AnswerIs(r: Registry, server: string, m: Msg, relayed: Msg)
    ensures m.msgType == AddClient ==>
      Answer(r, server, m, relayed) == Some(Msg(AddClient, " ", m.clientSrc, server, " ", m.data, Normal))
    ensures m.msgType != AddClient && m.serverDest != server ==>
      Answer(r, server, m, relayed) == Some(Msg(ErrorType, " ", " ", " ", " ", "Wrong destination", Normal))
    ensures m.msgType == SendMessage && m.serverDest == server && m.clientDest !in r.addr ==>
      Answer(r, server, m, relayed) == Some(Msg(ErrorType, " ", " ", " ", " ", "DESTINATION NOT FOUND", Normal))
    ensures m.msgType == SendMessage && m.serverDest == server && m.clientDest in r.addr ==>
      Answer(r, server, m, relayed) == Some(relayed)
    ensures m.msgType != AddClient && m.msgType != SendMessage && m.serverDest == server ==>
      Answer(r, server, m, relayed) == None
  {
  }

  /** Only registrations change the maps; nothing is sent but updates for them
      and texts that are forwarded. */
  lemma EffectIs(r: Registry, server: string, m: Msg, now: int)
    requires m.msgType != AddClient
    ensures DownEffect(r, server, m, now).0 == r
    ensures m.serverDest != server || m.msgType != SendMessage || m.clientDest !in r.addr ==>
      DownEffect(r, server, m, now).1 == []
  {
    hide AddressOf, NicknameOf;
  }

  class CimabueServer {
    const name: string
    var clientNameToIPMap: map<string, string>
    var clientPingList: map<string, int>
    var clientNicknameToName: map<string, string>
    var sent: seq<Packet>  // every message sent so far, with the address it was sent to

    constructor (name: string)
      ensures State() == EMPTY && sent == [] && this.name == name && Valid()
    {
      this.name := name;
      clientNameToIPMap, clientPingList, clientNicknameToName := map[], map[], map[];
      sent := [];
    }

    function State(): Registry
      reads this
    {
      Registry(clientNameToIPMap, clientPingList, clientNicknameToName)
    }

    /** Addresses come from registrations that the parsers can handle. */
    ghost predicate Valid()
      reads this
    {
      forall n :: n in clientNameToIPMap ==> Usable(clientNameToIPMap[n])
    }

    /** Only the nickname has to be there; without a usable address, the next
        broadcast is the first to miss it. */
    method ExecuteAddClient(msg: Msg, now: int) returns (answer: Msg)
      requires |msg.data| < NPOS && NicknameOf(msg.data).Some?
      modifies this
      ensures sent == old(sent)
      ensures old(Valid()) && Usable(msg.data) ==> Valid()
      ensures State() == Register(old(State()), msg.clientSrc, msg.data, now)
      ensures answer == Msg(AddClient, " ", msg.clientSrc, name, " ", msg.data, Normal)
    {
      clientNameToIPMap := Insert(clientNameToIPMap, msg.clientSrc, msg.data);
      clientPingList := Insert(clientPingList, msg.clientSrc, now);
      var nickname := ParseNickname(msg.data);
      clientNicknameToName := Insert(clientNicknameToName, msg.clientSrc, nickname.value);
      answer := Msg(AddClient, VOID, msg.clientSrc, name, VOID, msg.data, Normal);
    }

    /** `update_msg.Send(...)` behind `if (parseAddress(...))`. */
    method SendTo(address: string, m: Msg)
      requires |address| < NPOS
      modifies this`sent
      ensures sent == old(sent) + PacketTo(address, m)
    {
      var a := ParseAddress(address);
      if a.Address? {
        sent := sent + [Packet(a.ip, a.port, m)];
      }
    }

    method UpdateClientListAdd(msg: Msg)
      requires Valid() && Usable(msg.data)
      modifies this`sent
      ensures sent == old(sent) + AddUpdates(State(), name, msg.clientSrc, msg.data)
    {
      hide AddressOf, NicknameOf, Broadcast, Keys, Entries, ListText;
      var ks := Keys(clientNameToIPMap.Keys);
      ghost var bodies := AddBodies(State(), name, msg.clientSrc, msg.data);
      BroadcastEnds(ks, clientNameToIPMap, bodies);
      for i := 0 to |ks|
        invariant sent == old(sent) + Broadcast(ks[..i], clientNameToIPMap, bodies)
      {
        var first, second := ks[i], clientNameToIPMap[ks[i]];
        BroadcastTurn(ks, i, clientNameToIPMap, bodies);
        assert ks[i] in ks;
        if first != msg.clientSrc {
          // nickname:name of the new client
          var entry := "1:";
          var nickname := ParseNickname(msg.data);
          entry := entry + nickname.value;
          entry := entry + ":";
          entry := entry + msg.clientSrc;
          OneEntry(nickname.value, msg.clientSrc);
          SendTo(second, Msg(UpdateAddClients, VOID, first, name, VOID, entry, Normal));
        } else {
          var entry := WriteList(clientNicknameToName);
          SendTo(second, Msg(UpdateAddClients, VOID, msg.clientSrc, name, VOID, entry, Normal));
        }
      }
    }

    method UpdateClientListRem(nodeName: string)
      requires Valid()
      modifies this`sent
      ensures sent == old(sent) + RemUpdates(State(), name, nodeName)
    {
      hide AddressOf, NicknameOf, Broadcast, Keys, Entries, ListText;
      var ks := Keys(clientNameToIPMap.Keys);
      ghost var bodies := RemBodies(State(), name, nodeName);
      BroadcastEnds(ks, clientNameToIPMap, bodies);
      for i := 0 to |ks|
        invariant sent == old(sent) + Broadcast(ks[..i], clientNameToIPMap, bodies)
      {
        BroadcastTurn(ks, i, clientNameToIPMap, bodies);
        assert ks[i] in ks;
        if ks[i] != nodeName {
          SendTo(clientNameToIPMap[ks[i]], Msg(UpdateRemClients, VOID, ks[i], name, VOID, nodeName, Normal));
        }
      }
    }

    method RemoveClient(clientName: string)
      requires Valid()
      modifies this
      ensures Valid() && sent == old(sent)
      ensures State() == Unregister(old(State()), clientName)
    {
      clientNameToIPMap := clientNameToIPMap - {clientName};
      clientPingList := clientPingList - {clientName};
      clientNicknameToName := clientNicknameToName - {clientName};
    }

    /** Forwards a text message and hands back what the forwarding returned. */
    method ExecuteSendMessage(msg: Msg, relayed: Msg) returns (reply: Msg)
      requires Valid()
      modifies this`sent
      ensures msg.clientDest in clientNameToIPMap ==>
        && Forward(State(), name, msg).Some?
        && sent == old(sent) + [Forward(State(), name, msg).value]
        && reply == relayed
      ensures msg.clientDest !in clientNameToIPMap ==>
        && Forward(State(), name, msg) == None && sent == old(sent)
        && reply == Msg(ErrorType, " ", " ", " ", " ", "DESTINATION NOT FOUND", Normal)
    {
      if msg.clientDest in clientNameToIPMap {
        var destNick, dest := ParseNicknameAndAddress(clientNameToIPMap[msg.clientDest]);
        var source := new Message(msg);
        var forward := new Message(BLANK);
        source.CopyTo(forward);
        forward.serverSrc := name;
        forward.serverDest := VOID;
        sent := sent + [Packet(dest.ip, dest.port, forward.Value())];
        reply := relayed;
      } else {
        reply := ErrorMsg("DESTINATION NOT FOUND");
      }
    }

    /** A message from a client: answer first, then the roster updates. */
    method ProcessDownMessage(msg: Msg, now: int, relayed: Msg) returns (answer: Option<Msg>)
      requires Valid() && (msg.msgType == AddClient ==> Usable(msg.data))
      modifies this
      ensures Valid()
      ensures answer == Answer(old(State()), name, msg, relayed)
      ensures msg.msgType == AddClient ==>
        answer == Some(Msg(AddClient, " ", msg.clientSrc, name, " ", msg.data, Normal))
      ensures msg.msgType != AddClient ==> State() == old(State())
      ensures msg.msgType != AddClient && msg.serverDest != name ==>
        answer == Some(Msg(ErrorType, " ", " ", " ", " ", "Wrong destination", Normal)) && sent == old(sent)
      ensures msg.msgType != AddClient && msg.serverDest == name && msg.msgType != SendMessage ==>
        answer == None && sent == old(sent)
      ensures State() == DownEffect(old(State()), name, msg, now).0
      ensures sent == old(sent) + DownEffect(old(State()), name, msg, now).1
    {
      answer := None;
      var updateClientList := false;
      if msg.msgType == AddClient {
        var a := ExecuteAddClient(msg, now);
        answer := Some(a);
        updateClientList := true;
      } else if msg.serverDest != name {
        answer := Some(ErrorMsg("Wrong destination"));
      } else {
        match msg.msgType
        case SendMessage =>
          var a := ExecuteSendMessage(msg, relayed);
          answer := Some(a);
        case _ =>
      }
      if updateClientList {
        UpdateClientListAdd(msg);
      }
    }

    /** One client's turn in the ping loop; pong is whether the reply arrived
        and was no error. */
    method PingOne(n: string, pong: bool, now: int)
      requires n in clientNameToIPMap && Usable(clientNameToIPMap[n]) && (pong ==> n in clientPingList)
      modifies this`sent, this`clientPingList
      ensures sent == old(sent) + Turn(n, clientNameToIPMap, PingBodies(clientNameToIPMap, name))
      ensures clientPingList == if pong then old(clientPingList)[n := now] else old(clientPingList)
    {
      hide NicknameOf, AddressOf;
      var address := ParseAddress(clientNameToIPMap[n]);
      sent := sent + [Packet(address.ip, address.port, Msg(PingClient, VOID, n, name, VOID, VOID, Normal))];
      if pong {
        clientPingList := clientPingList[n := now];
      }
    }

    /** First half of a ping round: answered tells which pongs arrived without
        an error, readings are the clock at the turn of each client. */
    method PingClients(answered: set<string>, readings: seq<int>)
      requires Valid() && forall n :: n in clientNameToIPMap && n in answered ==> n in clientPingList
      requires |clientNameToIPMap.Keys| <= |readings|
      modifies this`sent, this`clientPingList
      ensures clientPingList
          == Stamped(old(clientPingList), Keys(clientNameToIPMap.Keys), answered, readings, |clientNameToIPMap.Keys|)
      ensures clientPingList.Keys == old(clientPingList.Keys)
      ensures sent == old(sent)
          + Broadcast(Keys(clientNameToIPMap.Keys), clientNameToIPMap, PingBodies(clientNameToIPMap, name))
    {
      hide Turn, Broadcast, Keys, Stamped, Usable, PingBodies, First, Before;
      var ks := Keys(clientNameToIPMap.Keys);
      ghost var bodies, stamps := PingBodies(clientNameToIPMap, name), clientPingList;
      BroadcastEnds(ks, clientNameToIPMap, bodies);
      StampedStart(stamps, ks, answered, readings);
      for i := 0 to |ks|
        invariant clientPingList == Stamped(stamps, ks, answered, readings, i)
        invariant clientPingList.Keys == stamps.Keys
        invariant sent == old(sent) + Broadcast(ks[..i], clientNameToIPMap, bodies)
      {
        BroadcastTurn(ks, i, clientNameToIPMap, bodies);
        StampedTurn(stamps, ks, answered, readings, i);
        assert ks[i] in ks && Usable(clientNameToIPMap[ks[i]]);
        PingOne(ks[i], ks[i] in answered, readings[i]);
      }
    }

    /** Second half: removes the clients that have been silent for too long. The
        names are those in the ping list when the sweep starts. */
    method Sweep(readings: seq<int>)
      requires Valid() && Consistent(State())
      requires |clientPingList| <= |readings|
      modifies this
      ensures Valid()
      ensures var ks := Keys(old(clientPingList.Keys));
        var gone := Expired(old(clientPingList), ks, readings, |ks|);
        && clientNameToIPMap == old(clientNameToIPMap) - gone
        && clientPingList == old(clientPingList) - gone
        && clientNicknameToName == old(clientNicknameToName) - gone
        && sent == old(sent) + SweepFrom(old(State()), name, ks, readings, |ks|).1
      ensures var ks, ping := Keys(old(clientPingList.Keys)), old(clientPingList);
        forall i :: 0 <= i < |ks| && ks[i] in ping ==>
          (ks[i] in clientNameToIPMap <==> readings[i] - ping[ks[i]] <= 5_000_000_000)
    {
      hide AddressOf, NicknameOf, Broadcast, Keys, RemUpdates, Expired, Consistent, SweepFrom;
      var ks := Keys(clientPingList.Keys);
      ghost var start, before := State(), sent;
      SweepStart(start, name, ks, readings);
      for i := 0 to |ks|
        invariant Valid()
        invariant State() == SweepFrom(start, name, ks, readings, i).0
        invariant sent == before + SweepFrom(start, name, ks, readings, i).1
        invariant forall j :: i <= j < |ks| ==> ks[j] in clientPingList
      {
        SweepTurn(start, name, ks, readings, i);
        assert ks[i] in clientPingList;
        var now := readings[i];
        var delta := now - clientPingList[ks[i]];
        if delta > PING_LIMIT {
          UpdateClientListRem(ks[i]);
          RemoveClient(ks[i]);
        }
      }
      SweepExact(start, name, ks, readings, |ks|);
      forall i | 0 <= i < |ks|
        ensures ks[i] in start.ping
        ensures ks[i] in clientNameToIPMap <==> readings[i] - start.ping[ks[i]] <= 5_000_000_000
      {
        assert ks[i] in ks;
        SweepSpares(start, name, ks, readings, |ks|, i);
      }
    }
  }

  ghost predicate Usable(address: string) {
    |address| < NPOS && AddressOf(address).Address?
  }

  lemma OneEntry(nick: string, name: string)
    ensures ListText([(nick, name)]) == "1:" + nick + ":" + name
  {
    assert [(nick, name)][1..] == [];
    assert Body([(nick, name)]) == ":" + nick + ":" + name;
  }
}
