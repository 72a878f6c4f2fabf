/** The roster broadcasts as their receivers experience them, from the server's
    maps through the wire and the counted list to the clients' own maps. */
module RosterUpdates {
  import opened CppString
  import opened KeyOrder
  import opened Messages
  import opened WireFormat
  import opened NodeData
  import opened RosterText
  import opened Registries
  import opened Client
  import opened Network
  import Decimal

  predicate CleanEntry(e: Entry) {
    CleanName(e.0) && CleanName(e.1)
  }

  lemma {:induction false} BodyChars(es: seq<Entry>, c: char)
    requires c == '-' || c == '|' || c == NUL
    requires forall i :: 0 <= i < |es| ==> CleanEntry(es[i])
    ensures c !in Body(es)
  {
    if es != [] {
      assert CleanEntry(es[0]);
      CleanNameIs(es[0].0);
      CleanNameIs(es[0].1);
      BodyChars(es[1..], c);
    }
  }

  lemma ListTextClean(es: seq<Entry>)
    requires forall i :: 0 <= i < |es| ==> CleanEntry(es[i])
    ensures CleanField(ListText(es)) && NoColons(es)
  {
    BodyChars(es, '-');
    BodyChars(es, '|');
    BodyChars(es, NUL);
    CleanIs(ListText(es));
    forall i | 0 <= i < |es| ensures NoColon(es[i]) {
      assert CleanEntry(es[i]);
      CleanNameIs(es[i].0);
      CleanNameIs(es[i].1);
    }
  }

  lemma {:induction false} BodyLength(es: seq<Entry>)
    ensures |Body(es)| >= |es|
  {
    if es != [] { BodyLength(es[1..]); }
  }

  lemma CleanNameIsField(s: string)
    requires CleanName(s)
    ensures CleanField(s)
  {
    CleanNameIs(s);
    CleanIs(s);
  }

  lemma VoidIsField()
    ensures CleanField(VOID)
  {
    CleanIs(VOID);
  }

  /** An add message carrying clean entries is understood entry by entry. */
  lemma AddUnderstood(c: ClientState, m: Msg, es: seq<Entry>)
    requires m.msgType == UpdateAddClients && m.clientDest == c.name && m.data == ListText(es)
    requires forall i :: 0 <= i < |es| ==> CleanEntry(es[i])
    requires |Wire(m)| <= CONTENT_LIMIT
    ensures |m.data| < NPOS && Down(c, m).0 == AddEntries(c, es)
  {
    WireLength(m);
    BodyLength(es);
    ListTextClean(es);
    ListRoundTrip(es);
  }

  lemma EntryMsgSendable(server: string, dest: string, nick: string, name: string)
    requires GoodServer(server) && GoodName(dest) && GoodName(nick) && GoodName(name)
    ensures Deliverable(EntryMsg(server, dest, nick, name))
  {
    hide Clean;
    var m := EntryMsg(server, dest, nick, name);
    var es := [(nick, name)];
    assert CleanEntry(es[0]);
    ListTextClean(es);
    VoidIsField();
    CleanNameIsField(dest);
    assert es[1..] == [] && Body(es) == Item(es[0]) + "";
    assert |Decimal.Print(1)| == 1;
    WireLength(m);
  }

  lemma RemMsgSendable(server: string, dest: string, gone: string)
    requires GoodServer(server) && GoodName(dest) && GoodName(gone)
    ensures Deliverable(RemMsg(server, dest, gone))
  {
    hide Clean;
    VoidIsField();
    CleanNameIsField(dest);
    CleanNameIsField(gone);
    WireLength(RemMsg(server, dest, gone));
  }

  lemma ListMsgSendable(server: string, dest: string, nicks: map<string, string>)
    requires GoodServer(server) && GoodName(dest) && GoodNames(nicks)
    requires |Wire(ListMsg(server, dest, nicks))| <= CONTENT_LIMIT
    ensures Deliverable(ListMsg(server, dest, nicks))
  {
    hide Clean;
    EntriesClean(nicks);
    ListTextClean(Entries(nicks));
    VoidIsField();
    CleanNameIsField(dest);
  }

  ghost predicate GoodNames(nicks: map<string, string>) {
    forall n :: n in nicks ==> GoodName(n) && GoodName(nicks[n])
  }

  lemma EntriesClean(nicks: map<string, string>)
    requires GoodNames(nicks)
    ensures forall i :: 0 <= i < |Entries(nicks)| ==> CleanEntry(Entries(nicks)[i])
  {
    forall i | 0 <= i < |Entries(nicks)| ensures CleanEntry(Entries(nicks)[i]) {
      assert Keys(nicks.Keys)[i] in Keys(nicks.Keys);
    }
  }

  // ----- effects on every process

  /** After the add broadcast for src with this nickname. */
  function AfterAdd(c: ClientState, r: Registry, src: string, nick: string): ClientState {
    if c.name !in r.addr then c
    else if c.name == src then AddEntries(c, Entries(r.nicks))
    else AddEntries(c, [(nick, src)])
  }

  /** After the remove broadcast for gone. */
  function AfterRem(c: ClientState, r: Registry, gone: string): ClientState {
    if c.name in r.addr && c.name != gone then RemEntry(c, gone) else c
  }

  /** The maps hold names and nicknames that the formats can carry. */
  ghost predicate GoodRegistry(r: Registry) {
    GoodNames(r.nicks) && forall n :: n in r.addr ==> GoodName(n)
  }

  lemma AddEffect(net: Net, r: Registry, server: string, src: string, data: string)
    requires GoodServer(server) && GoodRegistry(r) && AtHome(net, r.addr)
    requires NicknameOf(data).Some? && GoodName(src) && GoodName(NicknameOf(data).value)
    requires |Wire(ListMsg(server, src, r.nicks))| <= CONTENT_LIMIT
    ensures DeliverAll(net, AddUpdates(r, server, src, data)) == map e | e in net ::
        AfterAdd(net[e], r, src, NicknameOf(data).value)
  {
    hide NicknameOf, AddressOf, Down, Wire, ListText, Entries, AddEntries, Keys;
    var nick := NicknameOf(data).value;
    var bodies := AddBodies(r, server, src, data);
    forall n | n in bodies ensures bodies[n].clientDest == n && Deliverable(bodies[n]) {
      if n == src { ListMsgSendable(server, src, r.nicks); } else { EntryMsgSendable(server, n, nick, src); }
    }
    BroadcastEffect(net, Keys(r.addr.Keys), r.addr, bodies);
    forall e | e in net ensures Told(net, Keys(r.addr.Keys), r.addr, bodies)[e] == AfterAdd(net[e], r, src, nick) {
      var c := net[e];
      if c.name in r.addr {
        assert c.name in Keys(r.addr.Keys);
        if c.name == src {
          EntriesClean(r.nicks);
          AddUnderstood(c, bodies[c.name], Entries(r.nicks));
        } else {
          assert CleanEntry([(nick, src)][0]);
          AddUnderstood(c, bodies[c.name], [(nick, src)]);
        }
      }
    }
  }

  lemma RemEffect(net: Net, r: Registry, server: string, gone: string)
    requires GoodServer(server) && GoodRegistry(r) && AtHome(net, r.addr) && GoodName(gone)
    ensures DeliverAll(net, RemUpdates(r, server, gone)) == map e | e in net :: AfterRem(net[e], r, gone)
  {
    hide AddressOf, Wire, RemEntry, Keys;
    var bodies := RemBodies(r, server, gone);
    forall n | n in bodies ensures bodies[n].clientDest == n && Deliverable(bodies[n]) {
      RemMsgSendable(server, n, gone);
    }
    BroadcastEffect(net, Keys(r.addr.Keys), r.addr, bodies);
    forall e | e in net ensures Told(net, Keys(r.addr.Keys), r.addr, bodies)[e] == AfterRem(net[e], r, gone) {
      var c := net[e];
      if c.name in r.addr && c.name != gone {
        assert c.name in Keys(r.addr.Keys);
        WireLength(bodies[c.name]);
      }
    }
  }
}
