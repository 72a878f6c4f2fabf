/** Every message of the protocol, field by field as it is written. */
module Transcript {
  import opened CppString
  import opened Messages
  import opened RosterText
  import opened Registries
  import opened Server
  import opened Client
  import opened Delivery
  import Decimal

  /** The format: type, source and destination client, source and destination
      server, data and priority. */
  lemma WireIs(m: Msg)
    ensures Wire(m) == DecodeType(m.msgType) + ("-" + m.clientSrc) + ("-" + m.clientDest) + ("-" + m.serverSrc)
      + ("-" + m.serverDest) + ("-" + m.data) + ("-" + "MSG_PRIORITY_NORMAL") + "|"
  {
    JoinSeven(Fields(m), '-');
  }

  /** The names of the types. */
  lemma TypeTexts()
    ensures DecodeType(AddClient) == "MSG_ADD_CLIENT" && DecodeType(RemClient) == "MSG_REM_CLIENT"
    ensures DecodeType(UpdateAddClients) == "MSG_UPDATE_ADD_CLIENTS"
    ensures DecodeType(UpdateRemClients) == "MSG_UPDATE_REM_CLIENTS"
    ensures DecodeType(SendMessage) == "MSG_SEND_MESSAGE" && DecodeType(PingClient) == "MSG_PING_CLIENT"
    ensures DecodeType(User) == "MSG_USER" && DecodeType(ErrorType) == "MSG_ERROR"
    ensures DecodeType(NoType) == "MSG_NONE" && DecodeType(SetClientList) == "MSG_NONE"
  {
  }

  /** A text that names no type is none. */
  lemma UnknownTypes(s: string)
    requires s !in {"MSG_ADD_CLIENT", "MSG_REM_CLIENT", "MSG_UPDATE_ADD_CLIENTS", "MSG_UPDATE_REM_CLIENTS",
                    "MSG_SEND_MESSAGE", "MSG_PING_CLIENT", "MSG_USER", "MSG_ERROR"}
    ensures EncodeType(s) == NoType
  {
  }

  // ----- from clients

  lemma RegistrationIs(c: ClientState)
    requires NUL !in c.nickname && NUL !in c.ip
    ensures Wire(ConnectRequest(c)) == "MSG_ADD_CLIENT" + ("-" + c.name) + ("-" + " ") + ("-" + " ") + ("-" + " ")
      + ("-" + (c.nickname + ":" + c.ip + ":" + Decimal.Print(c.port))) + ("-" + "MSG_PRIORITY_NORMAL") + "|"
  {
    WireIs(ConnectRequest(c));
  }

  lemma TextIs(c: ClientState, dest: string, text: string)
    requires dest in c.roster
    ensures TextRequest(c, dest, text).Some?
    ensures Wire(TextRequest(c, dest, text).value) ==
      "MSG_SEND_MESSAGE" + ("-" + c.name) + ("-" + c.roster[dest]) + ("-" + " ") + ("-" + c.server)
      + ("-" + (c.nickname + "@" + text)) + ("-" + "MSG_PRIORITY_NORMAL") + "|"
  {
    WireIs(TextRequest(c, dest, text).value);
  }

  /** Pongs and acknowledgements. */
  lemma BlankIs()
    ensures Wire(BLANK) == "MSG_NONE" + ("-" + " ") + ("-" + " ") + ("-" + " ") + ("-" + " ") + ("-" + " ")
      + ("-" + "MSG_PRIORITY_NORMAL") + "|"
  {
    WireIs(BLANK);
  }

  // ----- from the server

  lemma RegistrationReplyIs(server: string, m: Msg)
    ensures Wire(AddReply(server, m)) == "MSG_ADD_CLIENT" + ("-" + " ") + ("-" + m.clientSrc) + ("-" + server)
      + ("-" + " ") + ("-" + m.data) + ("-" + "MSG_PRIORITY_NORMAL") + "|"
  {
    WireIs(AddReply(server, m));
  }

  lemma ForwardedIs(a: ClientState, to: string, server: string, text: string)
    ensures Wire(Forwarded(a, to, server, text)) == "MSG_SEND_MESSAGE" + ("-" + a.name) + ("-" + to) + ("-" + server)
      + ("-" + " ") + ("-" + (a.nickname + "@" + text)) + ("-" + "MSG_PRIORITY_NORMAL") + "|"
  {
    WireIs(Forwarded(a, to, server, text));
  }

  lemma PingIs(server: string, dest: string)
    ensures Wire(PingMsg(server, dest)) == "MSG_PING_CLIENT" + ("-" + " ") + ("-" + dest) + ("-" + server)
      + ("-" + " ") + ("-" + " ") + ("-" + "MSG_PRIORITY_NORMAL") + "|"
  {
    WireIs(PingMsg(server, dest));
  }

  lemma RemovalIs(server: string, dest: string, gone: string)
    ensures Wire(RemMsg(server, dest, gone)) == "MSG_UPDATE_REM_CLIENTS" + ("-" + " ") + ("-" + dest) + ("-" + server)
      + ("-" + " ") + ("-" + gone) + ("-" + "MSG_PRIORITY_NORMAL") + "|"
  {
    WireIs(RemMsg(server, dest, gone));
  }

  lemma EntryIs(server: string, dest: string, nick: string, name: string)
    ensures Wire(EntryMsg(server, dest, nick, name)) ==
      "MSG_UPDATE_ADD_CLIENTS" + ("-" + " ") + ("-" + dest) + ("-" + server)
      + ("-" + " ") + ("-" + ("1:" + nick + ":" + name)) + ("-" + "MSG_PRIORITY_NORMAL") + "|"
  {
    OneEntry(nick, name);
    WireIs(EntryMsg(server, dest, nick, name));
  }

  lemma ListIs(server: string, dest: string, nicks: map<string, string>)
    ensures Wire(ListMsg(server, dest, nicks)) ==
      "MSG_UPDATE_ADD_CLIENTS" + ("-" + " ") + ("-" + dest) + ("-" + server)
      + ("-" + " ") + ("-" + ListText(Entries(nicks))) + ("-" + "MSG_PRIORITY_NORMAL") + "|"
  {
    hide Entries, ListText, Wire;
    WireIs(ListMsg(server, dest, nicks));
  }

  /** A list of entries, one after the other behind the count. */
  lemma ListTextIs(es: seq<Entry>, e: Entry)
    ensures ListText([]) == "0" && ListText([e]) == "1:" + e.0 + ":" + e.1
    ensures Body(es + [e]) == Body(es) + (":" + e.0 + ":" + e.1)
    ensures ListText(es) == Decimal.Print(|es|) + Body(es)
  {
    BodyAppend(es, e);
    OneEntry(e.0, e.1);
  }

  lemma ErrorIs(text: string)
    ensures Wire(ErrorMsg(text)) == "MSG_ERROR" + ("-" + " ") + ("-" + " ") + ("-" + " ") + ("-" + " ") + ("-" + text)
      + ("-" + "MSG_PRIORITY_NORMAL") + "|"
  {
    WireIs(ErrorMsg(text));
  }
}
