/** The `nick:ip:port` record a client registers with, and the parsers of
    `Node` that take it apart. */
module NodeData {
  import opened CppString
  import opened Tokenizer
  import Decimal

  /** Malformed: the parser would take a token from an empty list (or `substr`
      throws). Rejected: the parser returns false. */
  datatype AddressResult = Malformed | Rejected | Address(ip: string, port: nat)

  /** What `sprintf("%s:%s:%d", ...)` leaves in the client's buffer. */
  function Record(nick: string, ip: string, port: nat): string {
    CText(nick) + ":" + CText(ip) + ":" + Decimal.Print(port)
  }

  function NicknameOf(nodeData: string): Option<string> {
    match Tokens(nodeData, ':')
    case None => None
    case Some(t) => Some(if t == [] then "" else t[0])
  }

  function AddressOf(nodeData: string): (a: AddressResult)
    ensures a.Address? ==> NicknameOf(nodeData).Some?
  {
    match Tokens(nodeData, ':')
    case None => Malformed
    case Some(t) =>
      if t == [] then Rejected
      else if |t| < 3 then Malformed
      else Address(t[1], Decimal.Unsigned(Decimal.Atoi(t[2])))
  }

  method ParseNickname(nodeData: string) returns (nickname: Option<string>)
    requires |nodeData| < NPOS
    ensures nickname == NicknameOf(nodeData)
  {
    nickname := Some("");
    var tokens := Tokenize(nodeData, ':');
    if tokens == None {
      return None;
    }
    if |tokens.value| > 0 {
      nickname := Some(tokens.value[0]);
    }
  }

  method ParseAddress(nodeAddress: string) returns (address: AddressResult)
    requires |nodeAddress| < NPOS
    ensures address == AddressOf(nodeAddress)
  {
    var t := Tokenize(nodeAddress, ':');
    if t == None {
      return Malformed;
    }
    var tokens := t.value;
    if |tokens| == 0 {
      return Rejected;
    }
    tokens := tokens[1..];  // discard nickname
    if |tokens| < 2 {
      return Malformed;
    }
    var ip := tokens[0];
    tokens := tokens[1..];
    return Address(ip, Decimal.Unsigned(Decimal.Atoi(tokens[0])));
  }

  method ParseNicknameAndAddress(nodeAddress: string) returns (nick: string, address: AddressResult)
    requires |nodeAddress| < NPOS
    ensures address == AddressOf(nodeAddress)
    ensures address.Address? ==> NicknameOf(nodeAddress) == Some(nick)
  {
    nick := "";
    var t := Tokenize(nodeAddress, ':');
    if t == None {
      return nick, Malformed;
    }
    var tokens := t.value;
    if |tokens| == 0 {
      return nick, Rejected;
    }
    nick := tokens[0];
    tokens := tokens[1..];
    if |tokens| < 2 {
      return nick, Malformed;
    }
    var ip := tokens[0];
    tokens := tokens[1..];
    return nick, Address(ip, Decimal.Unsigned(Decimal.Atoi(tokens[0])));
  }

  predicate RecordSafe(s: string) {
    Clean(s, [':', NUL])
  }

  lemma RecordSafeIs(s: string)
    ensures RecordSafe(s) <==> s != "" && ':' !in s && NUL !in s
  {
    assert [':', NUL][0] == ':' && [':', NUL][1] == NUL;
  }

  lemma RecordTokens(nick: string, ip: string, port: nat)
    requires RecordSafe(nick) && RecordSafe(ip)
    ensures Tokens(Record(nick, ip, port), ':') == Some([nick, ip, Decimal.Print(port)])
  {
    RecordSafeIs(nick);
    RecordSafeIs(ip);
    var last := Decimal.Print(port);
    var parts := [nick, ip, last];
    assert IsToken(last, ':');
    assert parts[1..] == [ip, last] && parts[1..][1..] == [last];
    assert Join([last], ':') == last && Join([ip, last], ':') == ip + ":" + last;
    assert Join(parts, ':') == nick + ":" + (ip + ":" + last);
    assert nick + ":" + (ip + ":" + last) == nick + ":" + ip + ":" + last;
    TokensOfJoin(parts, ':');
  }

  /** The parsers recover nickname, ip and port exactly when nickname and ip
      are non-empty and without `:` and NUL. */
  lemma RecordRoundTrip(nick: string, ip: string, port: nat)
    requires port < 0x1_0000
    ensures (NicknameOf(Record(nick, ip, port)) == Some(nick) && AddressOf(Record(nick, ip, port)) == Address(ip, port))
      <==> RecordSafe(nick) && RecordSafe(ip)
  {
    if RecordSafe(nick) && RecordSafe(ip) {
      RecordTokens(nick, ip, port);
      Decimal.AtoiPrint(port);
    }
    if NicknameOf(Record(nick, ip, port)) == Some(nick) && AddressOf(Record(nick, ip, port)) == Address(ip, port) {
      ParsedIsSafe(nick, ip, port);
    }
  }

  lemma ParsedIsSafe(nick: string, ip: string, port: nat)
    requires NicknameOf(Record(nick, ip, port)) == Some(nick)
    requires AddressOf(Record(nick, ip, port)).Address? && AddressOf(Record(nick, ip, port)).ip == ip
    ensures RecordSafe(nick) && RecordSafe(ip)
  {
    var r := Record(nick, ip, port);
    var ts := Tokens(r, ':').value;
    RunsChars(r, ':', NUL);
    LeadingSeparator(nick, ip, port);
    assert IsToken(ts[0], ':') && IsToken(ts[1], ':');
    RecordSafeIs(nick);
    RecordSafeIs(ip);
  }

  /** A record that starts with `:` does not give its nickname back. */
  lemma LeadingSeparator(nick: string, ip: string, port: nat)
    requires NicknameOf(Record(nick, ip, port)) == Some(nick)
    ensures Record(nick, ip, port)[0] != ':'
  {
    var r := Record(nick, ip, port);
    var k := Lead(r, ':');
    assert NUL !in r && (k < |r| ==> r[k] in r);
    assert r[0] == (if nick == "" || nick[0] == NUL then ':' else nick[0]);
  }

  /** Records with too little in them. */
  lemma ParserEdges()
    ensures NicknameOf("") == Some("") && AddressOf("") == Rejected
    ensures NicknameOf(":") == None && AddressOf(":") == Malformed
    ensures NicknameOf("a") == Some("a") && AddressOf("a") == Malformed
  {
    LeadIs(":", ':', 1);
    RunsOfToken("a", ':');
  }

  /** Whatever follows the port is ignored. */
  lemma SpareTokens(nick: string, ip: string, port: string, spare: string)
    requires IsToken(nick, ':') && IsToken(ip, ':') && IsToken(port, ':') && IsToken(spare, ':')
    ensures var data := nick + [':'] + (ip + [':'] + (port + [':'] + spare));
      NicknameOf(data) == Some(nick) && AddressOf(data) == Address(ip, Decimal.Unsigned(Decimal.Atoi(port)))
  {
    var ts := [nick, ip, port, spare];
    TokensOfJoin(ts, ':');
    assert ts[1..] == [ip, port, spare];
    assert [ip, port, spare][1..] == [port, spare];
    assert [port, spare][1..] == [spare];
    assert Join([spare], ':') == spare;
    assert Join([port, spare], ':') == port + [':'] + spare;
    assert Join([ip, port, spare], ':') == ip + [':'] + (port + [':'] + spare);
  }
}
