/** Messages and their wire format: seven `-` separated fields and a `|`. */
module Messages {
  import opened CppString
  import opened Tokenizer

  /** `message_t`. */
  datatype MessageType =
    | NoType | AddClient | RemClient | SendMessage | UpdateAddClients
    | UpdateRemClients | SetClientList | PingClient | User | ErrorType

  /** `message_priority_t`. */
  datatype Priority = Low | Normal | High | Critical

  /** The value of a `Message` object. */
  datatype Msg = Msg(
    msgType: MessageType, clientSrc: string, clientDest: string,
    serverSrc: string, serverDest: string, data: string, priority: Priority)

  /** A default-constructed `Message`, which serves as pong and as ack. */
  const BLANK: Msg := Msg(NoType, VOID, VOID, VOID, VOID, VOID, Normal)

  const BUFFER_SIZE: nat := 4096

  /** A buffer that is full before `|` arrives loses its last character only;
      this is the longest message whose fields survive that. */
  const CONTENT_LIMIT: nat := 4114

  function DecodeType(t: MessageType): string {
    match t
    case AddClient => "MSG_ADD_CLIENT"
    case UpdateAddClients => "MSG_UPDATE_ADD_CLIENTS"
    case UpdateRemClients => "MSG_UPDATE_REM_CLIENTS"
    case RemClient => "MSG_REM_CLIENT"
    case SendMessage => "MSG_SEND_MESSAGE"
    case PingClient => "MSG_PING_CLIENT"
    case User => "MSG_USER"
    case ErrorType => "MSG_ERROR"
    case _ => "MSG_NONE"
  }

  function EncodeType(s: string): MessageType {
    if s == "MSG_ADD_CLIENT" then AddClient
    else if s == "MSG_UPDATE_ADD_CLIENTS" then UpdateAddClients
    else if s == "MSG_UPDATE_REM_CLIENTS" then UpdateRemClients
    else if s == "MSG_REM_CLIENT" then RemClient
    else if s == "MSG_USER" then User
    else if s == "MSG_SEND_MESSAGE" then SendMessage
    else if s == "MSG_PING_CLIENT" then PingClient
    else if s == "MSG_ERROR" then ErrorType
    else NoType
  }

  /** Priorities are not transmitted: one constant is. */
  function DecodePriority(p: Priority): string {
    "MSG_PRIORITY_NORMAL"
  }

  function EncodePriority(s: string): Priority {
    Normal
  }

  function Fields(m: Msg): seq<string> {
    [DecodeType(m.msgType), m.clientSrc, m.clientDest, m.serverSrc, m.serverDest, m.data, DecodePriority(m.priority)]
  }

  /** The transmitted characters. */
  function Wire(m: Msg): string {
    Join(Fields(m), '-') + "|"
  }

  /** `deserialize`; None where it would take a token from an empty list (or
      `substr` throws). */
  function Decode(text: string): Option<Msg> {
    match Tokens(text, '-')
    case None => None
    case Some(t) =>
      if |t| < 7 then None
      else Some(Msg(EncodeType(t[0]), t[1], t[2], t[3], t[4], t[5], EncodePriority(t[6])))
  }

  /** What one `Recv` takes from a byte stream. */
  datatype Frame = Incomplete | Framed(text: string, length: nat)

  function ReadFrame(stream: string): (f: Frame)
    ensures f.Framed? ==> |f.text| < BUFFER_SIZE
  {
    var p := Span(stream, '|');
    if p < BUFFER_SIZE && p < |stream| then Framed(CText(stream[..p]), p + 1)
    else if |stream| >= BUFFER_SIZE then Framed(CText(stream[..BUFFER_SIZE - 1]), BUFFER_SIZE)
    else Incomplete
  }

  /** The message at the head of a byte stream. */
  function Received(stream: string): (m: Option<Msg>)
    ensures m.Some? ==> |m.value.data| < BUFFER_SIZE
  {
    match ReadFrame(stream)
    case Incomplete => None
    case Framed(text, _) => TokensShort(text, '-'); Decode(text)
  }

  // ----- imperative form

  /** One direction of a TCP connection, as far as the reader sees it. */
  class Socket {
    var incoming: string
    var broken: bool  // recv reports an error rather than the end of the stream

    constructor (bytes: string)
      ensures incoming == bytes
    {
      incoming, broken := bytes, false;
    }

    /** `recv` of one byte: 1, 0 at the end, -1 on an error. */
    method RecvByte() returns (rd: int, c: char)
      modifies this
      ensures old(incoming) == "" ==> rd <= 0 && incoming == ""
      ensures old(incoming) != "" ==> rd == 1 && c == old(incoming)[0] && incoming == old(incoming)[1..]
    {
      if incoming == "" {
        return if broken then -1 else 0, NUL;
      }
      rd, c := 1, incoming[0];
      incoming := incoming[1..];
    }
  }

  /** Undefined: the program would read past the end of its token list or use a
      number as a pointer. */
  datatype Status = RetSuccess | RetError | Undefined

  class Message {
    var msgType: MessageType
    var clientSrc: string
    var clientDest: string
    var serverSrc: string
    var serverDest: string
    var data: string
    var priority: Priority

    constructor (m: Msg)
      ensures Value() == m
    {
      msgType, clientSrc, clientDest, serverSrc, serverDest, data, priority :=
        m.msgType, m.clientSrc, m.clientDest, m.serverSrc, m.serverDest, m.data, m.priority;
    }

    function Value(): Msg
      reads this
    {
      Msg(msgType, clientSrc, clientDest, serverSrc, serverDest, data, priority)
    }

    method CopyTo(to: Message)
      modifies to
      ensures to.Value() == old(Value())
    {
      to.msgType := msgType;
      to.clientSrc := clientSrc;
      to.clientDest := clientDest;
      to.serverSrc := serverSrc;
      to.serverDest := serverDest;
      to.data := data;
      to.priority := priority;
    }

    method Serialize() returns (serialized: string)
      ensures serialized == Wire(Value())
    {
      serialized := DecodeType(msgType);
      serialized := serialized + ("-" + clientSrc);
      serialized := serialized + ("-" + clientDest);
      serialized := serialized + ("-" + serverSrc);
      serialized := serialized + ("-" + serverDest);
      serialized := serialized + ("-" + data);
      serialized := serialized + ("-" + DecodePriority(priority));
      serialized := serialized + "|";
      JoinSeven(Fields(Value()), '-');
    }

    method Deserialize(s: string) returns (ret: Status)
      requires |s| < NPOS
      modifies this
      ensures Decode(s) == None ==> ret == Undefined && Value() == old(Value())
      ensures Decode(s).Some? ==> ret == RetSuccess && Value() == Decode(s).value
    {
      var tokens := Tokenize(s, '-');
      if tokens == None || |tokens.value| < 7 {
        return Undefined;
      }
      var t := tokens.value;
      msgType := EncodeType(t[0]);
      clientSrc := t[1];
      clientDest := t[2];
      serverSrc := t[3];
      serverDest := t[4];
      data := t[5];
      priority := EncodePriority(t[6]);
      return RetSuccess;
    }

    /** Reads one byte at a time until `|` or until the buffer is full, and
        overwrites the last byte read. */
    method Recv(skt: Socket) returns (ret: Status)
      modifies this, skt
      ensures match ReadFrame(old(skt.incoming))
        case Incomplete =>
          ret == RetError && skt.incoming == "" && Value() == old(Value())
        case Framed(text, length) =>
          && length <= |old(skt.incoming)| && skt.incoming == old(skt.incoming)[length..]
          && match Decode(text)
             case None => ret == Undefined && Value() == old(Value())
             case Some(m) => ret == RetSuccess && Value() == m
    {
      hide ReadFrame, Decode, CText, Span;
      ghost var stream := skt.incoming;
      var recvBuf := new char[BUFFER_SIZE](_ => NUL);
      var recvBytes := 0;
      var termination := false;
      while recvBytes < BUFFER_SIZE && !termination
        invariant recvBytes <= BUFFER_SIZE && recvBytes <= |stream|
        invariant skt.incoming == stream[recvBytes..]
        invariant recvBuf[..recvBytes] == stream[..recvBytes]
        invariant !termination ==> '|' !in stream[..recvBytes]
        invariant termination ==> recvBytes > 0 && Span(stream, '|') == recvBytes - 1
        invariant Value() == old(Value())
        decreases !termination, BUFFER_SIZE - recvBytes
      {
        var rd, c := skt.RecvByte();
        if rd <= 0 {
          assert stream[..recvBytes] == stream;
          EndsEarly(stream);
          return RetError;
        }
        recvBuf[recvBytes] := c;
        if recvBuf[recvBytes] == '|' {
          termination := true;
          BarAt(stream, recvBytes);
        }
        assert stream[..recvBytes + 1] == stream[..recvBytes] + [c];
        recvBytes := recvBytes + 1;
      }
      var received := CText(recvBuf[..recvBytes - 1]);
      assert recvBuf[..recvBytes - 1] == stream[..recvBytes - 1];
      FrameIs(stream, recvBytes, termination);
      ret := Deserialize(received);
    }
  }

  lemma BarAt(stream: string, n: nat)
    requires n < |stream| && stream[n] == '|' && '|' !in stream[..n]
    ensures Span(stream, '|') == n
  {
    assert forall i :: 0 <= i < n ==> stream[i] == stream[..n][i];
    SpanIs(stream, '|', n);
  }

  /** The stream ends before a frame does. */
  lemma EndsEarly(stream: string)
    requires '|' !in stream && |stream| < BUFFER_SIZE
    ensures ReadFrame(stream) == Incomplete
  {
  }

  /** The loop has ended at a bar or with a full buffer. */
  lemma FrameIs(stream: string, n: nat, termination: bool)
    requires 0 < n <= |stream| && n <= BUFFER_SIZE
    requires if termination then Span(stream, '|') == n - 1 else n == BUFFER_SIZE && '|' !in stream[..n]
    ensures ReadFrame(stream) == Framed(CText(stream[..n - 1]), n)
  {
    if !termination { SpanBeyond(stream, '|', n); }
  }

  lemma JoinSeven(f: seq<string>, sep: char)
    requires |f| == 7
    ensures Join(f, sep) ==
      f[0] + ([sep] + f[1]) + ([sep] + f[2]) + ([sep] + f[3]) + ([sep] + f[4]) + ([sep] + f[5]) + ([sep] + f[6])
  {
    JoinLast(f, sep);
    JoinLast(f[..6], sep);
    JoinLast(f[..5], sep);
    JoinLast(f[..4], sep);
    JoinLast(f[..3], sep);
    JoinLast(f[..2], sep);
    assert f[..6][..5] == f[..5] && f[..5][..4] == f[..4] && f[..4][..3] == f[..3] && f[..3][..2] == f[..2]
        && f[..2][..1] == f[..1];
  }

  lemma JoinLast(f: seq<string>, sep: char)
    requires |f| > 1
    ensures Join(f, sep) == Join(f[..|f| - 1], sep) + ([sep] + f[|f| - 1])
  {
    hide Join;
    var init, last := f[..|f| - 1], f[|f| - 1];
    assert f == init + [last];
    JoinAppend(init, [last], sep);
    JoinOne(last, sep);
    Assoc(Join(init, sep), [sep], last);
  }

  lemma JoinOne(t: string, sep: char)
    ensures Join([t], sep) == t
  {
  }
}
