/**
 * The AT command layer of gsm.c: a singleton modem object whose transmit
 * buffer is overwritten by every command, whose 256-byte receive buffer holds
 * the last response as a NUL-terminated string, and whose identification
 * record is filled from the ATI reply.
 *
 * The serial port is an oracle: each command/response exchange is given as an
 * `Exchange` saying whether serial_write succeeded and what serial_read
 * returned (-1, or at most 255 bytes). The object records the calls it makes
 * on the link, in order, in `log`.
 */
module Gsm {
  import opened CText

  const GSM_TX_BUF_SIZE: nat := 256
  const GSM_RX_BUF_SIZE: nat := 256
  /** One less than the buffer size, leaving room for the terminator. */
  const GSM_RX_BUF_CAPACITY: nat := GSM_RX_BUF_SIZE - 1

  const CTRL_Z: char := 0x1A as char
  const GSM_MESSAGE_FORMAT_PDU_MODE: u32 := 0
  const GSM_MESSAGE_FORMAT_TEXT_MODE: u32 := 1
  const GSM_CHARSET_IRA: CString := "IRA"
  const GSM_CHARSET_GSM: CString := "GSM"
  const GSM_CHARSET_UCS2: CString := "UCS2"

  /** What serial_read can place in the buffer: at most GSM_RX_BUF_CAPACITY bytes. */
  type Chunk = s: seq<char> | |s| <= GSM_RX_BUF_CAPACITY

  /** One exchange on the link: did serial_write succeed, and what did serial_read return (None for -1). */
  datatype Exchange = Exchange(written: bool, reply: Option<Chunk>)

  /** The calls made on the serial link. */
  datatype LinkEvent = Wrote(data: seq<char>) | ReadReply | Flushed | Closed

  /** gsm.identification; every field starts as the empty string. */
  datatype Ident = Ident(
    manufacturer: seq<char>,
    model: seq<char>,
    revision: seq<char>,
    svn: seq<char>,
    imei: seq<char>,
    gcap: seq<char>)

  const EmptyIdent := Ident([], [], [], [], [], [])

  // ---------------------------------------------------------------------------
  // Commands

  const AT_COMMAND: CString := "AT\r"
  const ATI_COMMAND: CString := "ATI\r"

  /** `sprintf(tx_buf, "%s=%u\r", AT_CMGF, fmt)` */
  function MessageFormatCommand(fmt: u32): (c: CString)
    ensures |c| == 9 + |Decimal(fmt)| && c[..8] == "AT+CMGF=" && c[|c| - 1] == '\r'
  {
    "AT+CMGF=" + Decimal(fmt) + "\r"
  }

  /** `sprintf(tx_buf, "%s=\"%s\"\r", prefix, argument)`, the shape of AT+CSCS and AT+CMGS. */
  function QuotedCommand(prefix: CString, argument: CString): (c: CString)
    ensures |c| == |prefix| + |argument| + 4 && c[..|prefix|] == prefix && c[|c| - 1] == '\r'
  {
    prefix + "=\"" + argument + "\"\r"
  }

  function CharacterSetCommand(charset: CString): CString
  {
    QuotedCommand("AT+CSCS", charset)
  }

  function SendCommand(destination: CString): CString
  {
    QuotedCommand("AT+CMGS", destination)
  }

  /** The CMGF command carries the format in decimal: the number is recovered from the text between '=' and CR. */
  lemma MessageFormatCommandDecodes(fmt: u32)
    ensures var c := MessageFormatCommand(fmt);
      var digits := c[8..|c| - 1];
      (forall i :: 0 <= i < |digits| ==> '0' <= digits[i] <= '9') && DecimalValue(digits) == fmt
  {
    var c := MessageFormatCommand(fmt);
    assert c[8..|c| - 1] == Decimal(fmt);
    DecimalRoundTrip(fmt);
  }

  /** The quoted argument is recovered from between the quotes: distinct arguments give distinct commands. */
  lemma QuotedCommandDecodes(prefix: CString, argument: CString)
    ensures var c := QuotedCommand(prefix, argument);
      c[|prefix|..|prefix| + 2] == "=\"" && c[|prefix| + 2..|c| - 2] == argument && c[|c| - 2..] == "\"\r"
  {
    var c := QuotedCommand(prefix, argument);
    assert c == prefix + "=\"" + argument + "\"\r";
  }

  /**
   * The message body: the text of `message` followed by exactly one CTRL-Z,
   * written with an explicit count of strlen(message) + 1 bytes.
   */
  function MessageBody(message: CString): (body: seq<char>)
    ensures |body| == |message| + 1
    ensures body[..|message|] == message && body[|message|] == CTRL_Z
    ensures CTRL_Z !in message ==> forall i :: 0 <= i < |body| && body[i] == CTRL_Z ==> i == |message|
  {
    message + [CTRL_Z]
  }

  // ---------------------------------------------------------------------------
  // Responses

  /** `strstr(rx_buf, "OK") != NULL` */
  predicate RespondsOk(response: seq<char>)
  {
    Strstr(response, "OK").Some?
  }

  /** `strchr(rx_buf, '>') != NULL` */
  predicate HasPrompt(response: seq<char>)
  {
    '>' in response
  }

  /** `strstr(rx_buf, "+CMGS") != NULL` */
  predicate ReportsSent(response: seq<char>)
  {
    Strstr(response, "+CMGS").Some?
  }

  /** Both halves of an exchange succeeded. */
  predicate Completed(x: Exchange)
  {
    x.written && x.reply.Some?
  }

  /** The C string the buffer holds after a completed exchange: the reply up to its first NUL. */
  function Reply(x: Exchange): CString
    requires Completed(x)
  {
    CStr(x.reply.value)
  }

  /** The calls one command/response exchange makes: write, then read, flushing after either fails. */
  function ExchangeLog(data: seq<char>, x: Exchange): seq<LinkEvent>
  {
    [Wrote(data)] + if !x.written then [Flushed] else [ReadReply] + if x.reply.None? then [Flushed] else []
  }

  /** gsm_check_liveness: -1 on a serial error, 1 when the reply contains "OK", 0 otherwise. */
  function LivenessResult(x: Exchange): int
  {
    if !Completed(x) then -1 else if RespondsOk(Reply(x)) then 1 else 0
  }

  /** gsm_read_identification: -1 only on a serial error, 0 whatever the reply says. */
  function IdentificationResult(x: Exchange): int
  {
    if Completed(x) then 0 else -1
  }

  /** gsm_set_message_format and gsm_set_character_set: 0 exactly when the reply contains "OK". */
  function ConfigResult(x: Exchange): int
  {
    if Completed(x) && RespondsOk(Reply(x)) then 0 else -1
  }

  /** gsm_check_liveness answers 1 exactly when the reply holds "OK", and -1 exactly on a serial error. */
  lemma LivenessResultIff(x: Exchange)
    ensures LivenessResult(x) == 1 <==> Completed(x) && Contains(Reply(x), "OK")
    ensures LivenessResult(x) == 0 <==> Completed(x) && !Contains(Reply(x), "OK")
    ensures LivenessResult(x) == -1 <==> !Completed(x)
  {
    if Completed(x) {
      StrstrFindsIff(Reply(x), "OK");
    }
  }

  /** The configuration commands answer 0 exactly when the reply holds "OK", and -1 otherwise. */
  lemma ConfigResultIff(x: Exchange)
    ensures ConfigResult(x) == 0 <==> Completed(x) && Contains(Reply(x), "OK")
    ensures ConfigResult(x) == 0 || ConfigResult(x) == -1
  {
    if Completed(x) {
      StrstrFindsIff(Reply(x), "OK");
    }
  }

  // ---------------------------------------------------------------------------
  // Identification parsing

  /** The field a key's value is copied into, or none. */
  datatype Field = Manufacturer | Model | Revision | Svn | Imei | Gcap

  /**
   * The if/else chain as written: `strcmp(key, "Manufacturer") == 0` selects
   * the manufacturer; the later tests use strcmp's result as a truth value,
   * so every key other than "Model" selects `model`, and "Model" falls
   * through to `revision`.
   */
  function Route(key: seq<char>): (f: Option<Field>)
    ensures f.Some?
  {
    if key == "Manufacturer" then Some(Manufacturer)
    else if key != "Model" then Some(Model)
    else if key != "Revision" then Some(Revision)
    else if key != "SVN" then Some(Svn)
    else if key != "IMEI" then Some(Imei)
    else if key != "+GCAP" then Some(Gcap)
    else None
  }

  /** The chain with every strcmp compared with 0, as its comments describe. */
  function IntendedRoute(key: seq<char>): Option<Field>
  {
    if key == "Manufacturer" then Some(Manufacturer)
    else if key == "Model" then Some(Model)
    else if key == "Revision" then Some(Revision)
    else if key == "SVN" then Some(Svn)
    else if key == "IMEI" then Some(Imei)
    else if key == "+GCAP" then Some(Gcap)
    else None
  }

  /**
   * What the chain does: only "Manufacturer", "Model" and every other key
   * are told apart; "Model" lands in `revision`; svn, imei and gcap are
   * never selected; and it agrees with the intended chain on exactly one key.
   */
  lemma RouteAsWritten(key: seq<char>)
    ensures Route(key) == Some(Manufacturer) <==> key == "Manufacturer"
    ensures Route(key) == Some(Revision) <==> key == "Model"
    ensures Route(key) == Some(Model) <==> key != "Manufacturer" && key != "Model"
    ensures Route(key) == IntendedRoute(key) <==> key == "Manufacturer"
  {
    assert "Manufacturer" != "Model";
  }

  /** strcpy of a value into the selected field. */
  function Store(id: Ident, f: Option<Field>, value: seq<char>): Ident
  {
    match f
    case None => id
    case Some(Manufacturer) => id.(manufacturer := value)
    case Some(Model) => id.(model := value)
    case Some(Revision) => id.(revision := value)
    case Some(Svn) => id.(svn := value)
    case Some(Imei) => id.(imei := value)
    case Some(Gcap) => id.(gcap := value)
  }

  /**
   * The loop over the strtok position `saved`: a key up to ':', a value up to
   * CR, and the value stored from its second character; stop when either
   * token is missing.
   */
  function ParsePairs(saved: seq<char>, id: Ident): Ident
    decreases |saved|
  {
    match Strtok(saved, ":")
    case NoToken => id
    case Token(key, afterKey) =>
      match Strtok(afterKey, "\r")
      case NoToken => id
      case Token(value, afterValue) => ParsePairs(afterValue, Store(id, Route(key), value[1..]))
  }

  /** The whole parse of a response: its first token, up to ':' or LF, is discarded. */
  function ParseIdentification(response: seq<char>, id: Ident): Ident
  {
    match Strtok(response, ":\n")
    case NoToken => id
    case Token(_, saved) => ParsePairs(saved, id)
  }

  /** svn, imei and gcap keep whatever they held before the parse. */
  lemma {:induction false} ParsePairsKeepsUnreachableFields(saved: seq<char>, id: Ident)
    ensures var r := ParsePairs(saved, id); r.svn == id.svn && r.imei == id.imei && r.gcap == id.gcap
    decreases |saved|
  {
    match Strtok(saved, ":")
    case NoToken =>
    case Token(key, afterKey) =>
      match Strtok(afterKey, "\r")
      case NoToken =>
      case Token(value, afterValue) =>
        RouteAsWritten(key);
        ParsePairsKeepsUnreachableFields(afterValue, Store(id, Route(key), value[1..]));
  }

  lemma ParseKeepsUnreachableFields(response: seq<char>, id: Ident)
    ensures var r := ParseIdentification(response, id); r.svn == id.svn && r.imei == id.imei && r.gcap == id.gcap
  {
    match Strtok(response, ":\n")
    case NoToken =>
    case Token(_, saved) => ParsePairsKeepsUnreachableFields(saved, id);
  }

  lemma {:induction false} CSpanOfUpTo(t: seq<char>, d: char, rest: seq<char>, delims: seq<char>)
    requires forall c :: c in t ==> c !in delims
    requires d in delims
    ensures CSpanOf(t + [d] + rest, delims) == |t|
  {
    if t != [] {
      assert (t + [d] + rest)[1..] == t[1..] + [d] + rest;
      CSpanOfUpTo(t[1..], d, rest, delims);
    }
  }

  /** strtok on a token that starts at once and ends at a delimiter `d`. */
  lemma StrtokAt(t: seq<char>, d: char, rest: seq<char>, delims: seq<char>)
    requires t != [] && forall c :: c in t ==> c !in delims
    requires d in delims
    ensures Strtok(t + [d] + rest, delims) == Token(t, rest)
  {
    var s := t + [d] + rest;
    assert s[0] == t[0];
    assert SpanOf(s, delims) == 0;
    CSpanOfUpTo(t, d, rest, delims);
    assert s[..|t|] == t && s[|t| + 1..] == rest;
  }

  /**
   * One "key:value" line of the reply: the key runs to the colon, the value
   * to the carriage return, and the value without its first character is
   * stored where the key routes it before the rest is parsed.
   */
  lemma ParsePairsLine(key: seq<char>, value: seq<char>, rest: seq<char>, id: Ident)
    requires key != [] && ':' !in key
    requires value != [] && '\r' !in value
    ensures ParsePairs(key + ":" + value + "\r" + rest, id) ==
            ParsePairs(rest, Store(id, Route(key), value[1..]))
  {
    var tail := value + "\r" + rest;
    assert key + ":" + value + "\r" + rest == key + [':'] + tail;
    StrtokAt(key, ':', tail, ":");
    assert tail == value + ['\r'] + rest;
    StrtokAt(value, '\r', rest, "\r");
  }

  /**
   * A pair "<key>: <name>" as the chain files it: a key token that is
   * exactly "Manufacturer" fills `manufacturer`, one that is exactly "Model"
   * fills `revision`, and every other key, Revision, SVN, IMEI and +GCAP
   * included, overwrites `model`.
   */
  lemma KeyLineFills(key: seq<char>, name: seq<char>, rest: seq<char>, id: Ident)
    requires key != [] && ':' !in key && '\r' !in name
    ensures ParsePairs(key + ": " + name + "\r" + rest, id) ==
            ParsePairs(rest, if key == "Manufacturer" then id.(manufacturer := name)
                             else if key == "Model" then id.(revision := name)
                             else id.(model := name))
  {
    assert key + ": " + name + "\r" + rest == key + ":" + ([' '] + name) + "\r" + rest;
    ParsePairsLine(key, [' '] + name, rest, id);
    assert ([' '] + name)[1..] == name;
    RouteAsWritten(key);
  }

  /**
   * The value token stops at CR, and the key token does not stop at LF: in
   * a reply whose lines end in CR LF, every key after the first one starts
   * with the LF, so it is neither "Manufacturer" nor "Model" and its value
   * overwrites `model`.
   */
  lemma LaterLineFillsModel(key: seq<char>, name: seq<char>, rest: seq<char>, id: Ident)
    requires ':' !in key && '\r' !in name
    ensures ParsePairs("\n" + key + ": " + name + "\r" + rest, id) == ParsePairs(rest, id.(model := name))
  {
    var k := "\n" + key;
    assert k[0] == '\n';
    assert k != "Manufacturer" && k != "Model" by {
      assert "Manufacturer"[0] == 'M' && "Model"[0] == 'M';
    }
    KeyLineFills(k, name, rest, id);
  }

  /**
   * Two CR LF lines: the Model line after the Manufacturer line lands in
   * `model`, and `revision` is left as it was.
   */
  lemma CrLfReplyFillsModel(maker: seq<char>, name: seq<char>, rest: seq<char>, id: Ident)
    requires '\r' !in maker && '\r' !in name
    ensures ParsePairs("Manufacturer: " + maker + "\r\nModel: " + name + "\r" + rest, id) ==
            ParsePairs(rest, id.(manufacturer := maker, model := name))
  {
    var second := "\n" + "Model" + ": " + name + "\r" + rest;
    assert "Manufacturer: " + maker + "\r\nModel: " + name + "\r" + rest ==
           "Manufacturer" + ": " + maker + "\r" + second;
    KeyLineFills("Manufacturer", maker, second, id);
    LaterLineFillsModel("Model", name, rest, id.(manufacturer := maker));
  }

  /** The reply's first line, up to LF, is skipped: it is the echo of the command. */
  lemma ParseSkipsFirstLine(header: seq<char>, rest: seq<char>, id: Ident)
    requires header != [] && ':' !in header && '\n' !in header
    ensures ParseIdentification(header + "\n" + rest, id) == ParsePairs(rest, id)
  {
    StrtokAt(header, '\n', rest, ":\n");
  }

  /** The object state of gsm.c. */
  class Modem {
    var fd: int
    var tx: seq<char>          // the bytes last handed to serial_write from tx_buf
    const rx: array<char>
    var identification: Ident
    var log: seq<LinkEvent>

    ghost predicate Valid()
      reads this
    {
      rx.Length == GSM_RX_BUF_SIZE
    }

    /** The C string rx_buf holds. */
    function Response(): (s: CString)
      reads this, rx
    {
      CStr(rx[..])
    }

    /** The zero-initialised static gsm object. */
    constructor ()
      ensures Valid() && fresh(rx)
      ensures fd == 0 && tx == [] && identification == EmptyIdent && log == []
      ensures Response() == []
    {
      fd, tx, identification, log := 0, [], EmptyIdent, [];
      rx := new char[GSM_RX_BUF_SIZE](_ => NUL);
    }

    /**
     * serial_read into rx_buf followed by `rx_buf[nbytes] = '\0'`: at most
     * 255 bytes arrive, so the terminator always falls inside the buffer, and
     * the buffer then holds the reply up to its first NUL.
     */
    method Receive(chunk: Chunk)
      requires Valid()
      modifies rx
      ensures rx[..|chunk|] == chunk && rx[|chunk|] == NUL
      ensures forall i :: |chunk| < i < rx.Length ==> rx[i] == old(rx[i])
      ensures Response() == CStr(chunk)
    {
      forall i | 0 <= i < |chunk| {
        rx[i] := chunk[i];
      }
      rx[|chunk|] := NUL;
      CStrOfTerminated(rx[..], chunk);
    }

    /** Write `data`, read the response; flush and fail if either serial call returns -1. */
    method Transact(data: seq<char>, x: Exchange) returns (ok: bool)
      requires Valid()
      modifies this, rx
      ensures Valid() && fd == old(fd) && identification == old(identification)
      ensures tx == data
      ensures log == old(log) + ExchangeLog(data, x)
      ensures ok == Completed(x)
      ensures ok ==> Response() == Reply(x)
      ensures !ok ==> rx[..] == old(rx[..])
    {
      tx := data;
      log := log + [Wrote(tx)];
      if !x.written {
        log := log + [Flushed];
        return false;
      }
      log := log + [ReadReply];
      if x.reply.None? {
        log := log + [Flushed];
        return false;
      }
      Receive(x.reply.value);
      return true;
    }

    /** gsm_check_liveness: "AT\r", then look for "OK". */
    method CheckLiveness(x: Exchange) returns (rc: int)
      requires Valid()
      modifies this, rx
      ensures Valid() && fd == old(fd) && identification == old(identification)
      ensures tx == AT_COMMAND && log == old(log) + ExchangeLog(AT_COMMAND, x)
      ensures rc == LivenessResult(x)
    {
      var ok := Transact(AT_COMMAND, x);
      if !ok {
        return -1;
      }
      rc := if Strstr(Response(), "OK").Some? then 1 else 0;
    }

    /**
     * gsm_read_identification: "ATI\r", then the strtok loop over the reply,
     * storing each value into the field its key selects.
     */
    method ReadIdentification(x: Exchange) returns (rc: int)
      requires Valid()
      modifies this, rx
      ensures Valid() && fd == old(fd)
      ensures tx == ATI_COMMAND && log == old(log) + ExchangeLog(ATI_COMMAND, x)
      ensures rc == IdentificationResult(x)
      ensures identification == if Completed(x) then ParseIdentification(Reply(x), old(identification))
                                else old(identification)
    {
      var ok := Transact(ATI_COMMAND, x);
      if !ok {
        return -1;
      }
      var first := Strtok(Response(), ":\n");
      if first.Token? {
        StorePairs(first.rest);
      }
      return 0;
    }

    /** The key/value loop of gsm_read_identification, from the saved strtok position. */
    method StorePairs(start: seq<char>)
      modifies this
      ensures identification == ParsePairs(start, old(identification))
      ensures fd == old(fd) && tx == old(tx) && log == old(log)
    {
      var saved := start;
      while true
        invariant ParsePairs(saved, identification) == ParsePairs(start, old(identification))
        invariant fd == old(fd) && tx == old(tx) && log == old(log)
        decreases |saved|
      {
        var key := Strtok(saved, ":");
        if key.NoToken? {
          return;
        }
        var value := Strtok(key.rest, "\r");
        if value.NoToken? {
          return;
        }
        identification := Store(identification, Route(key.token), value.token[1..]);
        saved := value.rest;
      }
    }

    /** gsm_set_message_format: "AT+CMGF=<fmt>\r", then look for "OK". */
    method SetMessageFormat(fmt: u32, x: Exchange) returns (rc: int)
      requires Valid()
      modifies this, rx
      ensures Valid() && fd == old(fd) && identification == old(identification)
      ensures tx == MessageFormatCommand(fmt) && log == old(log) + ExchangeLog(MessageFormatCommand(fmt), x)
      ensures rc == ConfigResult(x)
    {
      var ok := Transact(MessageFormatCommand(fmt), x);
      if !ok {
        return -1;
      }
      rc := if Strstr(Response(), "OK").Some? then 0 else -1;
    }

    /** gsm_set_character_set: "AT+CSCS=\"<charset>\"\r", then look for "OK". */
    method SetCharacterSet(charset: CString, x: Exchange) returns (rc: int)
      requires Valid()
      modifies this, rx
      ensures Valid() && fd == old(fd) && identification == old(identification)
      ensures tx == CharacterSetCommand(charset) && log == old(log) + ExchangeLog(CharacterSetCommand(charset), x)
      ensures rc == ConfigResult(x)
    {
      var ok := Transact(CharacterSetCommand(charset), x);
      if !ok {
        return -1;
      }
      rc := if Strstr(Response(), "OK").Some? then 0 else -1;
    }

    /**
     * gsm_init: open the port, then liveness, identification, text mode and
     * the GSM character set; the first failing step closes the port. The
     * liveness test is `!gsm_check_liveness()`, so only a 0 fails it.
     */
    method Init(openResult: int, live: Exchange, ati: Exchange, cmgf: Exchange, cscs: Exchange) returns (rc: int)
      requires Valid()
      modifies this, rx
      ensures Valid() && fd == openResult
      ensures rc == InitResult(openResult, live, ati, cmgf, cscs)
      ensures log == old(log) + InitLog(openResult, live, ati, cmgf, cscs)
      ensures tx == if openResult == -1 then old(tx)
                    else if LivenessResult(live) == 0 then AT_COMMAND
                    else if IdentificationResult(ati) == -1 then ATI_COMMAND
                    else if ConfigResult(cmgf) == -1 then MessageFormatCommand(GSM_MESSAGE_FORMAT_TEXT_MODE)
                    else CharacterSetCommand(GSM_CHARSET_GSM)
      ensures identification ==
                if openResult != -1 && LivenessResult(live) != 0 && Completed(ati)
                then ParseIdentification(Reply(ati), old(identification))
                else old(identification)
    {
      fd := openResult;
      if fd == -1 {
        return -1;
      }
      ghost var t0 := log;
      ghost var cm, cs := MessageFormatCommand(GSM_MESSAGE_FORMAT_TEXT_MODE), CharacterSetCommand(GSM_CHARSET_GSM);
      ghost var after3 := InitStep(cs, cscs, ConfigResult(cscs) == -1, []);
      ghost var after2 := InitStep(cm, cmgf, ConfigResult(cmgf) == -1, after3);
      ghost var after1 := InitStep(ATI_COMMAND, ati, IdentificationResult(ati) == -1, after2);
      assert InitLog(openResult, live, ati, cmgf, cscs) == InitStep(AT_COMMAND, live, LivenessResult(live) == 0, after1);

      var alive := CheckLiveness(live);
      ghost var t1 := log;
      if alive == 0 {
        log := log + [Closed];
        AppendAssoc(t0, ExchangeLog(AT_COMMAND, live), [Closed]);
        return -1;
      }
      AppendAssoc(t0, ExchangeLog(AT_COMMAND, live), after1);

      var identified := ReadIdentification(ati);
      ghost var t2 := log;
      AppendAssoc(t1, ExchangeLog(ATI_COMMAND, ati), if identified == -1 then [Closed] else after2);
      if identified == -1 {
        log := log + [Closed];
        return -1;
      }

      var textMode := SetMessageFormat(GSM_MESSAGE_FORMAT_TEXT_MODE, cmgf);
      AppendAssoc(t2, ExchangeLog(cm, cmgf), if textMode == -1 then [Closed] else after3);
      ghost var t3 := log;
      if textMode == -1 {
        log := log + [Closed];
        return -1;
      }

      var charset := SetCharacterSet(GSM_CHARSET_GSM, cscs);
      AppendAssoc(t3, ExchangeLog(cs, cscs), if charset == -1 then [Closed] else []);
      if charset == -1 {
        log := log + [Closed];
        return -1;
      }
      return 0;
    }

    /**
     * gsm_send_message: "AT+CMGS=\"<destination>\"\r"; without a '>' prompt
     * in the reply, flush and fail before the body is sent; otherwise send
     * the CTRL-Z-terminated body and succeed when the reply has "+CMGS".
     */
    method SendMessage(destination: CString, message: CString, prompt: Exchange, report: Exchange) returns (rc: int)
      requires Valid()
      modifies this, rx
      ensures Valid() && fd == old(fd) && identification == old(identification)
      ensures rc == SendResult(prompt, report)
      ensures log == old(log) + SendLog(destination, message, prompt, report)
      ensures tx == if Completed(prompt) && HasPrompt(Reply(prompt)) then MessageBody(message) else SendCommand(destination)
    {
      var ok := Transact(SendCommand(destination), prompt);
      if !ok {
        return -1;
      }
      if '>' !in Response() {
        log := log + [Flushed];
        return -1;
      }
      ok := Transact(MessageBody(message), report);
      if !ok {
        return -1;
      }
      rc := if Strstr(Response(), "+CMGS").Some? then 0 else -1;
    }
  }

  /** The return value of gsm_init. */
  function InitResult(openResult: int, live: Exchange, ati: Exchange, cmgf: Exchange, cscs: Exchange): int
  {
    if openResult == -1 || LivenessResult(live) == 0 || IdentificationResult(ati) == -1
       || ConfigResult(cmgf) == -1 || ConfigResult(cscs) == -1
    then -1
    else 0
  }

  /** One step of gsm_init: its exchange, then a close when the step failed, else what follows. */
  function InitStep(data: seq<char>, x: Exchange, failed: bool, rest: seq<LinkEvent>): seq<LinkEvent>
  {
    ExchangeLog(data, x) + if failed then [Closed] else rest
  }

  /** The link calls of gsm_init, stopping with a close at the first failing step. */
  function InitLog(openResult: int, live: Exchange, ati: Exchange, cmgf: Exchange, cscs: Exchange): seq<LinkEvent>
  {
    if openResult == -1 then []
    else
      InitStep(AT_COMMAND, live, LivenessResult(live) == 0,
        InitStep(ATI_COMMAND, ati, IdentificationResult(ati) == -1,
          InitStep(MessageFormatCommand(GSM_MESSAGE_FORMAT_TEXT_MODE), cmgf, ConfigResult(cmgf) == -1,
            InitStep(CharacterSetCommand(GSM_CHARSET_GSM), cscs, ConfigResult(cscs) == -1, []))))
  }

  /**
   * gsm_init succeeds exactly when the port opens, the liveness check does
   * not return 0, and identification, text mode and the character set all
   * succeed; a liveness exchange lost to a serial error passes, and a failed
   * init is the only one that closes the port.
   */
  lemma InitResultIff(openResult: int, live: Exchange, ati: Exchange, cmgf: Exchange, cscs: Exchange)
    ensures InitResult(openResult, live, ati, cmgf, cscs) == 0 <==>
              && openResult != -1
              && (!Completed(live) || Contains(Reply(live), "OK"))
              && Completed(ati)
              && Completed(cmgf) && Contains(Reply(cmgf), "OK")
              && Completed(cscs) && Contains(Reply(cscs), "OK")
    ensures Closed in InitLog(openResult, live, ati, cmgf, cscs) <==>
              openResult != -1 && InitResult(openResult, live, ati, cmgf, cscs) == -1
  {
    LivenessResultIff(live);
    ConfigResultIff(cmgf);
    ConfigResultIff(cscs);
    var l := InitLog(openResult, live, ati, cmgf, cscs);
    if openResult != -1 && InitResult(openResult, live, ati, cmgf, cscs) == 0 {
      ExchangeLogHasNoClose(AT_COMMAND, live);
      ExchangeLogHasNoClose(ATI_COMMAND, ati);
      ExchangeLogHasNoClose(MessageFormatCommand(GSM_MESSAGE_FORMAT_TEXT_MODE), cmgf);
      ExchangeLogHasNoClose(CharacterSetCommand(GSM_CHARSET_GSM), cscs);
      assert l == ExchangeLog(AT_COMMAND, live) + (ExchangeLog(ATI_COMMAND, ati) +
        (ExchangeLog(MessageFormatCommand(GSM_MESSAGE_FORMAT_TEXT_MODE), cmgf) +
        (ExchangeLog(CharacterSetCommand(GSM_CHARSET_GSM), cscs) + [])));
    }
  }

  lemma ExchangeLogHasNoClose(data: seq<char>, x: Exchange)
    ensures Closed !in ExchangeLog(data, x)
  {
  }

  /** The return value of gsm_send_message. */
  function SendResult(prompt: Exchange, report: Exchange): int
  {
    if !Completed(prompt) || !HasPrompt(Reply(prompt)) then -1
    else if Completed(report) && ReportsSent(Reply(report)) then 0
    else -1
  }

  /** The link calls of gsm_send_message. */
  function SendLog(destination: CString, message: CString, prompt: Exchange, report: Exchange): seq<LinkEvent>
  {
    ExchangeLog(SendCommand(destination), prompt) +
    if !Completed(prompt) then []
    else if !HasPrompt(Reply(prompt)) then [Flushed]
    else ExchangeLog(MessageBody(message), report)
  }

  /**
   * Sending succeeds exactly when the prompt reply holds '>' and the report
   * holds "+CMGS"; without the prompt the body is never written, and with it
   * the body is written once, right after the command's reply was read.
   */
  lemma SendMessageIff(destination: CString, message: CString, prompt: Exchange, report: Exchange)
    ensures SendResult(prompt, report) == 0 <==>
              Completed(prompt) && '>' in Reply(prompt) && Completed(report) && Contains(Reply(report), "+CMGS")
    ensures Wrote(MessageBody(message)) in SendLog(destination, message, prompt, report) <==>
              Completed(prompt) && '>' in Reply(prompt)
    ensures Completed(prompt) && '>' in Reply(prompt) ==>
              SendLog(destination, message, prompt, report)[..3] ==
                [Wrote(SendCommand(destination)), ReadReply, Wrote(MessageBody(message))]
  {
    if Completed(report) {
      StrstrFindsIff(Reply(report), "+CMGS");
    }
    var c, b := SendCommand(destination), MessageBody(message);
    assert c[|c| - 1] == '\r' && b[|b| - 1] == CTRL_Z;
    assert c != b;
  }
}
