/**
 `HttpResponse` and `generate_http_response` of src/utils/http-helper.h, and the replies
 that src/http-session.cpp builds from them.

 The partner is a reader that finds the end of a message body by the rules of section 6.3
 of RFC 9112. It decides when what the printer writes gives the body back.
 */
module HttpResponses {
  import opened Text
  import opened HttpRequests

  datatype HttpResponse = HttpResponse(status: int, reason: string, headers: Headers, body: string)

  // ---------------------------------------------------------------- The printer

  const CONTENT_LENGTH := "Content-Length"
  const TRANSFER_ENCODING := "Transfer-Encoding"

  /** The field lines that are written: the header map, and the length when it is not in it. */
  ghost function WrittenFields(r: HttpResponse): seq<Field> {
    FieldsOf(r.headers)
    + (if CONTENT_LENGTH in r.headers then [] else [(CONTENT_LENGTH, Decimal(|r.body|))])
  }

  function StatusLine(r: HttpResponse): string {
    "HTTP/1.1 " + Decimal(r.status) + " " + r.reason
  }

  ghost function PrintedResponse(r: HttpResponse): string {
    StatusLine(r) + CRLF + (PrintFields(WrittenFields(r)) + CRLF + r.body)
  }

  method ResponseToString(r: HttpResponse) returns (s: string)
    ensures s == PrintedResponse(r)
  {
    var fields := PrintHeaders(r.headers);
    s := "HTTP/1.1 " + Decimal(r.status) + " " + r.reason + CRLF;
    var head := s;
    if CONTENT_LENGTH !in r.headers {
      var length := (CONTENT_LENGTH, Decimal(|r.body|));
      PrintedInOrder(FieldsOf(r.headers), [length]);
      PrintFieldsCons(length, []);
      fields := fields + (CONTENT_LENGTH + ": " + Decimal(|r.body|) + CRLF);
    } else {
      assert FieldsOf(r.headers) + [] == FieldsOf(r.headers);
    }
    s := s + fields;
    s := s + CRLF;
    s := s + r.body;
    assert s == head + (fields + CRLF + r.body);
  }

  // ---------------------------------------------------------------- The responses that are built

  datatype Code =
    | OK | Created | NoContent | BadRequest | Unauthorized | Forbidden | NotFound
    | RequestTimeout | TooManyRequests | BadGateway

  function CodeNumber(c: Code): int {
    match c
    case OK => 200
    case Created => 201
    case NoContent => 204
    case BadRequest => 400
    case Unauthorized => 401
    case Forbidden => 403
    case NotFound => 404
    case RequestTimeout => 408
    case TooManyRequests => 429
    case BadGateway => 502
  }

  datatype ContentType = TextPlain | ApplicationJson
  datatype Connection = Close | KeepAlive

  function TypeName(t: ContentType): string {
    if t.ApplicationJson? then "application/json" else "text/plain"
  }

  /** The header map of a generated response. */
  function GeneratedHeaders(body: string, contentType: ContentType, connection: Connection): Headers {
    var typed := if body != "" then map["Content-Type" := TypeName(contentType)] else map[];
    var sized := typed[CONTENT_LENGTH := Decimal(|body|)];
    if connection.Close? then sized["Connection" := "close"] else sized
  }

  function Generated(code: Code, reason: string, body: string,
                     contentType: ContentType, connection: Connection): HttpResponse {
    HttpResponse(CodeNumber(code), reason, GeneratedHeaders(body, contentType, connection), body)
  }

  method GenerateHttpResponse(code: Code, reason: string, body: string,
                              contentType: ContentType, connection: Connection)
    returns (response: HttpResponse)
    ensures response == Generated(code, reason, body, contentType, connection)
  {
    response := HttpResponse(200, "OK", map[], "");
    response := response.(status := CodeNumber(code), reason := reason);
    if body != "" {
      response := response.(body := body);
      response := response.(headers := response.headers["Content-Type" := TypeName(contentType)]);
      response := response.(headers := response.headers[CONTENT_LENGTH := Decimal(|body|)]);
    } else {
      response := response.(body := "");
      response := response.(headers := response.headers[CONTENT_LENGTH := "0"]);
      assert Decimal(0) == "0";
    }
    if connection.Close? {
      response := response.(headers := response.headers["Connection" := "close"]);
    }
  }

  // ---------------------------------------------------------------- A reader of messages

  datatype Framing =
    | Framed(body: string, extra: string)  // the body, and what follows the message
    | UntilClose(rest: string)             // the length is told by the end of the connection
    | Tunnel(rest: string)                 // the connection is no longer one of messages
    | TransferCoded                        // not a matter of lengths
    | Incomplete
    | Malformed

  predicate Named(line: string, name: string) {
    Find(line, ':') < |line| && SameName(line[..Find(line, ':')], name)
  }

  function TrimRight(s: string): string {
    if s != "" && IsBlank(s[|s| - 1]) then TrimRight(s[..|s| - 1]) else s
  }

  function FieldValue(line: string): string
    requires Find(line, ':') < |line|
  {
    TrimRight(TrimBlanks(line[Find(line, ':') + 1..]))
  }

  /** The values of the lines with a given field name. */
  function Values(lines: seq<string>, name: string): seq<string> {
    if lines == [] then []
    else (if Named(lines[0], name) then [FieldValue(lines[0])] else []) + Values(lines[1..], name)
  }

  datatype Section = Unfinished | Section(lines: seq<string>, rest: string)

  /** The lines up to the first empty one, and what follows it. */
  function ReadSection(s: string): Section
    decreases |s|
  {
    if Find(s, LF) == |s| then Unfinished
    else
      var line, rest := StripCr(Before(s, LF)), After(s, LF);
      if line == "" then Section([], rest)
      else
        match ReadSection(rest)
        case Unfinished => Unfinished
        case Section(lines, body) => Section([line] + lines, body)
  }

  /** The three digits behind the version of a status line. */
  function StatusDigits(line: string): string {
    Before(After(line, ' '), ' ')
  }

  /** Responses that have no body whatever their fields say: rule 1 of section 6.3. */
  predicate Bodyless(asked: string, status: int) {
    asked == "HEAD" || 100 <= status <= 199 || status == 204 || status == 304
  }

  /** Responses after which there are no more messages: rule 2. */
  predicate OpensTunnel(asked: string, status: int) {
    asked == "CONNECT" && 200 <= status <= 299
  }

  function ReadLength(lengths: seq<string>, rest: string): Framing {
    if lengths == [] then UntilClose(rest)
    else if !IsNumber(lengths[0]) || exists v :: v in lengths && v != lengths[0] then Malformed
    else
      var n := ParseDecimal(lengths[0]);
      if n <= |rest| then Framed(rest[..n], rest[n..]) else Incomplete
  }

  /** The body of a response to a request with the method `asked`, by section 6.3 of RFC 9112. */
  function ReadBody(asked: string, s: string): Framing {
    if Find(s, LF) == |s| then Incomplete
    else
      var digits := StatusDigits(StripCr(Before(s, LF)));
      if !IsNumber(digits) || |digits| != 3 then Malformed
      else
        match ReadSection(After(s, LF))
        case Unfinished => Incomplete
        case Section(lines, rest) =>
          if Bodyless(asked, ParseDecimal(digits)) then Framed("", rest)
          else if OpensTunnel(asked, ParseDecimal(digits)) then Tunnel(rest)
          else if Values(lines, TRANSFER_ENCODING) != [] then TransferCoded
          else ReadLength(Values(lines, CONTENT_LENGTH), rest)
  }

  // ---------------------------------------------------------------- What the reader sees

  /** A reader sees `name` when the key, up to its first colon, is that name. */
  predicate SeenAs(key: string, name: string) {
    && |name| <= |key| && SameName(key[..|name|], name)
    && (|key| == |name| || key[|name|] == ':')
  }

  predicate OneLine(f: Field) {
    LF !in f.0 && LF !in f.1
  }

  predicate OneLineHeaders(headers: Headers) {
    forall k :: k in headers ==> OneLine((k, headers[k]))
  }

  function LinesOf(fs: seq<Field>): seq<string> {
    if fs == [] then [] else [FieldLine(fs[0])] + LinesOf(fs[1..])
  }

  lemma {:induction false} SectionRoundTrip(fs: seq<Field>, body: string)
    requires forall f :: f in fs ==> OneLine(f)
    ensures ReadSection(PrintFields(fs) + CRLF + body) == Section(LinesOf(fs), body)
    decreases |fs|
  {
    if fs == [] {
      assert PrintFields(fs) + CRLF + body == "" + CRLF + body;
      ReadLine("", body);
    } else {
      var line, rest := FieldLine(fs[0]), PrintFields(fs[1..]) + CRLF + body;
      assert OneLine(fs[0]) by { assert fs[0] in fs; }
      assert PrintFields(fs) + CRLF + body == line + CRLF + rest;
      ReadLine(line, rest);
      SectionRoundTrip(fs[1..], body);
    }
  }

  /** The colon the printer writes, or an earlier one in the key, ends the name. */
  lemma FindColon(key: string, value: string)
    ensures Find(FieldLine((key, value)), ':') == Find(key, ':') < |FieldLine((key, value))|
  {
    var line, i := FieldLine((key, value)), Find(key, ':');
    assert line[..i] == key[..i];
    FindIs(line, ':', i);
  }

  lemma NamedAsSeen(f: Field, name: string)
    requires ':' !in name
    ensures Named(FieldLine(f), name) <==> SeenAs(f.0, name)
  {
    FindColon(f.0, f.1);
    var n := Find(f.0, ':');
    assert FieldLine(f)[..n] == f.0[..n];
    if SeenAs(f.0, name) {
      forall i | 0 <= i < |name|
        ensures f.0[i] != ':'
      {
        assert LowerCase(f.0[..|name|][i]) == LowerCase(name[i]) && name[i] in name;
      }
      FindIs(f.0, ':', |name|);
    }
  }

  /** The value a reader takes from a field; behind a colon in the key, the rest of the key belongs to it. */
  function SeenValue(f: Field): string {
    var n := Find(f.0, ':');
    TrimRight(TrimBlanks(if n < |f.0| then f.0[n + 1..] + ": " + f.1 else f.1))
  }

  lemma ValueAsSeen(f: Field)
    ensures Find(FieldLine(f), ':') < |FieldLine(f)|
    ensures FieldValue(FieldLine(f)) == SeenValue(f)
  {
    FindColon(f.0, f.1);
    BehindColon(f.0, f.1, Find(f.0, ':'));
  }

  lemma BehindColon(key: string, value: string, n: nat)
    requires n <= |key|
    ensures FieldLine((key, value))[n + 1..] == if n < |key| then key[n + 1..] + ": " + value else " " + value
    ensures TrimBlanks(" " + value) == TrimBlanks(value)
  {
    var line := FieldLine((key, value));
    assert line == key + (": " + value);
    if n < |key| {
      assert line[n + 1..] == key[n + 1..] + (": " + value);
      assert key[n + 1..] + ": " + value == key[n + 1..] + (": " + value);
    } else {
      assert line[n + 1..] == (": " + value)[1..];
    }
    assert (" " + value)[1..] == value;
  }

  /** The reader takes a value under a name exactly when some field is seen as the name and has it. */
  lemma {:induction false} ValuesOfFields(fs: seq<Field>, name: string, v: string)
    requires ':' !in name
    ensures v in Values(LinesOf(fs), name) <==> exists f :: f in fs && SeenAs(f.0, name) && SeenValue(f) == v
    decreases |fs|
  {
    if fs != [] {
      NamedAsSeen(fs[0], name);
      ValueAsSeen(fs[0]);
      ValuesOfFields(fs[1..], name, v);
      assert forall f :: f in fs <==> f == fs[0] || f in fs[1..];
    }
  }

  lemma {:induction false} ValuesConcat(a: seq<Field>, b: seq<Field>, name: string)
    ensures Values(LinesOf(a + b), name) == Values(LinesOf(a), name) + Values(LinesOf(b), name)
    decreases |a|
  {
    if a == [] {
      assert a + b == b;
    } else {
      assert (a + b)[1..] == a[1..] + b && (a + b)[0] == a[0];
      ValuesConcat(a[1..], b, name);
    }
  }

  /** Fields seen under other names contribute no value. */
  lemma {:induction false} NoValues(fs: seq<Field>, name: string)
    requires ':' !in name && forall f :: f in fs ==> !SeenAs(f.0, name)
    ensures Values(LinesOf(fs), name) == []
    decreases |fs|
  {
    if fs != [] {
      NamedAsSeen(fs[0], name);
      NoValues(fs[1..], name);
    }
  }

  /** With one key seen under a name, the reader gets the value of that key alone. */
  lemma {:induction false} ValuesOfMap(headers: Headers, key: string, name: string)
    requires ':' !in name && key in headers && SeenAs(key, name)
    requires forall k :: k in headers && k != key ==> !SeenAs(k, name)
    ensures Values(LinesOf(FieldsOf(headers)), name) == Values(LinesOf([(key, headers[key])]), name)
    decreases |headers|
  {
    LeastExists(headers.Keys);
    var k :| IsLeast(k, headers.Keys);
    FieldsOfStep(headers, k);
    ValuesConcat([(k, headers[k])], FieldsOf(headers - {k}), name);
    if k == key {
      FieldsOfListsEntries(headers - {k});
      NoValues(FieldsOf(headers - {k}), name);
    } else {
      NoValues([(k, headers[k])], name);
      ValuesOfMap(headers - {k}, key, name);
    }
  }

  lemma ValueAsWritten(key: string, value: string)
    requires ':' !in key && CleanValue(value) && (value == "" || !IsBlank(value[|value| - 1]))
    ensures Find(FieldLine((key, value)), ':') < |FieldLine((key, value))|
    ensures FieldValue(FieldLine((key, value))) == value
  {
    FindColon(key, value);
    FindNothing(key, ':');
    assert FieldLine((key, value))[|key| + 1..] == " " + value;
    TrimOne(value);
  }

  lemma DecimalIsClean(n: nat)
    ensures var d := Decimal(n); CleanValue(d) && d != "" && !IsBlank(d[|d| - 1])
  {
    DecimalParses(n);
    var d := Decimal(n);
    assert d[0] in d && d[|d| - 1] in d;
  }

  /** A number is read back as it was written. */
  lemma NumberLine(key: string, n: nat)
    requires ':' !in key
    ensures Values(LinesOf([(key, Decimal(n))]), key) == [Decimal(n)]
  {
    var f := (key, Decimal(n));
    DecimalIsClean(n);
    ValueAsWritten(key, Decimal(n));
    FindNothing(key, ':');
    NamedAsSeen(f, key);
    assert [f][1..] == [] && LinesOf([f]) == [FieldLine(f)];
    assert [FieldLine(f)][1..] == [];
  }

  lemma NamesDiffer()
    ensures ':' !in CONTENT_LENGTH && ':' !in TRANSFER_ENCODING
    ensures CONTENT_LENGTH == "Content-Length" && TRANSFER_ENCODING == "Transfer-Encoding"
    ensures SeenAs(CONTENT_LENGTH, CONTENT_LENGTH) && !SeenAs(CONTENT_LENGTH, TRANSFER_ENCODING)
  {
  }

  // ---------------------------------------------------------------- When the body comes back

  /** The lengths a reader finds in a printed response. */
  ghost function Lengths(r: HttpResponse): seq<string> {
    Values(LinesOf(WrittenFields(r)), CONTENT_LENGTH)
  }

  ghost function Codings(r: HttpResponse): seq<string> {
    Values(LinesOf(WrittenFields(r)), TRANSFER_ENCODING)
  }

  /**
   No field but `Content-Length` itself is seen as a length or a transfer coding, and that
   one, if the map has it, says how long the body is.
   */
  predicate LengthAgrees(r: HttpResponse) {
    && (CONTENT_LENGTH in r.headers ==> r.headers[CONTENT_LENGTH] == Decimal(|r.body|))
    && forall k :: k in r.headers && k != CONTENT_LENGTH ==>
         !SeenAs(k, CONTENT_LENGTH) && !SeenAs(k, TRANSFER_ENCODING)
  }

  /** Exactly one length is written, whichever of the two places wrote it, and it is the body's. */
  lemma OneLength(r: HttpResponse)
    requires LengthAgrees(r)
    ensures Lengths(r) == [Decimal(|r.body|)]
    ensures Codings(r) == []
  {
    FieldsOfListsEntries(r.headers);
    NamesDiffer();
    NumberLine(CONTENT_LENGTH, |r.body|);
    if CONTENT_LENGTH in r.headers {
      assert FieldsOf(r.headers) + [] == FieldsOf(r.headers);
      ValuesOfMap(r.headers, CONTENT_LENGTH, CONTENT_LENGTH);
    } else {
      ValuesConcat(FieldsOf(r.headers), [(CONTENT_LENGTH, Decimal(|r.body|))], CONTENT_LENGTH);
      NoValues(FieldsOf(r.headers), CONTENT_LENGTH);
    }
    NoValues(WrittenFields(r), TRANSFER_ENCODING);
  }

  lemma WrittenAreOneLine(r: HttpResponse)
    requires OneLineHeaders(r.headers)
    ensures forall f :: f in WrittenFields(r) ==> OneLine(f)
  {
    FieldsOfListsEntries(r.headers);
    DecimalIsPlain(|r.body|);
  }

  lemma SecondWord(first: string, second: string, rest: string)
    requires ' ' !in first && ' ' !in second
    ensures Before(After(first + " " + second + " " + rest, ' '), ' ') == second
  {
    var behind := second + [' '] + rest;
    assert first + " " + second + " " + rest == first + [' '] + behind;
    FindBehind(first, ' ', behind);
    FindBehind(second, ' ', rest);
  }

  lemma StatusWord(status: int, reason: string)
    ensures StatusDigits("HTTP/1.1 " + Decimal(status) + " " + reason) == Decimal(status)
  {
    DecimalIsPlain(status);
    SecondWord("HTTP/1.1", Decimal(status), reason);
    assert "HTTP/1.1" + " " == "HTTP/1.1 ";
  }

  lemma StatusIsOneLine(status: int, reason: string)
    requires LF !in reason
    ensures LF !in "HTTP/1.1 " + Decimal(status) + " " + reason
  {
    DecimalIsPlain(status);
  }

  /** The status line, the fields in the order of the map with the length behind them, and the body come back apart. */
  lemma PartsComeBack(r: HttpResponse)
    requires LF !in r.reason && OneLineHeaders(r.headers)
    ensures var s := PrintedResponse(r);
            && Find(s, LF) < |s|
            && StripCr(Before(s, LF)) == StatusLine(r)
            && ReadSection(After(s, LF)) == Section(LinesOf(WrittenFields(r)), r.body)
  {
    var fs := WrittenFields(r);
    StatusIsOneLine(r.status, r.reason);
    ReadLine(StatusLine(r), PrintFields(fs) + CRLF + r.body);
    WrittenAreOneLine(r);
    SectionRoundTrip(fs, r.body);
  }

  /** What the reader makes of a printed response, in terms of its fields. */
  lemma ReadsPrinted(asked: string, r: HttpResponse)
    requires LF !in r.reason && OneLineHeaders(r.headers)
    ensures ReadBody(asked, PrintedResponse(r)) ==
              if !(100 <= r.status <= 999) then Malformed
              else if Bodyless(asked, r.status) then Framed("", r.body)
              else if OpensTunnel(asked, r.status) then Tunnel(r.body)
              else if Codings(r) != [] then TransferCoded
              else ReadLength(Lengths(r), r.body)
  {
    PartsComeBack(r);
    StatusWord(r.status, r.reason);
    DecimalDigits(r.status);
    if 0 <= r.status {
      DecimalParses(r.status);
    }
  }

  /** The text is a number that denotes n. */
  predicate Tells(v: string, n: nat) {
    IsNumber(v) && ParseDecimal(v) == n
  }

  ghost predicate AllTell(values: seq<string>, n: nat) {
    values != [] && forall v :: v in values ==> v == values[0] && Tells(v, n)
  }

  /** The body is cut where it ends exactly when there are lengths, all the same, that tell its size. */
  lemma ReadsLength(values: seq<string>, body: string)
    ensures ReadLength(values, body) == Framed(body, "") <==> AllTell(values, |body|)
  {
    if values != [] {
      assert values[0] in values;
      if IsNumber(values[0]) && ParseDecimal(values[0]) <= |body| {
        var n := ParseDecimal(values[0]);
        assert body == body[..n] + body[n..];
      }
    }
  }

  function Trimmed(value: string): string {
    TrimRight(TrimBlanks(value))
  }

  /** A field map has lengths for a body, alone or next to the line the printer adds. */
  predicate LengthsTell(r: HttpResponse) {
    && (forall k :: k in r.headers && SeenAs(k, CONTENT_LENGTH) ==>
          |k| == |CONTENT_LENGTH| && Tells(Trimmed(r.headers[k]), |r.body|))
    && (forall j, k :: j in r.headers && k in r.headers && SeenAs(j, CONTENT_LENGTH) && SeenAs(k, CONTENT_LENGTH) ==>
          Trimmed(r.headers[j]) == Trimmed(r.headers[k]))
    && (CONTENT_LENGTH !in r.headers ==> forall k :: k in r.headers && SeenAs(k, CONTENT_LENGTH) ==>
          Trimmed(r.headers[k]) == Decimal(|r.body|))
  }

  predicate NoCoding(headers: Headers) {
    forall k :: k in headers ==> !SeenAs(k, TRANSFER_ENCODING)
  }

  lemma {:induction false} TrimKeepsColon(s: string)
    requires ':' in s
    ensures ':' in TrimBlanks(s) && ':' in TrimRight(s)
  {
    if s != "" && IsBlank(s[0]) {
      assert s == [s[0]] + s[1..];
      TrimKeepsColon(s[1..]);
    }
    if s != "" && IsBlank(s[|s| - 1]) {
      assert s == s[..|s| - 1] + [s[|s| - 1]];
      TrimKeepsColon(s[..|s| - 1]);
    }
  }

  /** A key that goes on behind the name spoils the value: it is no number. */
  lemma LongKey(key: string, value: string, name: string)
    requires ':' !in name && SeenAs(key, name)
    ensures |key| == |name| ==> SeenValue((key, value)) == Trimmed(value)
    ensures |key| != |name| ==> !IsNumber(SeenValue((key, value)))
  {
    forall i | 0 <= i < |name|
      ensures key[i] != ':'
    {
      assert LowerCase(key[..|name|][i]) == LowerCase(name[i]) && name[i] in name;
    }
    FindIs(key, ':', |name|);
    if |key| != |name| {
      var behind := key[|name| + 1..] + ": " + value;
      assert behind[|key[|name| + 1..]|] == ':';
      TrimKeepsColon(behind);
      TrimKeepsColon(TrimBlanks(behind));
      assert !IsDigit(':');
    }
  }

  lemma DecimalIsTrimmed(n: nat)
    ensures Trimmed(Decimal(n)) == Decimal(n)
    ensures SeenValue((CONTENT_LENGTH, Decimal(n))) == Decimal(n)
  {
    DecimalIsClean(n);
    NamesDiffer();
    FindNothing(CONTENT_LENGTH, ':');
  }

  /** The reader sees a length exactly when a key of the map gives it, or the printer adds it. */
  lemma LengthsSeen(r: HttpResponse, v: string)
    ensures v in Lengths(r) <==>
              || (exists k :: k in r.headers && SeenAs(k, CONTENT_LENGTH) && SeenValue((k, r.headers[k])) == v)
              || (CONTENT_LENGTH !in r.headers && v == Decimal(|r.body|))
  {
    var added := (CONTENT_LENGTH, Decimal(|r.body|));
    NamesDiffer();
    FieldsOfListsEntries(r.headers);
    ValuesOfFields(WrittenFields(r), CONTENT_LENGTH, v);
    DecimalIsTrimmed(|r.body|);
    forall k | k in r.headers
      ensures (k, r.headers[k]) in WrittenFields(r)
    {
      assert (k, r.headers[k]) in FieldsOf(r.headers);
    }
    assert CONTENT_LENGTH !in r.headers ==> added in WrittenFields(r);
  }

  lemma CodingsSeen(r: HttpResponse)
    ensures Codings(r) == [] <==> NoCoding(r.headers)
  {
    NamesDiffer();
    FieldsOfListsEntries(r.headers);
    if NoCoding(r.headers) {
      NoValues(WrittenFields(r), TRANSFER_ENCODING);
    } else {
      var k :| k in r.headers && SeenAs(k, TRANSFER_ENCODING);
      assert (k, r.headers[k]) in FieldsOf(r.headers) && (k, r.headers[k]) in WrittenFields(r);
      ValuesOfFields(WrittenFields(r), TRANSFER_ENCODING, SeenValue((k, r.headers[k])));
    }
  }

  /** With the lengths in order, the one that is seen. */
  function SeenLength(r: HttpResponse): string {
    if CONTENT_LENGTH in r.headers then Trimmed(r.headers[CONTENT_LENGTH]) else Decimal(|r.body|)
  }

  lemma KeyTells(r: HttpResponse, k: string)
    requires LengthsTell(r) && k in r.headers && SeenAs(k, CONTENT_LENGTH)
    ensures SeenValue((k, r.headers[k])) == SeenLength(r)
  {
    NamesDiffer();
    LongKey(k, r.headers[k], CONTENT_LENGTH);
  }

  lemma OnlyLength(r: HttpResponse, v: string)
    requires LengthsTell(r)
    ensures v in Lengths(r) <==> v == SeenLength(r)
  {
    NamesDiffer();
    LengthsSeen(r, v);
    if CONTENT_LENGTH in r.headers {
      KeyTells(r, CONTENT_LENGTH);
    }
    if k :| k in r.headers && SeenAs(k, CONTENT_LENGTH) && SeenValue((k, r.headers[k])) == v {
      KeyTells(r, k);
    }
  }

  lemma SeenLengthTells(r: HttpResponse)
    requires LengthsTell(r)
    ensures Tells(SeenLength(r), |r.body|)
  {
    NamesDiffer();
    DecimalParses(|r.body|);
  }

  lemma TellingLengths(r: HttpResponse)
    requires LengthsTell(r)
    ensures AllTell(Lengths(r), |r.body|)
  {
    var values := Lengths(r);
    forall v
      ensures v in values <==> v == SeenLength(r)
    {
      OnlyLength(r, v);
    }
    assert SeenLength(r) in values && values[0] in values;
    SeenLengthTells(r);
  }

  lemma ToldLengths(r: HttpResponse)
    requires AllTell(Lengths(r), |r.body|)
    ensures LengthsTell(r)
  {
    NamesDiffer();
    forall k | k in r.headers && SeenAs(k, CONTENT_LENGTH)
      ensures |k| == |CONTENT_LENGTH| && Trimmed(r.headers[k]) in Lengths(r)
    {
      LongKey(k, r.headers[k], CONTENT_LENGTH);
      LengthsSeen(r, SeenValue((k, r.headers[k])));
    }
    LengthsSeen(r, Decimal(|r.body|));
  }

  /**
   For every response with a one-line reason and one-line fields, and every request method,
   the reader recovers the body, whatever bytes it has, exactly when the status has three
   digits and the response either may not have a body and has none, or is no tunnel, is not
   seen to be transfer coded, and every length that is seen is the same number, the body's size.
   */
  lemma BodyComesBack(asked: string, r: HttpResponse)
    requires LF !in r.reason && OneLineHeaders(r.headers)
    ensures ReadBody(asked, PrintedResponse(r)) == Framed(r.body, "") <==>
              && 100 <= r.status <= 999
              && if Bodyless(asked, r.status) then r.body == ""
                 else !OpensTunnel(asked, r.status) && NoCoding(r.headers) && LengthsTell(r)
  {
    ReadsPrinted(asked, r);
    CodingsSeen(r);
    ReadsLength(Lengths(r), r.body);
    if LengthsTell(r) {
      TellingLengths(r);
    }
    if AllTell(Lengths(r), |r.body|) {
      ToldLengths(r);
    }
  }

  lemma ClashingLengths(asked: string, r: HttpResponse, v: string, w: string)
    requires LF !in r.reason && OneLineHeaders(r.headers) && NoCoding(r.headers) && 100 <= r.status <= 999
    requires !Bodyless(asked, r.status) && !OpensTunnel(asked, r.status)
    requires v in Lengths(r) && w in Lengths(r) && v != w
    ensures ReadBody(asked, PrintedResponse(r)) == Malformed
  {
    ReadsPrinted(asked, r);
    CodingsSeen(r);
  }

  lemma BothLengthsSeen(r: HttpResponse, key: string)
    requires key in r.headers && |key| == |CONTENT_LENGTH| && SeenAs(key, CONTENT_LENGTH) && CONTENT_LENGTH !in r.headers
    ensures Trimmed(r.headers[key]) in Lengths(r) && Decimal(|r.body|) in Lengths(r)
  {
    NamesDiffer();
    LongKey(key, r.headers[key], CONTENT_LENGTH);
    LengthsSeen(r, Trimmed(r.headers[key]));
    LengthsSeen(r, Decimal(|r.body|));
  }

  /**
   The printer looks for its own spelling of the name only. Next to any other it adds a
   second length, and if the two are not written alike the reader rejects the message.
   */
  lemma OtherSpellingClashes(asked: string, r: HttpResponse, key: string)
    requires LF !in r.reason && OneLineHeaders(r.headers) && NoCoding(r.headers) && 100 <= r.status <= 999
    requires !Bodyless(asked, r.status) && !OpensTunnel(asked, r.status)
    requires key in r.headers && |key| == |CONTENT_LENGTH| && SeenAs(key, CONTENT_LENGTH) && CONTENT_LENGTH !in r.headers
    requires Trimmed(r.headers[key]) != Decimal(|r.body|)
    ensures ReadBody(asked, PrintedResponse(r)) == Malformed
  {
    BothLengthsSeen(r, key);
    ClashingLengths(asked, r, Trimmed(r.headers[key]), Decimal(|r.body|));
  }

  const OTHER_SPELLING := "content-length"

  lemma OtherSpelling()
    ensures OTHER_SPELLING != CONTENT_LENGTH && |OTHER_SPELLING| == |CONTENT_LENGTH| && LF !in OTHER_SPELLING
    ensures SeenAs(OTHER_SPELLING, CONTENT_LENGTH) && !SeenAs(OTHER_SPELLING, TRANSFER_ENCODING)
  {
  }

  lemma ZeroIsNotOne()
    ensures LF !in "0" && Trimmed("0") != Decimal(1)
  {
    DecimalIsTrimmed(0);
    assert Decimal(0) == "0";
  }

  /** One such response. */
  lemma ClashExample(r: HttpResponse)
    requires r == HttpResponse(200, "OK", map[OTHER_SPELLING := "0"], "x")
    ensures ReadBody("GET", PrintedResponse(r)) == Malformed
  {
    OtherSpelling();
    ZeroIsNotOne();
    OtherSpellingClashes("GET", r, OTHER_SPELLING);
  }

  lemma AgreesTells(r: HttpResponse)
    requires LengthAgrees(r)
    ensures NoCoding(r.headers) && LengthsTell(r)
  {
    NamesDiffer();
    DecimalIsTrimmed(|r.body|);
    DecimalParses(|r.body|);
  }

  lemma OtherNames()
    ensures forall key :: key in {"Content-Type", "Connection", "Retry-After"} ==>
              !SeenAs(key, CONTENT_LENGTH) && !SeenAs(key, TRANSFER_ENCODING)
  {
  }

  lemma GeneratedAgrees(code: Code, reason: string, body: string, contentType: ContentType, connection: Connection)
    ensures LengthAgrees(Generated(code, reason, body, contentType, connection))
  {
    OtherNames();
  }

  lemma GeneratedIsOneLine(body: string, contentType: ContentType, connection: Connection)
    ensures OneLineHeaders(GeneratedHeaders(body, contentType, connection))
  {
    DecimalIsPlain(|body|);
  }

  lemma CodeCarries(asked: string, code: Code)
    ensures 100 <= CodeNumber(code) <= 999
    ensures Bodyless(asked, CodeNumber(code)) <==> asked == "HEAD" || code.NoContent?
    ensures OpensTunnel(asked, CodeNumber(code)) <==> asked == "CONNECT" && (code.OK? || code.Created? || code.NoContent?)
  {
  }

  lemma CodeComesBack(asked: string, r: HttpResponse, code: Code)
    requires LF !in r.reason && OneLineHeaders(r.headers) && LengthAgrees(r)
    requires r.status == CodeNumber(code)
    ensures Lengths(r) == [Decimal(|r.body|)]
    ensures ReadBody(asked, PrintedResponse(r)) == Framed(r.body, "") <==>
              if asked == "HEAD" || code.NoContent? then r.body == ""
              else !(asked == "CONNECT" && (code.OK? || code.Created?))
  {
    CodeCarries(asked, code);
    OneLength(r);
    AgreesTells(r);
    BodyComesBack(asked, r);
  }

  /**
   For every code, one-line reason, body, type and connection mode, the generated response
   is written with exactly one length, that of its body, and gives the body back to whoever
   asked, except for a body put into a 204 No Content response or into the response to a
   HEAD, and for a success told to a CONNECT.
   */
  lemma GeneratedBodyComesBack(asked: string, r: HttpResponse, code: Code, reason: string, body: string,
                               contentType: ContentType, connection: Connection)
    requires LF !in reason
    requires r == Generated(code, reason, body, contentType, connection)
    ensures Lengths(r) == [Decimal(|body|)]
    ensures ReadBody(asked, PrintedResponse(r)) == Framed(body, "") <==>
              if asked == "HEAD" || code.NoContent? then body == ""
              else !(asked == "CONNECT" && (code.OK? || code.Created?))
  {
    GeneratedAgrees(code, reason, body, contentType, connection);
    GeneratedIsOneLine(body, contentType, connection);
    CodeComesBack(asked, r, code);
  }

  /** The reply to a refused request. */
  function TooManyRequestsReply(body: string): HttpResponse {
    var r := Generated(TooManyRequests, "Too Many Requests", body, ApplicationJson, Close);
    r.(headers := r.headers["Retry-After" := "1"])
  }

  /** The reply to a health probe. */
  function HealthReply(body: string): HttpResponse {
    HttpResponse(200, "OK",
                 map["Content-Type" := "application/json", CONTENT_LENGTH := Decimal(|body|), "Connection" := "close"],
                 body)
  }

  lemma HealthAgrees(body: string)
    ensures LengthAgrees(HealthReply(body)) && OneLineHeaders(HealthReply(body).headers)
  {
    OtherNames();
    DecimalIsPlain(|body|);
  }

  lemma RefusalAgrees(body: string)
    ensures LengthAgrees(TooManyRequestsReply(body)) && OneLineHeaders(TooManyRequestsReply(body).headers)
  {
    OtherNames();
    GeneratedIsOneLine(body, ApplicationJson, Close);
  }

  /**
   The replies a session writes itself are read back whole, unless the request was a HEAD,
   to which both are written with a body, or a CONNECT that a health reply seems to accept.
   A session answers requests of any method alike.
   */
  lemma SessionRepliesComeBack(asked: string, r: HttpResponse, body: string)
    requires r == TooManyRequestsReply(body) || r == HealthReply(body)
    ensures ReadBody(asked, PrintedResponse(r)) == Framed(body, "") <==>
              if asked == "HEAD" then body == "" else !(asked == "CONNECT" && r == HealthReply(body))
  {
    if r == HealthReply(body) {
      HealthAgrees(body);
      CodeComesBack(asked, r, OK);
    } else {
      RefusalAgrees(body);
      CodeComesBack(asked, r, TooManyRequests);
    }
  }

  // ---------------------------------------------------------------- What a reader finds in the replies

  /** The number that stands in the status line for each code. */
  lemma CodeTexts()
    ensures Decimal(CodeNumber(OK)) == "200" && Decimal(CodeNumber(Created)) == "201"
    ensures Decimal(CodeNumber(NoContent)) == "204" && Decimal(CodeNumber(BadRequest)) == "400"
    ensures Decimal(CodeNumber(Unauthorized)) == "401" && Decimal(CodeNumber(Forbidden)) == "403"
    ensures Decimal(CodeNumber(NotFound)) == "404" && Decimal(CodeNumber(RequestTimeout)) == "408"
    ensures Decimal(CodeNumber(TooManyRequests)) == "429" && Decimal(CodeNumber(BadGateway)) == "502"
  {
    ThreeDigits(2, 0, 0, 20, 200);
    ThreeDigits(2, 0, 1, 20, 201);
    ThreeDigits(2, 0, 4, 20, 204);
    ThreeDigits(4, 0, 0, 40, 400);
    ThreeDigits(4, 0, 1, 40, 401);
    ThreeDigits(4, 0, 3, 40, 403);
    ThreeDigits(4, 0, 4, 40, 404);
    ThreeDigits(4, 0, 8, 40, 408);
    ThreeDigits(4, 2, 9, 42, 429);
    ThreeDigits(5, 0, 2, 50, 502);
  }

  lemma NextDigit(q: nat, d: nat)
    requires q > 0 && d < 10
    ensures Decimal(10 * q + d) == Decimal(q) + [Digit(d)]
  {
    assert (10 * q + d) / 10 == q && (10 * q + d) % 10 == d;
  }

  lemma ThreeDigits(a: nat, b: nat, c: nat, ab: nat, abc: nat)
    requires 0 < a < 10 && b < 10 && c < 10 && ab == 10 * a + b && abc == 10 * ab + c
    ensures Decimal(abc) == [Digit(a), Digit(b), Digit(c)]
  {
    NextDigit(ab, c);
    NextDigit(a, b);
    OneDigit(a);
  }

  lemma OneDigit(a: nat)
    requires a < 10
    ensures Decimal(a) == [Digit(a)]
  {
  }

  /** The values that are written under a field name, as a reader finds them (see PartsComeBack). */
  ghost function FieldValues(r: HttpResponse, name: string): seq<string> {
    Values(LinesOf(WrittenFields(r)), name)
  }

  const FIELD_NAMES: seq<string> := ["Content-Type", "Content-Length", "Connection", "Retry-After"]

  lemma NamesAreApart(a: string, b: string)
    requires a in FIELD_NAMES && b in FIELD_NAMES
    ensures ':' !in a && (SeenAs(b, a) <==> a == b)
  {
    SeenAsItself(a);
  }

  lemma SeenAsItself(name: string)
    ensures SeenAs(name, name)
  {
    assert name[..|name|] == name;
  }

  /** A value that a reader gets as it was put in. */
  predicate Tidy(value: string) {
    CleanValue(value) && (value == "" || !IsBlank(value[|value| - 1]))
  }

  lemma OneValue(name: string, value: string)
    requires ':' !in name && Tidy(value)
    ensures Values(LinesOf([(name, value)]), name) == [value]
  {
    var f := (name, value);
    ValueAsWritten(name, value);
    FindNothing(name, ':');
    SeenAsItself(name);
    NamedAsSeen(f, name);
    assert [f][1..] == [] && LinesOf([f]) == [FieldLine(f)];
    assert [FieldLine(f)][1..] == [];
  }

  predicate KnownFields(headers: Headers) {
    CONTENT_LENGTH in headers && forall k :: k in headers ==> k in FIELD_NAMES
  }

  /** With known fields only, each name has the value of its key, or none. */
  lemma FieldShown(r: HttpResponse, name: string)
    requires KnownFields(r.headers) && name in FIELD_NAMES && (name in r.headers ==> Tidy(r.headers[name]))
    ensures FieldValues(r, name) == if name in r.headers then [r.headers[name]] else []
  {
    forall k | k in r.headers
      ensures SeenAs(k, name) <==> k == name
    {
      NamesAreApart(name, k);
    }
    NamesAreApart(name, name);
    assert FieldsOf(r.headers) + [] == FieldsOf(r.headers);
    FieldsOfListsEntries(r.headers);
    if name in r.headers {
      ValuesOfMap(r.headers, name, name);
      OneValue(name, r.headers[name]);
    } else {
      NoValues(FieldsOf(r.headers), name);
    }
  }

  lemma TidyWords()
    ensures Tidy("application/json") && Tidy("text/plain") && Tidy("close") && Tidy("1")
  {
  }

  lemma GeneratedFields(body: string, contentType: ContentType, connection: Connection)
    ensures var h := GeneratedHeaders(body, contentType, connection);
            && KnownFields(h) && "Retry-After" !in h
            && ("Content-Type" in h <==> body != "") && ("Connection" in h <==> connection == Close)
            && (body != "" ==> h["Content-Type"] == if contentType == ApplicationJson then "application/json" else "text/plain")
            && (connection == Close ==> h["Connection"] == "close")
  {
    assert "Content-Type" in FIELD_NAMES && "Connection" in FIELD_NAMES && "Content-Length" in FIELD_NAMES;
  }

  lemma NamesAreKnown()
    ensures "Content-Type" in FIELD_NAMES && "Connection" in FIELD_NAMES && "Retry-After" in FIELD_NAMES
  {
    assert FIELD_NAMES[0] == "Content-Type" && FIELD_NAMES[2] == "Connection" && FIELD_NAMES[3] == "Retry-After";
  }

  /** The header values of every generated response, in their own words. */
  lemma GeneratedShows(r: HttpResponse, code: Code, reason: string, body: string, contentType: ContentType, connection: Connection)
    requires r == Generated(code, reason, body, contentType, connection)
    ensures FieldValues(r, "Content-Type")
         == if body == "" then [] else [if contentType == ApplicationJson then "application/json" else "text/plain"]
    ensures FieldValues(r, "Connection") == if connection == Close then ["close"] else []
    ensures FieldValues(r, "Retry-After") == []
  {
    GeneratedFields(body, contentType, connection);
    TidyWords();
    NamesAreKnown();
    FieldShown(r, "Content-Type");
    FieldShown(r, "Connection");
    FieldShown(r, "Retry-After");
  }

  lemma RefusalFields(body: string)
    ensures var h := TooManyRequestsReply(body).headers;
            && KnownFields(h) && "Retry-After" in h && h["Retry-After"] == "1"
            && "Connection" in h && h["Connection"] == "close"
            && ("Content-Type" in h <==> body != "") && (body != "" ==> h["Content-Type"] == "application/json")
  {
    GeneratedFields(body, ApplicationJson, Close);
    NamesAreKnown();
  }

  /** What a refused client reads. */
  lemma RefusalShows(r: HttpResponse, body: string)
    requires r == TooManyRequestsReply(body)
    ensures StatusLine(r) == "HTTP/1.1 " + "429" + " " + "Too Many Requests" && r.body == body
    ensures FieldValues(r, "Retry-After") == ["1"] && FieldValues(r, "Connection") == ["close"]
    ensures FieldValues(r, "Content-Type") == if body == "" then [] else ["application/json"]
  {
    RefusalFields(body);
    TidyWords();
    NamesAreKnown();
    FieldShown(r, "Retry-After");
    FieldShown(r, "Connection");
    FieldShown(r, "Content-Type");
    RefusalLine(body);
  }

  lemma RefusalLine(body: string)
    ensures StatusLine(TooManyRequestsReply(body)) == "HTTP/1.1 " + "429" + " " + "Too Many Requests"
  {
    ThreeDigits(4, 2, 9, 42, 429);
  }

  lemma HealthFields(body: string)
    ensures var h := HealthReply(body).headers;
            && KnownFields(h) && "Retry-After" !in h && "Connection" in h && h["Connection"] == "close"
            && "Content-Type" in h && h["Content-Type"] == "application/json"
  {
    NamesAreKnown();
    assert FIELD_NAMES[1] == CONTENT_LENGTH;
  }

  lemma HealthLine(body: string)
    ensures StatusLine(HealthReply(body)) == "HTTP/1.1 " + "200" + " " + "OK"
  {
    ThreeDigits(2, 0, 0, 20, 200);
  }

  /** What a health probe reads. */
  lemma HealthShows(r: HttpResponse, body: string)
    requires r == HealthReply(body)
    ensures StatusLine(r) == "HTTP/1.1 " + "200" + " " + "OK" && r.body == body
    ensures FieldValues(r, "Content-Type") == ["application/json"] && FieldValues(r, "Connection") == ["close"]
    ensures FieldValues(r, "Retry-After") == []
  {
    HealthFields(body);
    TidyWords();
    NamesAreKnown();
    FieldShown(r, "Content-Type");
    FieldShown(r, "Connection");
    FieldShown(r, "Retry-After");
    HealthLine(body);
  }

  /** What a client reads that was too slow to send its header. */
  lemma TimeoutShows(r: HttpResponse)
    requires r == Generated(RequestTimeout, "Request Timeout", "", TextPlain, Close)
    ensures StatusLine(r) == "HTTP/1.1 " + "408" + " " + "Request Timeout" && r.body == ""
    ensures FieldValues(r, "Connection") == ["close"] && FieldValues(r, "Content-Type") == []
  {
    TimeoutLine();
    GeneratedShows(r, RequestTimeout, "Request Timeout", "", TextPlain, Close);
    assert r.status == CodeNumber(RequestTimeout) && r.reason == "Request Timeout";
  }

  lemma TimeoutLine()
    ensures "HTTP/1.1 " + Decimal(CodeNumber(RequestTimeout)) + " " + "Request Timeout"
         == "HTTP/1.1 " + "408" + " " + "Request Timeout"
  {
    ThreeDigits(4, 0, 8, 40, 408);
  }

  /** The text of a response without headers: the printer adds the length, and nothing else. */
  lemma PrintedText(status: int, reason: string, body: string)
    ensures PrintedResponse(HttpResponse(status, reason, map[], body))
         == "HTTP/1.1 " + Decimal(status) + " " + reason + "\r\n"
            + ("Content-Length: " + Decimal(|body|) + "\r\n" + "\r\n" + body)
  {
    var length := (CONTENT_LENGTH, Decimal(|body|));
    assert [] + [length] == [length] == [length] + [];
    PrintFieldsCons(length, []);
    assert "Content-Length" + ": " == "Content-Length: ";
    assert FieldLine(length) == "Content-Length: " + Decimal(|body|);
    assert FieldLine(length) + CRLF + "" == FieldLine(length) + CRLF;
  }
}
