/**
 The upstream side of a session in src/http-session.cpp: the request that is sent
 upstream, and the relay of what comes back.
 */
module Forwarding {
  import opened Wrappers
  import opened Text
  import opened HttpRequests

  // ---------------------------------------------------------------- The upstream request

  const DEFAULT_USER_AGENT := "market-bridge/1.0.0"

  function UserAgent(headers: Headers): string {
    if "User-Agent" in headers then headers["User-Agent"] else DEFAULT_USER_AGENT
  }

  /** The fields of the upstream request, in the order in which they are written. */
  function UpstreamFields(request: HttpRequest, host: string): seq<Field> {
    [("Host", host), ("User-Agent", UserAgent(request.headers)), ("Accept", "*/*"), ("Connection", "close")]
  }

  function UpstreamRequest(request: HttpRequest, host: string): string {
    "GET" + " " + request.target + " " + "HTTP/1.1" + CRLF
    + (PrintFields(UpstreamFields(request, host)) + CRLF + "")
  }

  /** `generate_request`: one formatted text. */
  method GenerateRequest(request: HttpRequest, host: string) returns (out: string)
    ensures out == UpstreamRequest(request, host)
    ensures out == "GET " + request.target + " HTTP/1.1" + "\r\n"
                   + ("Host: " + host + "\r\n"
                      + ("User-Agent: "
                         + (if "User-Agent" in request.headers then request.headers["User-Agent"] else "market-bridge/1.0.0")
                         + "\r\n")
                      + ("Accept: */*" + "\r\n")
                      + ("Connection: close" + "\r\n")
                      + "\r\n")
  {
    var userAgent;
    if "User-Agent" in request.headers {
      userAgent := request.headers["User-Agent"];
    } else {
      userAgent := DEFAULT_USER_AGENT;
    }
    var requestLine := "GET " + request.target + " HTTP/1.1" + CRLF;
    var fields := "Host: " + host + CRLF
                  + ("User-Agent: " + userAgent + CRLF)
                  + ("Accept: */*" + CRLF)
                  + ("Connection: close" + CRLF);
    out := requestLine + (fields + CRLF);
    assert requestLine == "GET" + " " + request.target + " " + "HTTP/1.1" + CRLF;
    assert "Host: " + host == FieldLine(("Host", host));
    assert "User-Agent: " + userAgent == FieldLine(("User-Agent", userAgent));
    assert "Accept: */*" == FieldLine(("Accept", "*/*"));
    assert "Connection: close" == FieldLine(("Connection", "close"));
    FourLines(("Host", host), ("User-Agent", userAgent), ("Accept", "*/*"), ("Connection", "close"));
    assert fields + CRLF + "" == fields + CRLF;
  }

  lemma FourLines(h: Field, u: Field, a: Field, c: Field)
    ensures PrintFields([h, u, a, c])
         == FieldLine(h) + CRLF + (FieldLine(u) + CRLF) + (FieldLine(a) + CRLF) + (FieldLine(c) + CRLF)
  {
    assert [h, u, a, c] == [h] + ([u] + ([a] + ([c] + [])));
    PrintFieldsCons(h, [u] + ([a] + ([c] + [])));
    PrintFieldsCons(u, [a] + ([c] + []));
    PrintFieldsCons(a, [c] + []);
    PrintFieldsCons(c, []);
  }

  /** What the upstream server is meant to read. */
  function Intended(request: HttpRequest, host: string): HttpRequest {
    HttpRequest("GET", request.target, "HTTP/1.1",
                map["Host" := host, "User-Agent" := UserAgent(request.headers),
                    "Accept" := "*/*", "Connection" := "close"],
                "")
  }

  lemma FixedWords()
    ensures IsWord("GET") && IsWord("HTTP/1.1")
    ensures CleanValue("*/*") && CleanValue("close") && CleanValue(DEFAULT_USER_AGENT)
    ensures CleanName("Host") && CleanName("User-Agent") && CleanName("Accept") && CleanName("Connection")
  {
  }

  lemma InsertedFour(h: Field, u: Field, a: Field, c: Field)
    ensures Inserted(map[], [h, u, a, c]) == map[][h.0 := h.1][u.0 := u.1][a.0 := a.1][c.0 := c.1]
  {
    assert [h, u, a, c] == [h] + ([u] + ([a] + ([c] + [])));
    InsertedCons(map[], h, [u] + ([a] + ([c] + [])));
    InsertedCons(map[h.0 := h.1], u, [a] + ([c] + []));
    InsertedCons(map[h.0 := h.1][u.0 := u.1], a, [c] + []);
    InsertedCons(map[h.0 := h.1][u.0 := u.1][a.0 := a.1], c, []);
  }

  lemma UpstreamParses(request: HttpRequest, host: string)
    requires Canonical(request) && CleanValue(host)
    requires request.target != ""
    ensures Parsed(UpstreamRequest(request, host)) == Intended(request, host)
  {
    var agent := UserAgent(request.headers);
    FixedWords();
    MessageParses("GET", request.target, "HTTP/1.1", UpstreamFields(request, host), "");
    InsertedFour(("Host", host), ("User-Agent", agent), ("Accept", "*/*"), ("Connection", "close"));
  }

  /** Without a target, the version takes its place. */
  lemma NoTarget(request: HttpRequest, host: string)
    requires request.target == ""
    ensures Parsed(UpstreamRequest(request, host)).target == "HTTP/1.1"
  {
    FixedWords();
    var behind := " " + ("" + (" " + "HTTP/1.1"));
    assert "GET" + " " + request.target + " " + "HTTP/1.1" == "GET" + behind;
    assert "" + (" " + "HTTP/1.1") == " " + "HTTP/1.1";
    ParsedSplit("GET" + behind, PrintFields(UpstreamFields(request, host)) + CRLF + "");
    ExtractWord("GET", behind);
    ExtractSkips(" " + "HTTP/1.1");
    ExtractSkips("HTTP/1.1");
    OneWord("HTTP/1.1");
  }

  /** No parser result carries an unclean host. */
  lemma UncleanHost(request: HttpRequest, host: string)
    requires !CleanValue(host)
    ensures !Canonical(Intended(request, host))
  {
    assert "Host" in Intended(request, host).headers;
  }

  /**
   For every byte string a client may send and every upstream host, the upstream server
   reads what the session meant to send, a GET of the client's target, with the agent it looked up, exactly the four fields and no body, if and only if the client named a target and the host is a clean field value.
   */
  lemma ForwardingPreserves(raw: string, host: string)
    ensures var request := Parsed(raw);
            Parsed(UpstreamRequest(request, host)) == Intended(request, host)
            <==> request.target != "" && CleanValue(host)
  {
    var request := Parsed(raw);
    ParsedIsCanonical(raw);
    ParsedIsCanonical(UpstreamRequest(request, host));
    if request.target == "" {
      NoTarget(request, host);
    } else if CleanValue(host) {
      UpstreamParses(request, host);
    } else {
      UncleanHost(request, host);
    }
  }

  /** Field names are compared without regard to case, so a client may spell this one as it likes. */
  predicate NamesAgent(key: string) {
    SameName(key, "User-Agent")
  }

  /** The agent is the one that the client sent, under every spelling of the name it used, or the default if it sent none. */
  predicate Conveys(headers: Headers, agent: string) {
    if exists k :: k in headers && NamesAgent(k) then forall k :: k in headers && NamesAgent(k) ==> headers[k] == agent
    else agent == DEFAULT_USER_AGENT
  }

  /** The header map has its agent where the session looks for it, and no other agent elsewhere. */
  predicate AgentInPlace(headers: Headers) {
    forall k :: k in headers && NamesAgent(k) ==>
      headers[k] == if "User-Agent" in headers then headers["User-Agent"] else DEFAULT_USER_AGENT
  }

  /** The upstream server has read the client's request: target, agent and nothing else of it. */
  predicate Delivered(request: HttpRequest, host: string, read: HttpRequest) {
    && read.httpMethod == "GET" && read.target == request.target && read.version == "HTTP/1.1" && read.body == ""
    && read.headers.Keys == {"Host", "User-Agent", "Accept", "Connection"}
    && read.headers["Host"] == host && read.headers["Accept"] == "*/*" && read.headers["Connection"] == "close"
    && Conveys(request.headers, read.headers["User-Agent"])
  }

  lemma ConveysInPlace(headers: Headers)
    ensures Conveys(headers, UserAgent(headers)) <==> AgentInPlace(headers)
  {
    assert SameName("User-Agent", "User-Agent");
  }

  lemma IntendedDelivers(request: HttpRequest, host: string)
    ensures Delivered(request, host, Intended(request, host)) <==> AgentInPlace(request.headers)
  {
    ConveysInPlace(request.headers);
    assert Intended(request, host).headers.Keys == {"Host", "User-Agent", "Accept", "Connection"};
  }

  lemma UncleanIsNotDelivered(request: HttpRequest, host: string, read: HttpRequest)
    requires Canonical(read) && !CleanValue(host)
    ensures !Delivered(request, host, read)
  {
  }

  /**
   For every byte string and every host: the upstream server reads the client's target and
   agent, exactly the four fields and no body, if and only if the client named a target, the host is
   a clean field value, and the agent stands under the very key the session looks up, or is the default.
   */
  lemma ForwardingDelivers(raw: string, host: string)
    ensures var request := Parsed(raw);
            Delivered(request, host, Parsed(UpstreamRequest(request, host)))
            <==> request.target != "" && CleanValue(host) && AgentInPlace(request.headers)
  {
    var request := Parsed(raw);
    ForwardingPreserves(raw, host);
    ParsedIsCanonical(UpstreamRequest(request, host));
    if request.target == "" {
      NoTarget(request, host);
    } else if !CleanValue(host) {
      UncleanIsNotDelivered(request, host, Parsed(UpstreamRequest(request, host)));
    } else {
      IntendedDelivers(request, host);
    }
  }

  const SMALL_AGENT := "user-agent"

  lemma SmallAgent()
    ensures NamesAgent(SMALL_AGENT) && SMALL_AGENT != "User-Agent" && CleanName(SMALL_AGENT)
    ensures CleanValue("curl") && "curl" != DEFAULT_USER_AGENT && IsWord("/x")
  {
  }

  predicate AnnouncedAs(read: HttpRequest, agent: string) {
    "User-Agent" in read.headers && read.headers["User-Agent"] == agent
  }

  /** An agent under another spelling only is lost, whatever the host. */
  lemma OtherSpellingIsLost(raw: string, host: string, key: string)
    requires Parsed(raw).target != "" && CleanValue(host)
    requires key in Parsed(raw).headers && NamesAgent(key) && "User-Agent" !in Parsed(raw).headers
    ensures AnnouncedAs(Parsed(UpstreamRequest(Parsed(raw), host)), DEFAULT_USER_AGENT)
    ensures Parsed(raw).headers[key] != DEFAULT_USER_AGENT ==>
              !Delivered(Parsed(raw), host, Parsed(UpstreamRequest(Parsed(raw), host)))
  {
    ForwardingPreserves(raw, host);
    ForwardingDelivers(raw, host);
  }

  lemma SmallAgentParses(raw: string)
    requires raw == "GET" + " " + "/x" + " " + "HTTP/1.1" + CRLF + (PrintFields([(SMALL_AGENT, "curl")]) + CRLF + "")
    ensures Parsed(raw) == HttpRequest("GET", "/x", "HTTP/1.1", map[SMALL_AGENT := "curl"], "")
  {
    FixedWords();
    SmallAgent();
    MessageParses("GET", "/x", "HTTP/1.1", [(SMALL_AGENT, "curl")], "");
    InsertedCons(map[], (SMALL_AGENT, "curl"), []);
    assert [(SMALL_AGENT, "curl")] + [] == [(SMALL_AGENT, "curl")];
  }

  /** One such request, of a client that writes the name in small letters. */
  lemma SmallAgentIsLost(raw: string, host: string)
    requires raw == "GET" + " " + "/x" + " " + "HTTP/1.1" + CRLF + (PrintFields([(SMALL_AGENT, "curl")]) + CRLF + "")
    requires CleanValue(host)
    ensures Parsed(raw).target != "" && Parsed(raw).headers == map[SMALL_AGENT := "curl"]
    ensures AnnouncedAs(Parsed(UpstreamRequest(Parsed(raw), host)), "market-bridge/1.0.0")
    ensures !Delivered(Parsed(raw), host, Parsed(UpstreamRequest(Parsed(raw), host)))
  {
    SmallAgentParses(raw);
    SmallAgent();
    OtherSpellingIsLost(raw, host, SMALL_AGENT);
  }

  // ---------------------------------------------------------------- The relay

  const BUFFER_SIZE: nat := 4096

  /** The outcome of one `async_read_some`: bytes put into the buffer, or an error. */
  datatype Read = Data(bytes: Bytes) | EndOfFile | OtherError

  type Bytes = s: string | |s| <= BUFFER_SIZE

  /** The bytes of the reads before the first error. */
  function Stream(results: seq<Read>): string {
    if results == [] || !results[0].Data? then "" else results[0].bytes + Stream(results[1..])
  }

  /** The first error, if there is one: it ends the loop. */
  function Ending(results: seq<Read>): Option<Read> {
    if results == [] then None
    else if results[0].Data? then Ending(results[1..])
    else Some(results[0])
  }

  /**
   The relay loop over the reads the upstream connection will deliver, through one reused
   buffer. What is handed to the client's writer at end of file is exactly the stream; any
   other error, or a connection that never ends, hands over nothing.
   */
  method ReadResponse(results: seq<Read>) returns (handed: Option<string>)
    ensures handed == if Ending(results) == Some(EndOfFile) then Some(Stream(results)) else None
  {
    var buffer := new char[BUFFER_SIZE];
    var response := "";
    var i := 0;
    assert results[0..] == results;
    while i < |results|
      invariant i <= |results|
      invariant Stream(results) == response + Stream(results[i..])
      invariant Ending(results) == Ending(results[i..])
    {
      assert results[i..][1..] == results[i + 1..];
      match results[i]
      case EndOfFile =>
        assert response + "" == response;
        return Some(response);
      case OtherError =>
        return None;
      case Data(bytes) =>
        Receive(buffer, bytes);
        response := response + buffer[..|bytes|];
        i := i + 1;
    }
    handed := None;
  }

  /** The operating system's part: bytes land at the front, the rest of the buffer keeps what it held. */
  method Receive(buffer: array<char>, bytes: string)
    requires |bytes| <= buffer.Length
    modifies buffer
    ensures buffer[..|bytes|] == bytes && buffer[|bytes|..] == old(buffer[|bytes|..])
  {
    for k := 0 to |bytes|
      invariant buffer[..k] == bytes[..k]
      invariant buffer[|bytes|..] == old(buffer[|bytes|..])
    {
      buffer[k] := bytes[k];
    }
  }

  function DataReads(chunks: seq<Bytes>): seq<Read> {
    if chunks == [] then [] else [Data(chunks[0])] + DataReads(chunks[1..])
  }

  function Concat(chunks: seq<Bytes>): string {
    if chunks == [] then "" else chunks[0] + Concat(chunks[1..])
  }

  /** One chunk after the other. */
  lemma {:induction false} ConcatInOrder(a: seq<Bytes>, c: Bytes)
    ensures Concat([]) == "" && Concat(a + [c]) == Concat(a) + c
    decreases |a|
  {
    if a == [] {
      assert a + [c] == [c] && c + "" == c;
    } else {
      assert (a + [c])[1..] == a[1..] + [c];
      ConcatInOrder(a[1..], c);
      assert a[0] + (Concat(a[1..]) + c) == a[0] + Concat(a[1..]) + c;
    }
  }

  /** However the upstream bytes are split into reads, end of file hands over their concatenation. */
  lemma {:induction false} RelayIntegrity(chunks: seq<string>, last: Read, later: seq<Read>)
    requires (forall c :: c in chunks ==> |c| <= 4096) && (last == EndOfFile || last == OtherError)
    ensures Stream(DataReads(chunks) + [last] + later) == Concat(chunks)
    ensures Ending(DataReads(chunks) + [last] + later) == Some(last)
    decreases |chunks|
  {
    var results := DataReads(chunks) + [last] + later;
    if chunks != [] {
      assert results[1..] == DataReads(chunks[1..]) + [last] + later;
      RelayIntegrity(chunks[1..], last, later);
    }
  }
}
