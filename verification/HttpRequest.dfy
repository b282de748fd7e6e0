/**
 `HttpRequest` of src/utils/http-helper.h: the parser and the printer.

 Canonical says, in terms of the fields alone, which requests the parser can return. The
 parser returns nothing else, and printing and parsing is the identity on exactly those.
 */
module HttpRequests {
  import opened Text

  type Headers = map<string, string>
  type Field = (string, string)

  datatype HttpRequest = HttpRequest(
    httpMethod: string,
    target: string,
    version: string,
    headers: Headers,
    body: string)

  const NO_REQUEST := HttpRequest("", "", "", map[], "")

  // ---------------------------------------------------------------- The printer

  function FieldLine(f: Field): string {
    f.0 + ": " + f.1
  }

  /** Field lines, each ended by CR LF. */
  function PrintFields(fs: seq<Field>): string {
    if fs == [] then "" else FieldLine(fs[0]) + CRLF + PrintFields(fs[1..])
  }

  /** The entries of a header map, least key first: how a `std::map` is iterated. */
  ghost function FieldsOf(headers: Headers): seq<Field>
    decreases |headers|
  {
    if headers == map[] then []
    else
      LeastExists(headers.Keys);
      var k :| IsLeast(k, headers.Keys);
      [(k, headers[k])] + FieldsOf(headers - {k})
  }

  ghost function Printed(r: HttpRequest): string {
    r.httpMethod + " " + r.target + " " + r.version + CRLF
    + (PrintFields(FieldsOf(r.headers)) + CRLF + r.body)
  }

  lemma FieldsOfStep(headers: Headers, k: string)
    requires IsLeast(k, headers.Keys)
    ensures FieldsOf(headers) == [(k, headers[k])] + FieldsOf(headers - {k})
  {
    LeastExists(headers.Keys);
    var k' :| IsLeast(k', headers.Keys) && FieldsOf(headers) == [(k', headers[k'])] + FieldsOf(headers - {k'});
    LeastIsUnique(k, k', headers.Keys);
  }

  /** FieldsOf lists every entry and nothing else. */
  lemma {:induction false} FieldsOfListsEntries(headers: Headers)
    ensures forall f :: f in FieldsOf(headers) <==> f.0 in headers && headers[f.0] == f.1
    decreases |headers|
  {
    if headers != map[] {
      LeastExists(headers.Keys);
      var k :| IsLeast(k, headers.Keys);
      FieldsOfStep(headers, k);
      FieldsOfListsEntries(headers - {k});
    }
  }

  ghost predicate Ascending(fs: seq<Field>) {
    forall i, j :: 0 <= i < j < |fs| ==> Leq(fs[i].0, fs[j].0) && fs[i].0 != fs[j].0
  }

  /** ... in strictly ascending order of the names, so no name is printed twice. */
  lemma {:induction false} FieldsOfAscend(headers: Headers)
    ensures Ascending(FieldsOf(headers))
    decreases |headers|
  {
    if headers != map[] {
      LeastExists(headers.Keys);
      var k :| IsLeast(k, headers.Keys);
      FieldsOfStep(headers, k);
      FieldsOfAscend(headers - {k});
      FieldsOfListsEntries(headers - {k});
      var fs := FieldsOf(headers - {k});
      forall i | 0 <= i < |fs|
        ensures Leq(k, fs[i].0) && fs[i].0 != k
      {
        assert fs[i] in fs;
      }
    }
  }

  /** The loop over a header map, shared by the two printers of the source. */
  method PrintHeaders(headers: Headers) returns (out: string)
    ensures out == PrintFields(FieldsOf(headers))
  {
    out := "";
    var left := headers;
    while left != map[]
      invariant PrintFields(FieldsOf(headers)) == out + PrintFields(FieldsOf(left))
      decreases |left|
    {
      LeastExists(left.Keys);
      var k :| k in left.Keys && forall k' :: k' in left.Keys ==> Leq(k, k');
      FieldsOfStep(left, k);
      PrintFieldsCons((k, left[k]), FieldsOf(left - {k}));
      out := out + (k + ": " + left[k] + CRLF);
      left := left - {k};
    }
  }

  lemma PrintFieldsCons(f: Field, fs: seq<Field>)
    ensures PrintFields([f] + fs) == FieldLine(f) + CRLF + PrintFields(fs)
  {
    assert ([f] + fs)[1..] == fs;
  }

  method ToString(r: HttpRequest) returns (s: string)
    ensures s == Printed(r)
  {
    var fields := PrintHeaders(r.headers);
    s := r.httpMethod + " " + r.target + " " + r.version + CRLF;
    var head := s;
    s := s + fields;
    s := s + CRLF;
    s := s + r.body;
    assert s == head + (fields + CRLF + r.body);
  }

  /** The text of a request, as it goes out: here with no header and with one; the rest is a matter of order. */
  lemma PrintedText(m: string, t: string, v: string, k: string, x: string, body: string)
    ensures Printed(HttpRequest(m, t, v, map[], body)) == m + " " + t + " " + v + "\r\n" + ("" + "\r\n" + body)
    ensures Printed(HttpRequest(m, t, v, map[k := x], body))
         == m + " " + t + " " + v + "\r\n" + (k + ": " + x + "\r\n" + "\r\n" + body)
  {
    var headers := map[k := x];
    LeqTotal(k, k);
    FieldsOfStep(headers, k);
    assert headers - {k} == map[];
    PrintFieldsCons((k, x), []);
    assert [(k, x)] + [] == [(k, x)];
    assert k + ": " + x + CRLF + "" == k + ": " + x + CRLF;
  }

  lemma {:induction false} PrintedInOrder(a: seq<Field>, b: seq<Field>)
    ensures PrintFields(a + b) == PrintFields(a) + PrintFields(b)
    decreases |a|
  {
    if a == [] {
      assert a + b == b;
    } else {
      assert a + b == [a[0]] + (a[1..] + b);
      PrintFieldsCons(a[0], a[1..] + b);
      PrintedInOrder(a[1..], b);
    }
  }

  // ---------------------------------------------------------------- The parser

  /** What one field line does to the header map: the last value of a name wins. */
  function WithLine(headers: Headers, line: string): Headers {
    var pos := Find(line, ':');
    if pos < |line| then headers[line[..pos] := TrimBlanks(line[pos + 1..])] else headers
  }

  /** The header map and the body read from what follows the request line. */
  function ParsedRest(s: string, headers: Headers): (Headers, string)
    decreases |s|
  {
    if s == "" then (headers, "")
    else
      var line, rest := StripCr(Before(s, LF)), After(s, LF);
      if line == "" then (headers, Before(rest, '\0'))
      else ParsedRest(rest, WithLine(headers, line))
  }

  function Parsed(raw: string): HttpRequest {
    if raw == "" then NO_REQUEST
    else
      var m := Extract(StripCr(Before(raw, LF)));
      var t := Extract(m.1);
      var v := Extract(t.1);
      var rest := ParsedRest(After(raw, LF), map[]);
      HttpRequest(m.0, t.0, v.0, rest.0, rest.1)
  }

  /** The parser as it is written: loops over the lines of a stream. */
  method ParseRequest(raw: string) returns (req: HttpRequest)
    ensures req == Parsed(raw)
  {
    req := NO_REQUEST;
    if raw == "" {
      return;
    }
    var line, iss := StripCr(Before(raw, LF)), After(raw, LF);
    var m := Extract(line);
    var t := Extract(m.1);
    var v := Extract(t.1);
    req := req.(httpMethod := m.0, target := t.0, version := v.0);
    ghost var rest := ParsedRest(iss, map[]);
    assert Parsed(raw) == HttpRequest(m.0, t.0, v.0, rest.0, rest.1);

    while iss != ""
      invariant req == HttpRequest(m.0, t.0, v.0, req.headers, "")
      invariant ParsedRest(iss, req.headers) == rest
      decreases |iss|
    {
      line, iss := StripCr(Before(iss, LF)), After(iss, LF);
      if line == "" {
        req := req.(body := Before(iss, '\0'));
        return;
      }
      var pos := Find(line, ':');
      if pos < |line| {
        var name, value := line[..pos], line[pos + 1..];
        while value != "" && IsBlank(value[0])
          invariant TrimBlanks(value) == TrimBlanks(line[pos + 1..])
          decreases |value|
        {
          value := value[1..];
        }
        req := req.(headers := req.headers[name := value]);
      }
    }
  }

  // ---------------------------------------------------------------- What the parser can return

  predicate CleanName(name: string) {
    ':' !in name && LF !in name
  }

  predicate CleanValue(value: string) {
    LF !in value && (value == "" || !IsBlank(value[0]))
  }

  predicate CleanHeaders(headers: Headers) {
    forall k :: k in headers ==> CleanName(k) && CleanValue(headers[k])
  }

  predicate Canonical(r: HttpRequest) {
    && IsWord(r.httpMethod) && IsWord(r.target) && IsWord(r.version)
    && (r.httpMethod == "" ==> r.target == "")
    && (r.target == "" ==> r.version == "")
    && CleanHeaders(r.headers)
    && '\0' !in r.body
  }

  lemma {:induction false} TrimKeeps(s: string, c: char)
    requires c !in s
    ensures c !in TrimBlanks(s)
  {
    if s != "" && IsBlank(s[0]) {
      TrimKeeps(s[1..], c);
    }
  }

  lemma {:induction false} RestIsClean(s: string, headers: Headers)
    requires CleanHeaders(headers)
    ensures CleanHeaders(ParsedRest(s, headers).0)
    ensures '\0' !in ParsedRest(s, headers).1
    decreases |s|
  {
    if s != "" {
      var line, rest := StripCr(Before(s, LF)), After(s, LF);
      if line != "" {
        var pos := Find(line, ':');
        assert LF !in line;
        if pos < |line| {
          TrimKeeps(line[pos + 1..], LF);
        }
        RestIsClean(rest, WithLine(headers, line));
      }
    }
  }

  /** The parser returns canonical requests only, whatever bytes it is given. */
  lemma ParsedIsCanonical(raw: string)
    ensures Canonical(Parsed(raw))
  {
    if raw != "" {
      RestIsClean(After(raw, LF), map[]);
    }
  }

  // ---------------------------------------------------------------- Round trip

  /** The header map that field lines build up. */
  function Inserted(headers: Headers, fs: seq<Field>): Headers
    decreases |fs|
  {
    if fs == [] then headers else Inserted(headers[fs[0].0 := fs[0].1], fs[1..])
  }

  predicate CleanFields(fs: seq<Field>) {
    forall f :: f in fs ==> CleanName(f.0) && CleanValue(f.1)
  }

  lemma SplitAtColon(headers: Headers, name: string, behind: string)
    requires ':' !in name
    ensures WithLine(headers, name + [':'] + behind) == headers[name := TrimBlanks(behind)]
  {
    var line := name + [':'] + behind;
    FindBehind(name, ':', behind);
    assert line[..|name|] == name && line[|name| + 1..] == behind;
  }

  lemma TrimOne(value: string)
    requires CleanValue(value)
    ensures TrimBlanks(" " + value) == value
  {
    assert (" " + value)[1..] == value;
  }

  lemma LineRoundTrip(headers: Headers, f: Field)
    requires CleanName(f.0) && CleanValue(f.1)
    ensures WithLine(headers, FieldLine(f)) == headers[f.0 := f.1]
  {
    assert FieldLine(f) == f.0 + [':'] + (" " + f.1);
    SplitAtColon(headers, f.0, " " + f.1);
    TrimOne(f.1);
  }

  lemma LineIsOneLine(f: Field)
    requires CleanName(f.0) && CleanValue(f.1)
    ensures LF !in FieldLine(f) && FieldLine(f) != ""
  {
  }

  /** Printed fields, a blank line and a body are read back as those fields and the body. */
  lemma {:induction false} FieldsRoundTrip(fs: seq<Field>, body: string, headers: Headers)
    requires CleanFields(fs) && '\0' !in body
    ensures ParsedRest(PrintFields(fs) + CRLF + body, headers) == (Inserted(headers, fs), body)
    decreases |fs|
  {
    if fs == [] {
      assert PrintFields(fs) + CRLF + body == "" + CRLF + body;
      ReadLine("", body);
      FindNothing(body, '\0');
    } else {
      var line, rest := FieldLine(fs[0]), PrintFields(fs[1..]) + CRLF + body;
      assert fs[0] in fs;
      LineRoundTrip(headers, fs[0]);
      LineIsOneLine(fs[0]);
      assert PrintFields(fs) + CRLF + body == line + CRLF + rest;
      ReadLine(line, rest);
      FieldsRoundTrip(fs[1..], body, headers[fs[0].0 := fs[0].1]);
    }
  }

  lemma InsertedCons(headers: Headers, f: Field, fs: seq<Field>)
    ensures Inserted(headers, [f] + fs) == Inserted(headers[f.0 := f.1], fs)
  {
    assert ([f] + fs)[1..] == fs;
  }

  lemma AddedEntry(headers: Headers, more: Headers, k: string)
    requires k in more
    ensures headers[k := more[k]] + (more - {k}) == headers + more
  {
  }

  /** Inserting the entries of a map in any header map adds exactly that map. */
  lemma {:induction false} InsertedFieldsOf(headers: Headers, more: Headers)
    ensures Inserted(headers, FieldsOf(more)) == headers + more
    decreases |more|
  {
    if more == map[] {
      assert headers + more == headers;
    } else {
      LeastExists(more.Keys);
      var k :| IsLeast(k, more.Keys);
      FieldsOfStep(more, k);
      InsertedCons(headers, (k, more[k]), FieldsOf(more - {k}));
      InsertedFieldsOf(headers[k := more[k]], more - {k});
      AddedEntry(headers, more, k);
    }
  }

  lemma FieldsOfAreClean(headers: Headers)
    requires CleanHeaders(headers)
    ensures CleanFields(FieldsOf(headers))
  {
    FieldsOfListsEntries(headers);
  }

  /** A printed request line is read back as its three words. */
  lemma RequestLine(m: string, t: string, v: string)
    requires IsWord(m) && IsWord(t) && IsWord(v)
    requires (m == "" ==> t == "") && (t == "" ==> v == "")
    ensures var x := Extract(m + " " + t + " " + v);
            var y := Extract(x.1);
            x.0 == m && y.0 == t && Extract(y.1).0 == v
  {
    var line := m + " " + t + " " + v;
    if m == "" {
      assert line == "  " && " " + " " == "  ";
      ExtractSkips(" ");
      OnlySpace();
    } else {
      var tail := " " + v;
      assert line == m + (" " + (t + tail));
      ExtractWord(m, " " + (t + tail));
      ExtractSkips(t + tail);
      if t == "" {
        assert t + tail == " ";
        OnlySpace();
      } else {
        ExtractWord(t, tail);
        ExtractSkips(v);
        OneWord(v);
      }
    }
  }

  lemma OnlySpace()
    ensures Extract(" ") == Extract("") == ("", "")
  {
    assert " "[1..] == "";
  }

  lemma OneWord(v: string)
    requires IsWord(v)
    ensures Extract(v).0 == v
  {
    assert v + "" == v;
    if v != "" {
      ExtractWord(v, "");
    }
  }

  lemma ParsedSplit(line: string, rest: string)
    requires LF !in line
    ensures var m := Extract(line); var t := Extract(m.1); var r := ParsedRest(rest, map[]);
            Parsed(line + CRLF + rest) == HttpRequest(m.0, t.0, Extract(t.1).0, r.0, r.1)
  {
    ReadLine(line, rest);
  }

  /** Three words, clean fields and a body are read back as they were written. */
  lemma MessageParses(m: string, t: string, v: string, fs: seq<Field>, body: string)
    requires IsWord(m) && IsWord(t) && IsWord(v)
    requires (m == "" ==> t == "") && (t == "" ==> v == "")
    requires CleanFields(fs) && '\0' !in body
    ensures Parsed(m + " " + t + " " + v + CRLF + (PrintFields(fs) + CRLF + body))
         == HttpRequest(m, t, v, Inserted(map[], fs), body)
  {
    ParsedSplit(m + " " + t + " " + v, PrintFields(fs) + CRLF + body);
    RequestLine(m, t, v);
    FieldsRoundTrip(fs, body, map[]);
  }

  lemma PrintedParses(r: HttpRequest)
    requires Canonical(r)
    ensures Parsed(Printed(r)) == r
  {
    FieldsOfAreClean(r.headers);
    MessageParses(r.httpMethod, r.target, r.version, FieldsOf(r.headers), r.body);
    InsertedFieldsOf(map[], r.headers);
    assert map[] + r.headers == r.headers;
  }

  /** Printing and parsing gives the request back exactly when it is canonical. */
  lemma RoundTrip(r: HttpRequest)
    ensures Parsed(Printed(r)) == r <==> Canonical(r)
  {
    ParsedIsCanonical(Printed(r));
    if Canonical(r) {
      PrintedParses(r);
    }
  }

  /** For every byte string, parsing, printing and parsing again is parsing once. */
  lemma NormalForm(raw: string)
    ensures Parsed(Printed(Parsed(raw))) == Parsed(raw)
  {
    ParsedIsCanonical(raw);
    PrintedParses(Parsed(raw));
  }

  // ---------------------------------------------------------------- Messages that were not printed here

  /** Lines of any content, each ended by a line feed; a carriage return before it belongs to the line. */
  function PrintLines(lines: seq<string>): string {
    if lines == [] then "" else lines[0] + [LF] + PrintLines(lines[1..])
  }

  function WithLines(headers: Headers, lines: seq<string>): Headers
    decreases |lines|
  {
    if lines == [] then headers else WithLines(WithLine(headers, lines[0]), lines[1..])
  }

  /** The lines without the carriage return that may end them. */
  function Stripped(lines: seq<string>): seq<string> {
    if lines == [] then [] else [StripCr(lines[0])] + Stripped(lines[1..])
  }

  lemma NextLine(line: string, rest: string)
    requires LF !in line
    ensures Before(line + [LF] + rest, LF) == line && After(line + [LF] + rest, LF) == rest
  {
    FindBehind(line, LF, rest);
  }

  lemma HeaderLine(line: string, rest: string, headers: Headers)
    requires LF !in line && line != "" && line != "\r"
    ensures ParsedRest(line + [LF] + rest, headers) == ParsedRest(rest, WithLine(headers, StripCr(line)))
  {
    NextLine(line, rest);
  }

  /**
   Whatever the lines before the blank one are, and whether they end in CR LF or in LF alone,
   they are taken one by one, and the body is the text up to the first NUL.
   */
  lemma {:induction false} LinesParse(lines: seq<string>, blank: string, body: string, headers: Headers)
    requires forall i :: 0 <= i < |lines| ==> LF !in lines[i] && lines[i] != "" && lines[i] != "\r"
    requires blank == "" || blank == "\r"
    ensures ParsedRest(PrintLines(lines) + blank + [LF] + body, headers)
         == (WithLines(headers, Stripped(lines)), Before(body, '\0'))
    decreases |lines|
  {
    if lines == [] {
      assert PrintLines(lines) + blank + [LF] + body == blank + [LF] + body;
      NextLine(blank, body);
      StripsOne("");
      assert "" + "\r" == "\r";
    } else {
      var rest := PrintLines(lines[1..]) + blank + [LF] + body;
      assert PrintLines(lines) + blank + [LF] + body == lines[0] + [LF] + rest;
      HeaderLine(lines[0], rest, headers);
      LinesParse(lines[1..], blank, body, WithLine(headers, StripCr(lines[0])));
    }
  }

  /** Without a blank line, whatever there is counts as header lines, the unfinished last one too, and the body is empty. */
  lemma {:induction false} UnfinishedParses(lines: seq<string>, last: string, headers: Headers)
    requires forall i :: 0 <= i < |lines| ==> LF !in lines[i] && lines[i] != "" && lines[i] != "\r"
    requires LF !in last
    ensures ParsedRest(PrintLines(lines) + last, headers)
         == (WithLine(WithLines(headers, Stripped(lines)), StripCr(last)), "")
    decreases |lines|
  {
    if lines == [] {
      assert PrintLines(lines) + last == last;
      LastLineParses(last, headers);
    } else {
      var rest := PrintLines(lines[1..]) + last;
      assert PrintLines(lines) + last == lines[0] + [LF] + rest;
      HeaderLine(lines[0], rest, headers);
      UnfinishedParses(lines[1..], last, WithLine(headers, StripCr(lines[0])));
    }
  }

  lemma LastLineParses(last: string, headers: Headers)
    requires LF !in last
    ensures ParsedRest(last, headers) == (WithLine(headers, StripCr(last)), "")
  {
    FindNothing(last, LF);
    assert ParsedRest("", WithLine(headers, StripCr(last))).1 == "" == Before("", '\0');
  }

  predicate Spaces(s: string) {
    forall c :: c in s ==> IsSpace(c) && c != LF
  }

  /** A request line may have any white space before, between and behind its words. */
  lemma SpacedWords(a: string, m: string, b: string, t: string, c: string, v: string, d: string)
    requires IsWord(m) && IsWord(t) && IsWord(v) && m != "" && t != "" && v != ""
    requires Spaces(a) && Spaces(b) && Spaces(c) && Spaces(d) && b != "" && c != ""
    ensures var x := Extract(a + m + (b + t + (c + v + d)));
            var y := Extract(x.1);
            x.0 == m && y.0 == t && Extract(y.1).0 == v
  {
    ExtractSpaced(a, m, b + t + (c + v + d));
    ExtractSpaced(b, t, c + v + d);
    ExtractSpaced(c, v, d);
  }

  /**
   A whole message of any origin: three words, header lines, a blank line and a body, each line
   ended by CR LF or by LF alone.
   */
  lemma AnyMessageParses(a: string, m: string, b: string, t: string, c: string, v: string, cr: string,
                         lines: seq<string>, blank: string, body: string)
    requires IsWord(m) && IsWord(t) && IsWord(v) && m != "" && t != "" && v != ""
    requires Spaces(a) && Spaces(b) && Spaces(c) && b != "" && c != ""
    requires cr == "" || cr == "\r"
    requires forall i :: 0 <= i < |lines| ==> LF !in lines[i] && lines[i] != "" && lines[i] != "\r"
    requires blank == "" || blank == "\r"
    ensures Parsed(a + m + (b + t + (c + v + "")) + cr + [LF] + (PrintLines(lines) + blank + [LF] + body))
         == HttpRequest(m, t, v, WithLines(map[], Stripped(lines)), Before(body, '\0'))
  {
    var line := a + m + (b + t + (c + v + ""));
    SpacedLine(a, m, b, t, c, v);
    SpacedWords(a, m, b, t, c, v, "");
    LinesParse(lines, blank, body, map[]);
    AnyLine(line, cr, PrintLines(lines) + blank + [LF] + body);
  }

  lemma NoLineFeed(spaces: string, word: string, rest: string)
    requires Spaces(spaces) && IsWord(word) && LF !in rest
    ensures LF !in spaces + word + rest
  {
    assert IsSpace(LF);
  }

  lemma SpacedLine(a: string, m: string, b: string, t: string, c: string, v: string)
    requires IsWord(m) && IsWord(t) && IsWord(v) && v != "" && Spaces(a) && Spaces(b) && Spaces(c)
    ensures var line := a + m + (b + t + (c + v + ""));
            LF !in line && StripCr(line) == line && StripCr(line + "\r") == line
  {
    var line := a + m + (b + t + (c + v + ""));
    NoLineFeed(c, v, "");
    NoLineFeed(b, t, c + v + "");
    NoLineFeed(a, m, b + t + (c + v + ""));
    assert line == a + m + b + t + c + v;
    EndsInWord(line, v);
    StripsOne(line);
  }

  lemma AnyLine(line: string, cr: string, rest: string)
    requires LF !in line && (cr == "" || cr == "\r") && StripCr(line) == line && StripCr(line + "\r") == line
    ensures var m := Extract(line); var t := Extract(m.1); var r := ParsedRest(rest, map[]);
            Parsed(line + cr + [LF] + rest) == HttpRequest(m.0, t.0, Extract(t.1).0, r.0, r.1)
  {
    NextLine(line + cr, rest);
    assert line + "" == line;
  }

  lemma EndsInWord(line: string, v: string)
    requires IsWord(v) && v != "" && |v| <= |line| && line[|line| - |v|..] == v
    ensures line[|line| - 1] != '\r'
  {
    assert line[|line| - 1] == v[|v| - 1] && v[|v| - 1] in v;
  }

  /** The value of the last line that has a colon right behind the name. */
  function LastValue(lines: seq<string>, name: string): (bool, string) {
    if lines == [] then (false, "")
    else
      var last := lines[|lines| - 1];
      var pos := Find(last, ':');
      if pos < |last| && last[..pos] == name then (true, TrimBlanks(last[pos + 1..]))
      else LastValue(lines[..|lines| - 1], name)
  }

  lemma {:induction false} WithLinesAppend(headers: Headers, lines: seq<string>, line: string)
    ensures WithLines(headers, lines + [line]) == WithLine(WithLines(headers, lines), line)
    decreases |lines|
  {
    if lines == [] {
      assert (lines + [line])[1..] == [];
    } else {
      assert (lines + [line])[1..] == lines[1..] + [line];
      WithLinesAppend(WithLine(headers, lines[0]), lines[1..], line);
    }
  }

  /** A header is there exactly when some line names it, with the value of the last such line; lines without a colon count for nothing. */
  lemma {:induction false} LastLineWins(lines: seq<string>, name: string)
    ensures var headers := WithLines(map[], lines);
            var (found, value) := LastValue(lines, name);
            (name in headers <==> found) && (found ==> headers[name] == value)
    decreases |lines|
  {
    if lines != [] {
      var front, last := lines[..|lines| - 1], lines[|lines| - 1];
      assert lines == front + [last];
      WithLinesAppend(map[], front, last);
      LastLineWins(front, name);
    }
  }
}
