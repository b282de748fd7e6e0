/**
 The string and stream operations the HTTP layer is written with. A `char` stands for
 a byte; an input stream is what is left to read of it.
 */
module Text {

  const CR := '\r'
  const LF := '\n'
  const CRLF := "\r\n"

  /** The index of the first `c`, or the length when there is none. */
  function Find(s: string, c: char): (i: nat)
    ensures i <= |s| && c !in s[..i] && (i < |s| ==> s[i] == c)
  {
    FindFrom(s, c, 0)
  }

  function FindFrom(s: string, c: char, from: nat): (i: nat)
    requires from <= |s| && c !in s[..from]
    ensures i <= |s| && c !in s[..i] && (i < |s| ==> s[i] == c)
    decreases |s| - from
  {
    if from == |s| || s[from] == c then from
    else
      assert s[..from + 1] == s[..from] + [s[from]];
      FindFrom(s, c, from + 1)
  }

  /** What `std::getline(stream, line, delimiter)` stores: the text before the delimiter. */
  function Before(s: string, delimiter: char): string {
    s[..Find(s, delimiter)]
  }

  /** What it leaves unread: the text behind the delimiter, which is dropped. */
  function After(s: string, delimiter: char): (rest: string)
    ensures s != "" ==> |rest| < |s|
  {
    if Find(s, delimiter) < |s| then s[Find(s, delimiter) + 1..] else ""
  }

  /** Drops one carriage return at the end. */
  function StripCr(line: string): string {
    if line != "" && line[|line| - 1] == CR then line[..|line| - 1] else line
  }

  predicate IsBlank(c: char) {
    c == ' ' || c == '\t'
  }

  /** `isspace` in the C locale. */
  predicate IsSpace(c: char) {
    c == ' ' || '\t' <= c <= '\r'
  }

  /** `tolower` in the C locale. */
  function LowerCase(c: char): char {
    if 'A' <= c <= 'Z' then (c as int + 32) as char else c
  }

  /** Field names are compared without regard to case. */
  predicate SameName(a: string, b: string) {
    |a| == |b| && forall i :: 0 <= i < |a| ==> LowerCase(a[i]) == LowerCase(b[i])
  }

  predicate IsWord(s: string) {
    forall c :: c in s ==> !IsSpace(c)
  }

  function TrimBlanks(s: string): (r: string)
    ensures r == "" || !IsBlank(r[0])
  {
    if s != "" && IsBlank(s[0]) then TrimBlanks(s[1..]) else s
  }

  function SkipSpaces(s: string): (r: string)
    ensures |r| <= |s| && (r != "" ==> !IsSpace(r[0]))
  {
    if s != "" && IsSpace(s[0]) then SkipSpaces(s[1..]) else s
  }

  function WordLength(s: string): (n: nat)
    ensures n <= |s| && IsWord(s[..n]) && (n < |s| ==> IsSpace(s[n]))
  {
    if s == "" || IsSpace(s[0]) then 0
    else
      var n := 1 + WordLength(s[1..]);
      assert s[..n] == [s[0]] + s[1..][..n - 1];
      n
  }

  /** `stream >> word`: the next word and what is left behind it. */
  function Extract(s: string): (r: (string, string))
    ensures IsWord(r.0)
    ensures r.0 == "" ==> r.1 == ""
  {
    var t := SkipSpaces(s);
    (t[..WordLength(t)], t[WordLength(t)..])
  }

  // ---------------------------------------------------------------- Facts

  /** A delimiter that does not occur in `a` is found behind it. */
  lemma FindBehind(a: string, c: char, rest: string)
    requires c !in a
    ensures Find(a + [c] + rest, c) == |a|
    ensures Before(a + [c] + rest, c) == a && After(a + [c] + rest, c) == rest
  {
    var s := a + [c] + rest;
    assert s[..|a|] == a && s[|a| + 1..] == rest;
    FindIs(s, c, |a|);
  }

  lemma FindIs(s: string, c: char, i: nat)
    requires i <= |s| && c !in s[..i] && (i < |s| ==> s[i] == c)
    ensures Find(s, c) == i
  {
    FindFromIs(s, c, 0, i);
  }

  lemma {:induction false} FindFromIs(s: string, c: char, from: nat, i: nat)
    requires from <= i <= |s| && c !in s[..i] && (i < |s| ==> s[i] == c)
    ensures c !in s[..from] && FindFrom(s, c, from) == i
    decreases i - from
  {
    assert s[..i] == s[..from] + s[from..i];
    if from < i {
      assert s[from] in s[..i];
      FindFromIs(s, c, from + 1, i);
    }
  }

  lemma FindNothing(a: string, c: char)
    requires c !in a
    ensures Find(a, c) == |a| && Before(a, c) == a && After(a, c) == ""
  {
  }

  /** A line that ends in CR LF is read back without either. */
  lemma ReadLine(line: string, rest: string)
    requires LF !in line
    ensures Find(line + CRLF + rest, LF) < |line + CRLF + rest|
    ensures StripCr(Before(line + CRLF + rest, LF)) == line
    ensures After(line + CRLF + rest, LF) == rest
  {
    assert line + CRLF + rest == (line + [CR]) + [LF] + rest;
    FindBehind(line + [CR], LF, rest);
  }

  /** A word with white space or nothing behind it is extracted whole. */
  lemma {:induction false} ExtractWord(word: string, rest: string)
    requires IsWord(word) && word != "" && (rest == "" || IsSpace(rest[0]))
    ensures Extract(word + rest) == (word, rest)
  {
    WordEnds(word, rest);
    assert (word + rest)[..|word|] == word && (word + rest)[|word|..] == rest;
  }

  lemma {:induction false} WordEnds(word: string, rest: string)
    requires IsWord(word) && (rest == "" || IsSpace(rest[0]))
    ensures WordLength(word + rest) == |word|
  {
    if word == "" {
      assert word + rest == rest;
    } else {
      assert (word + rest)[1..] == word[1..] + rest;
      WordEnds(word[1..], rest);
    }
  }

  lemma ExtractSkips(s: string)
    ensures Extract(" " + s) == Extract(s)
  {
    assert (" " + s)[1..] == s;
  }

  // ---------------------------------------------------------------- Which characters

  const CAPITALS := "ABCDEFGHIJKLMNOPQRSTUVWXYZ"
  const SMALL_LETTERS := "abcdefghijklmnopqrstuvwxyz"

  /** Capitals have the small letter of the same place, and nothing else is changed. */
  lemma CaseFolds(c: char, i: nat)
    requires i < 26
    ensures |CAPITALS| == |SMALL_LETTERS| == 26 && LowerCase(CAPITALS[i]) == SMALL_LETTERS[i]
    ensures c !in CAPITALS ==> LowerCase(c) == c
  {
    if 'A' <= c <= 'Z' {
      assert CAPITALS[c as int - 'A' as int] == c;
    }
  }

  /** Blank, tab, line feed, vertical tab, form feed and carriage return; of these, two are blanks. */
  lemma WhiteSpace(c: char)
    ensures IsSpace(c) <==> c in " \t\n\r" || c as int == 11 || c as int == 12
    ensures IsBlank(c) <==> c in " \t"
  {
  }

  /** One carriage return goes, at the end and nowhere else. */
  lemma StripsOne(line: string)
    ensures StripCr(line + "\r") == line
    ensures (line == "" || line[|line| - 1] != '\r') ==> StripCr(line) == line
  {
    assert (line + "\r")[..|line|] == line;
  }

  /** All leading blanks and tabs go, and nothing else. */
  lemma {:induction false} TrimsAll(blanks: string, value: string)
    requires forall c :: c in blanks ==> c == ' ' || c == '\t'
    requires value == "" || (value[0] != ' ' && value[0] != '\t')
    ensures TrimBlanks(blanks + value) == value
  {
    if blanks == "" {
      assert blanks + value == value;
    } else {
      assert blanks[0] in blanks && forall c :: c in blanks[1..] ==> c in blanks;
      assert (blanks + value)[1..] == blanks[1..] + value;
      TrimsAll(blanks[1..], value);
    }
  }

  lemma {:induction false} SkipsAll(spaces: string, rest: string)
    requires (forall c :: c in spaces ==> IsSpace(c)) && (rest == "" || !IsSpace(rest[0]))
    ensures SkipSpaces(spaces + rest) == rest
  {
    if spaces == "" {
      assert spaces + rest == rest;
    } else {
      assert (spaces + rest)[1..] == spaces[1..] + rest;
      SkipsAll(spaces[1..], rest);
    }
  }

  /** A word is extracted from behind any white space. */
  lemma ExtractSpaced(spaces: string, word: string, rest: string)
    requires forall c :: c in spaces ==> IsSpace(c)
    requires IsWord(word) && word != "" && (rest == "" || IsSpace(rest[0]))
    ensures Extract(spaces + word + rest) == (word, rest)
  {
    assert !IsSpace(word[0]) by { assert word[0] in word; }
    SkipsAll(spaces, word + rest);
    assert spaces + word + rest == spaces + (word + rest);
    WordEnds(word, rest);
    assert (word + rest)[..|word|] == word && (word + rest)[|word|..] == rest;
  }

  // ---------------------------------------------------------------- Order of keys

  /** The order of `std::string`, hence of the keys of a `std::map`. */
  predicate Leq(a: string, b: string) {
    a == "" || (b != "" && (a[0] < b[0] || (a[0] == b[0] && Leq(a[1..], b[1..]))))
  }

  lemma {:induction false} LeqTotal(a: string, b: string)
    ensures Leq(a, b) || Leq(b, a)
    ensures Leq(a, b) && Leq(b, a) ==> a == b
  {
    if a != "" && b != "" && a[0] == b[0] {
      LeqTotal(a[1..], b[1..]);
      assert a == [a[0]] + a[1..] && b == [b[0]] + b[1..];
    }
  }

  /** Texts are ordered by the first character in which they differ, and a beginning comes before the whole. */
  lemma {:induction false} LexicalOrder(p: string, x: char, a: string, y: char, b: string)
    ensures Leq(p, p + [x] + a) && !Leq(p + [x] + a, p)
    ensures x != y ==> (Leq(p + [x] + a, p + [y] + b) <==> x < y)
    decreases |p|
  {
    var v, w := p + [x] + a, p + [y] + b;
    if p != "" {
      assert v[1..] == p[1..] + [x] + a && w[1..] == p[1..] + [y] + b;
      LexicalOrder(p[1..], x, a, y, b);
    }
  }

  lemma {:induction false} LeqTransitive(a: string, b: string, c: string)
    requires Leq(a, b) && Leq(b, c)
    ensures Leq(a, c)
  {
    if a != "" && a[0] == b[0] == c[0] {
      LeqTransitive(a[1..], b[1..], c[1..]);
    }
  }

  ghost predicate IsLeast(k: string, keys: set<string>) {
    k in keys && forall k' :: k' in keys ==> Leq(k, k')
  }

  lemma {:induction false} LeastExists(keys: set<string>)
    requires keys != {}
    ensures exists k :: IsLeast(k, keys)
  {
    var x :| x in keys;
    if keys == {x} {
      LeqTotal(x, x);
      assert IsLeast(x, keys);
    } else {
      LeastExists(keys - {x});
      var y :| IsLeast(y, keys - {x});
      LeqTotal(x, y);
      LeqTotal(x, x);
      if Leq(y, x) {
        assert IsLeast(y, keys);
      } else {
        forall k | k in keys
          ensures Leq(x, k)
        {
          if k != x {
            LeqTransitive(x, y, k);
          }
        }
        assert IsLeast(x, keys);
      }
    }
  }

  lemma LeastIsUnique(a: string, b: string, keys: set<string>)
    requires IsLeast(a, keys) && IsLeast(b, keys)
    ensures a == b
  {
    LeqTotal(a, b);
  }

  // ---------------------------------------------------------------- Decimal numbers

  predicate IsDigit(c: char) {
    '0' <= c <= '9'
  }

  function Digit(d: nat): char
    requires d < 10
  {
    ('0' as int + d) as char
  }

  /** `std::to_string`, and `<<` of an integer. */
  function Decimal(n: int): string
    decreases n < 0, if n < 0 then -n else n
  {
    if n < 0 then "-" + Decimal(-n)
    else if n < 10 then [Digit(n)]
    else Decimal(n / 10) + [Digit(n % 10)]
  }

  predicate IsNumber(s: string) {
    s != "" && forall c :: c in s ==> IsDigit(c)
  }

  function ParseDecimal(s: string): nat
    requires IsNumber(s)
  {
    assert s[|s| - 1] in s;
    var last := s[|s| - 1] as int - '0' as int;
    if |s| == 1 then last else 10 * ParseDecimal(s[..|s| - 1]) + last
  }

  lemma {:induction false} DecimalParses(n: nat)
    ensures IsNumber(Decimal(n)) && ParseDecimal(Decimal(n)) == n
  {
    if n >= 10 {
      DecimalParses(n / 10);
      assert Decimal(n)[..|Decimal(n)| - 1] == Decimal(n / 10);
    }
  }

  /** Numbers of three digits, and the rest. */
  lemma DecimalDigits(n: int)
    ensures IsNumber(Decimal(n)) <==> 0 <= n
    ensures 0 <= n ==> (|Decimal(n)| == 3 <==> 100 <= n <= 999)
  {
    if 0 <= n {
      DecimalParses(n);
      if n >= 10 {
        assert |Decimal(n)| == |Decimal(n / 10)| + 1;
        if n >= 100 {
          assert |Decimal(n / 10)| == |Decimal(n / 10 / 10)| + 1;
          if n >= 1000 {
            assert |Decimal(n / 100)| == |Decimal(n / 100 / 10)| + 1;
            assert n / 10 / 10 == n / 100;
            DecimalParses(n / 1000);
            assert n / 100 / 10 == n / 1000;
          }
        }
      }
    } else {
      assert '-' in Decimal(n) && !IsDigit('-');
    }
  }

  /** A number is one word, and not white space. */
  lemma {:induction false} DecimalIsPlain(n: int)
    ensures Decimal(n) != "" && forall c :: c in Decimal(n) ==> IsDigit(c) || c == '-'
    decreases n < 0, if n < 0 then -n else n
  {
    if n < 0 {
      DecimalIsPlain(-n);
    } else {
      DecimalParses(n);
    }
  }
}
