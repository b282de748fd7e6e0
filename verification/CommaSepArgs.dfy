/**
 The tokeniser of `parseCommaSepArgs` in tests/thirdparty/doctest/doctest.h: it splits an
 option value at commas, a backslash escaping a comma or a backslash. It is proved to undo
 the escaping, and to undo it exactly for lists without an empty token.
 */
module CommaSepArgs {

  /** The tokeniser between two characters: the flag, the open token, the tokens so far. */
  datatype State = State(seenBackslash: bool, token: string, res: seq<string>)

  /** `flush`: an empty token leaves no trace. */
  function Flushed(st: State): State {
    st.(token := "", res := st.res + (if st.token == "" then [] else [st.token]))
  }

  function Put(st: State, c: char): State {
    st.(token := st.token + [c])
  }

  function Step(st: State, c: char): State {
    if st.seenBackslash && (c == ',' || c == '\\') then Put(st, c).(seenBackslash := false)
    else
      var st := if st.seenBackslash then Put(st, '\\').(seenBackslash := false) else st;
      if c == '\\' then st.(seenBackslash := true)
      else if c == ',' then Flushed(st)
      else Put(st, c)
  }

  function Run(st: State, input: string): State
    decreases |input|
  {
    if input == "" then st else Run(Step(st, input[0]), input[1..])
  }

  function Finish(st: State): seq<string> {
    Flushed(if st.seenBackslash then Put(st, '\\') else st).res
  }

  /** The tokens of a value. */
  function Tokens(input: string): seq<string> {
    Finish(Run(State(false, "", []), input))
  }

  /** The loop of the source; `res` grows by the tokens of the value. */
  method ParseCommaSepArgs(filters: string, before: seq<string>) returns (res: seq<string>)
    ensures res == before + Tokens(filters)
  {
    res := before;
    var s := "";
    var seenBackslash := false;
    var current := 0;
    assert filters[0..] == filters;
    while current != |filters|
      invariant current <= |filters|
      invariant Run(State(seenBackslash, s, res), filters[current..])
             == Run(State(false, "", before), filters)
    {
      var character := filters[current];
      ghost var next := Step(State(seenBackslash, s, res), character);
      assert filters[current..][1..] == filters[current + 1..];
      current := current + 1;
      if seenBackslash {
        seenBackslash := false;
        if character == ',' || character == '\\' {
          s := s + [character];
          continue;
        }
        s := s + ['\\'];
      }
      if character == '\\' {
        seenBackslash := true;
      } else if character == ',' {
        if s != "" {
          res := res + [s];
        }
        s := "";
      } else {
        s := s + [character];
      }
      assert State(seenBackslash, s, res) == next;
    }
    ghost var last := State(seenBackslash, s, res);
    if seenBackslash {
      s := s + ['\\'];
    }
    if s != "" {
      res := res + [s];
    }
    assert res == Finish(last);
    AppendsTo(before, State(false, "", []), filters);
    assert before + [] == before;
  }

  // ---------------------------------------------------------------- Escaping and joining

  function Escape(token: string): string {
    if token == "" then ""
    else (if token[0] == ',' || token[0] == '\\' then ['\\', token[0]] else [token[0]]) + Escape(token[1..])
  }

  function Join(tokens: seq<string>): string {
    if tokens == [] then ""
    else if |tokens| == 1 then Escape(tokens[0])
    else Escape(tokens[0]) + "," + Join(tokens[1..])
  }

  function NonEmpty(tokens: seq<string>): seq<string> {
    if tokens == [] then []
    else (if tokens[0] == "" then [] else [tokens[0]]) + NonEmpty(tokens[1..])
  }

  // ---------------------------------------------------------------- Properties

  lemma {:induction false} RunConcat(st: State, a: string, b: string)
    ensures Run(st, a + b) == Run(Run(st, a), b)
    decreases |a|
  {
    if a == "" {
      assert a + b == b;
    } else {
      assert (a + b)[1..] == a[1..] + b;
      RunConcat(Step(st, a[0]), a[1..], b);
    }
  }

  /** Tokens already found do not influence the rest. */
  lemma {:induction false} AppendsTo(before: seq<string>, st: State, input: string)
    ensures Run(st.(res := before + st.res), input) == Run(st, input).(res := before + Run(st, input).res)
    ensures Finish(Run(st.(res := before + st.res), input)) == before + Finish(Run(st, input))
    decreases |input|
  {
    if input != "" {
      var st' := Step(st, input[0]);
      assert Step(st.(res := before + st.res), input[0]) == st'.(res := before + st'.res);
      AppendsTo(before, st', input[1..]);
    }
  }

  lemma RunHead(c: char, partial: string, res: seq<string>)
    ensures Run(State(false, partial, res), if c == ',' || c == '\\' then ['\\', c] else [c])
         == State(false, partial + [c], res)
  {
    var st := State(false, partial, res);
    if c == ',' || c == '\\' {
      var head := ['\\', c];
      assert head[1..] == [c] && head[1..][1..] == "";
      assert Run(st, head) == Run(Step(st, '\\'), head[1..]);
      assert Run(Step(st, '\\'), [c]) == Step(Step(st, '\\'), c);
    } else {
      assert [c][1..] == "";
    }
  }

  /** Reading an escaped token puts exactly that token into the open one. */
  lemma {:induction false} RunEscaped(token: string, partial: string, res: seq<string>)
    ensures Run(State(false, partial, res), Escape(token)) == State(false, partial + token, res)
    decreases |token|
  {
    if token == "" {
      assert partial + token == partial;
    } else {
      var head := if token[0] == ',' || token[0] == '\\' then ['\\', token[0]] else [token[0]];
      RunConcat(State(false, partial, res), head, Escape(token[1..]));
      RunHead(token[0], partial, res);
      RunEscaped(token[1..], partial + [token[0]], res);
      assert partial + [token[0]] + token[1..] == partial + token;
    }
  }

  lemma {:induction false} RunJoined(tokens: seq<string>, res: seq<string>)
    ensures Finish(Run(State(false, "", res), Join(tokens))) == res + NonEmpty(tokens)
    decreases |tokens|
  {
    if tokens != [] {
      var escaped := Escape(tokens[0]);
      RunEscaped(tokens[0], "", res);
      assert "" + tokens[0] == tokens[0];
      if |tokens| > 1 {
        var st := State(false, tokens[0], res);
        RunConcat(State(false, "", res), escaped, "," + Join(tokens[1..]));
        assert escaped + "," + Join(tokens[1..]) == escaped + ("," + Join(tokens[1..]));
        assert ("," + Join(tokens[1..]))[1..] == Join(tokens[1..]);
        RunJoined(tokens[1..], Flushed(st).res);
      } else {
        assert NonEmpty(tokens[1..]) == [];
      }
    }
  }

  /** For every list of tokens, what comes back is the list without its empty tokens. */
  lemma JoinedTokens(tokens: seq<string>)
    ensures Tokens(Join(tokens)) == NonEmpty(tokens)
  {
    RunJoined(tokens, []);
  }

  lemma {:induction false} NonEmptyKeepsAll(tokens: seq<string>)
    ensures |NonEmpty(tokens)| <= |tokens|
    ensures NonEmpty(tokens) == tokens <==> "" !in tokens
  {
    if tokens != [] {
      NonEmptyKeepsAll(tokens[1..]);
      assert tokens == [tokens[0]] + tokens[1..];
    }
  }

  /** The round trip holds exactly for the lists without an empty token. */
  lemma RoundTrip(tokens: seq<string>)
    ensures Tokens(Join(tokens)) == tokens <==> "" !in tokens
  {
    JoinedTokens(tokens);
    NonEmptyKeepsAll(tokens);
  }

  lemma {:induction false} TokensAreNonEmpty(st: State, input: string)
    requires "" !in st.res
    ensures "" !in Finish(Run(st, input))
    decreases |input|
  {
    if input != "" {
      TokensAreNonEmpty(Step(st, input[0]), input[1..]);
    }
  }

  /** Whatever the value was, escaping and joining its tokens denotes the same tokens. */
  lemma NormalForm(input: string)
    ensures Tokens(Join(Tokens(input))) == Tokens(input)
  {
    TokensAreNonEmpty(State(false, "", []), input);
    RoundTrip(Tokens(input));
  }

  predicate NothingSpecial(input: string) {
    ',' !in input && '\\' !in input
  }

  lemma {:induction false} OrdinaryRun(input: string, partial: string, res: seq<string>)
    requires NothingSpecial(input)
    ensures Run(State(false, partial, res), input) == State(false, partial + input, res)
    decreases |input|
  {
    if input == "" {
      assert partial + input == partial;
    } else {
      OrdinaryRun(input[1..], partial + [input[0]], res);
      assert partial + [input[0]] + input[1..] == partial + input;
    }
  }

  lemma OrdinaryToken(a: string, rest: string)
    requires NothingSpecial(a)
    ensures Run(State(false, "", []), a + rest) == Run(State(false, a, []), rest)
  {
    OrdinaryRun(a, "", []);
    RunConcat(State(false, "", []), a, rest);
    assert "" + a == a;
  }

  /** A comma ends a token, unless the token is empty. */
  lemma CommaEndsToken(a: string, rest: string)
    requires NothingSpecial(a)
    ensures Tokens(a + [','] + rest) == (if a == "" then [] else [a]) + Tokens(rest)
  {
    var res := if a == "" then [] else [a];
    var input := [','] + rest;
    assert a + [','] + rest == a + input && input[1..] == rest && input[0] == ',';
    OrdinaryToken(a, input);
    assert Step(State(false, a, []), ',') == State(false, "", res) == State(false, "", res + []);
    AppendsTo(res, State(false, "", []), rest);
  }

  /** An escaped comma or backslash is one character of the token. */
  lemma EscapedCharacter(a: string, c: char, b: string)
    requires NothingSpecial(a) && NothingSpecial(b) && (c == ',' || c == '\\')
    ensures Tokens(a + ['\\', c] + b) == [a + [c] + b]
  {
    var pair := ['\\', c];
    assert a + pair + b == a + (pair + b);
    OrdinaryToken(a, pair + b);
    RunConcat(State(false, a, []), pair, b);
    RunHead(c, a, []);
    OrdinaryRun(b, a + [c], []);
  }

  /** No comma, and no backslash that escapes another one. */
  predicate Plain(input: string) {
    ',' !in input && forall i :: 0 <= i < |input| - 1 ==> !(input[i] == '\\' && input[i + 1] == '\\')
  }

  /** The open token, with a backslash that turned out to escape nothing. */
  function Open(st: State): string {
    st.token + (if st.seenBackslash then "\\" else "")
  }

  lemma {:induction false} PlainRun(st: State, input: string)
    requires Plain(input) && (st.seenBackslash && input != "" ==> input[0] != '\\')
    ensures Finish(Run(st, input)) == st.res + NonEmpty([Open(st) + input])
    decreases |input|
  {
    if input != "" {
      assert input[0] in input;
      assert Plain(input[1..]) by {
        forall i | 0 <= i < |input[1..]| - 1
          ensures !(input[1..][i] == '\\' && input[1..][i + 1] == '\\')
        {
          assert input[1..][i] == input[i + 1] && input[1..][i + 1] == input[i + 2];
        }
      }
      var next := Step(st, input[0]);
      PlainRun(next, input[1..]);
      assert Open(next) == Open(st) + [input[0]];
      assert Open(st) + input == Open(next) + input[1..];
    } else {
      assert Open(st) + input == Open(st) == if st.seenBackslash then st.token + ['\\'] else st.token;
      assert [Open(st)][1..] == [] && NonEmpty([]) == [];
      assert NonEmpty([Open(st)]) == (if Open(st) == "" then [] else [Open(st)]) + NonEmpty([Open(st)][1..]);
    }
  }

  /** A backslash that escapes nothing is kept: plain text is one token, itself. */
  lemma PlainIsOneToken(input: string)
    requires Plain(input)
    ensures Tokens(input) == NonEmpty([input])
  {
    PlainRun(State(false, "", []), input);
    assert "" + input == input;
  }
}
