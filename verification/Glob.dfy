/**
 The wildcard matcher `wildcmp` of tests/thirdparty/doctest/doctest.h.

 The loop remembers a single backtrack point, the most recent `*`. It is proved to decide
 the declarative relation `Matches`, in which a `*` may stand for any stretch of text.
 */
module Glob {
  import opened Text

  /** The characters before the terminating NUL of a C string. */
  type CString = s: string | '\0' !in s

  /** What dereferencing a pointer into a C string yields. */
  function At(s: CString, i: nat): (c: char)
    requires i <= |s|
    ensures c == '\0' <==> i == |s|
  {
    if i < |s| then s[i] else '\0'
  }

  predicate SameChar(p: char, c: char, caseSensitive: bool) {
    if caseSensitive then p == c else LowerCase(p) == LowerCase(c)
  }

  /** A pattern character other than `*` against a character of the text. */
  predicate Accepts(p: char, c: char, caseSensitive: bool) {
    SameChar(p, c, caseSensitive) || p == '?'
  }

  /** The meaning of a pattern: `*` stands for any stretch, every other character for one. */
  ghost predicate Matches(pat: seq<char>, text: seq<char>, cs: bool) {
    if pat == [] then text == []
    else if pat[0] == '*' then exists k :: 0 <= k <= |text| && Matches(pat[1..], text[k..], cs)
    else text != [] && Accepts(pat[0], text[0], cs) && Matches(pat[1..], text[1..], cs)
  }

  /** The same, with a star taking one character at a time (see GlobsIsMatches). */
  predicate Globs(pat: seq<char>, text: seq<char>, cs: bool)
    decreases |pat| + |text|
  {
    if pat == [] then text == []
    else if pat[0] == '*' then Globs(pat[1..], text, cs) || (text != [] && Globs(pat, text[1..], cs))
    else text != [] && Accepts(pat[0], text[0], cs) && Globs(pat[1..], text[1..], cs)
  }

  /** Without a star, the pattern and the text agree place by place, a question mark with anything. */
  lemma {:induction false} StarFree(pat: seq<char>, text: seq<char>, cs: bool)
    requires '*' !in pat
    ensures Matches(pat, text, cs) <==>
              && |pat| == |text|
              && forall i :: 0 <= i < |pat| ==>
                   pat[i] == '?' || (if cs then pat[i] == text[i] else LowerCase(pat[i]) == LowerCase(text[i]))
    decreases |pat|
  {
    if pat != [] && text != [] {
      assert pat == [pat[0]] + pat[1..] && text == [text[0]] + text[1..];
      StarFree(pat[1..], text[1..], cs);
    }
  }

  /** A pattern without special characters matches its own text; without regard to case, any spelling of it. */
  lemma PlainPattern(pat: seq<char>, text: seq<char>)
    requires '*' !in pat && '?' !in pat
    ensures Matches(pat, text, true) <==> text == pat
    ensures Matches(pat, text, false) <==> SameName(pat, text)
  {
    StarFree(pat, text, true);
    StarFree(pat, text, false);
  }

  lemma QuestionMark(text: seq<char>, cs: bool)
    ensures Matches(['?'], text, cs) <==> |text| == 1
  {
    StarFree(['?'], text, cs);
  }

  /** A star between two plain stretches stands for anything between a prefix and a suffix. */
  lemma {:induction false} StarBetween(p: seq<char>, q: seq<char>, text: seq<char>)
    requires '*' !in p && '?' !in p && '*' !in q && '?' !in q
    ensures Matches(p + ['*'] + q, text, true) <==>
              |p| + |q| <= |text| && text[..|p|] == p && text[|text| - |q|..] == q
    decreases |p|
  {
    var pat := p + ['*'] + q;
    if p == [] {
      assert pat[1..] == q;
      forall k: nat | k <= |text|
        ensures Matches(q, text[k..], true) <==> text[k..] == q
      {
        PlainPattern(q, text[k..]);
      }
      if |q| <= |text| && text[|text| - |q|..] == q {
        assert Matches(pat[1..], text[|text| - |q|..], true);
      }
    } else if text != [] {
      assert pat[1..] == p[1..] + ['*'] + q && pat[0] == p[0];
      StarBetween(p[1..], q, text[1..]);
      assert p == [p[0]] + p[1..];
      if |p| + |q| <= |text| {
        assert text[..|p|] == [text[0]] + text[1..][..|p| - 1];
        assert text[|text| - |q|..] == text[1..][|text| - 1 - |q|..];
      }
    }
  }

  /** `pat` has no star and its characters accept those of `text`, one by one. */
  ghost predicate Literally(pat: seq<char>, text: seq<char>, cs: bool) {
    |pat| == |text| && forall i :: 0 <= i < |pat| ==> pat[i] != '*' && Accepts(pat[i], text[i], cs)
  }

  // ---------------------------------------------------------------- Facts about the relation

  /** A star-free stretch can only match the text in front of it. */
  lemma {:induction false} MatchAfterLiteral(p: seq<char>, q: seq<char>, t: seq<char>, u: seq<char>, cs: bool)
    requires Literally(p, t, cs)
    ensures Globs(p + q, t + u, cs) <==> Globs(q, u, cs)
  {
    if p == [] {
      assert p + q == q && t + u == u;
    } else {
      assert (p + q)[1..] == p[1..] + q && (t + u)[1..] == t[1..] + u;
      MatchAfterLiteral(p[1..], q, t[1..], u, cs);
    }
  }

  /** Whatever matches a pattern that opens with a star-free stretch opens with a match of it. */
  lemma {:induction false} LiteralFits(p: seq<char>, q: seq<char>, text: seq<char>, cs: bool)
    requires '*' !in p && Globs(p + q, text, cs)
    ensures |p| <= |text| && Literally(p, text[..|p|], cs) && Globs(q, text[|p|..], cs)
  {
    if p == [] {
      assert p + q == q && text[0..] == text;
    } else {
      assert (p + q)[1..] == p[1..] + q;
      LiteralFits(p[1..], q, text[1..], cs);
      assert text[1..][..|p| - 1] == text[..|p|][1..];
      assert text[1..][|p| - 1..] == text[|p|..];
    }
  }

  /** A leading star absorbs any text put in front of a match. */
  lemma {:induction false} StarAbsorbs(pat: seq<char>, text: seq<char>, n: nat, cs: bool)
    requires pat != [] && pat[0] == '*' && n <= |text| && Globs(pat, text[n..], cs)
    ensures Globs(pat, text, cs)
    decreases n
  {
    if n == 0 {
      assert text[n..] == text;
    } else {
      assert text[1..][n - 1..] == text[n..];
      StarAbsorbs(pat, text[1..], n - 1, cs);
    }
  }

  /** What a leading star stands for in a match. */
  lemma {:induction false} StarTakes(pat: seq<char>, text: seq<char>, cs: bool) returns (k: nat)
    requires pat != [] && pat[0] == '*' && Globs(pat, text, cs)
    ensures k <= |text| && Globs(pat[1..], text[k..], cs)
    decreases |text|
  {
    k := 0;
    if Globs(pat[1..], text, cs) {
      assert text[0..] == text;
    } else {
      k := StarTakes(pat, text[1..], cs);
      assert text[1..][k..] == text[k + 1..];
      k := k + 1;
    }
  }

  /** Stretch by stretch and character by character, a pattern means the same. */
  lemma {:induction false} GlobsIsMatches(pat: seq<char>, text: seq<char>, cs: bool)
    ensures Globs(pat, text, cs) <==> Matches(pat, text, cs)
    decreases |pat|
  {
    if pat != [] && pat[0] == '*' {
      if Globs(pat, text, cs) {
        var k := StarTakes(pat, text, cs);
        GlobsIsMatches(pat[1..], text[k..], cs);
      }
      if Matches(pat, text, cs) {
        var k :| 0 <= k <= |text| && Matches(pat[1..], text[k..], cs);
        GlobsIsMatches(pat[1..], text[k..], cs);
        StarAbsorbs(pat, text, k, cs);
      }
    } else if pat != [] && text != [] {
      GlobsIsMatches(pat[1..], text[1..], cs);
    }
  }

  /** If what follows the star does not match here, the star must take one more character. */
  lemma StarAdvances(pat: seq<char>, text: seq<char>, cs: bool)
    requires pat != [] && pat[0] == '*' && text != []
    requires !Globs(pat[1..], text, cs)
    ensures Globs(pat, text, cs) <==> Globs(pat, text[1..], cs)
  {
  }

  /**
   Why one backtrack point is enough. Once the stretch `p` between two stars has been
   found at its leftmost place, the earlier star need never be reconsidered.
   */
  lemma LeftmostSuffices(p: seq<char>, rest: seq<char>, t: seq<char>, u: seq<char>, cs: bool)
    requires Literally(p, t, cs) && rest != [] && rest[0] == '*'
    ensures Globs(['*'] + p + rest, t + u, cs) <==> Globs(rest, u, cs)
  {
    var pat := ['*'] + p + rest;
    assert pat[1..] == p + rest;
    if Globs(rest, u, cs) {
      MatchAfterLiteral(p, rest, t, u, cs);
      assert (t + u)[0..] == t + u;
    }
    if Globs(pat, t + u, cs) {
      var k := StarTakes(pat, t + u, cs);
      LiteralFits(p, rest, (t + u)[k..], cs);
      assert (t + u)[k..][|p|..] == u[k..];
      StarAbsorbs(rest, u, k, cs);
    }
  }

  /** With the text used up by the leftmost attempt, no later attempt can do better. */
  lemma ExhaustedText(p: seq<char>, rest: seq<char>, t: seq<char>, cs: bool)
    requires Literally(p, t, cs)
    ensures Globs(['*'] + p + rest, t, cs) <==> Globs(rest, [], cs)
  {
    var pat := ['*'] + p + rest;
    assert pat[1..] == p + rest && t + [] == t && t[0..] == t;
    MatchAfterLiteral(p, rest, t, [], cs);
    if Globs(pat, t, cs) {
      var k := StarTakes(pat, t, cs);
      LiteralFits(p, rest, t[k..], cs);
    }
  }

  /** A star at the very end accepts everything. */
  lemma TrailingStar(pat: seq<char>, text: seq<char>, cs: bool)
    requires pat == ['*']
    ensures Globs(pat, text, cs)
  {
    assert Globs(pat, text[|text|..], cs);
    StarAbsorbs(pat, text, |text|, cs);
  }

  lemma StarOnNothing(pat: seq<char>, cs: bool)
    requires pat != [] && pat[0] == '*'
    ensures Globs(pat, [], cs) <==> Globs(pat[1..], [], cs)
  {
    var nothing: seq<char> := [];
    assert nothing[0..] == nothing;
  }

  // ---------------------------------------------------------------- The loop

  /** The text matches iff what is left of it matches what is left of the pattern. */
  ghost predicate Settled(wild: CString, str: CString, cs: bool, w: nat, s: nat) {
    && w <= |wild| && s <= |str|
    && (Globs(wild, str, cs) <==> Globs(wild[w..], str[s..], cs))
  }

  /**
   What the search knows once a star has been met: the text matches iff the text from
   `anchor` on matches the pattern from that star on, and the stretch behind the star has
   been matched from `anchor` up to the current position.
   */
  ghost predicate Anchored(wild: CString, str: CString, cs: bool, mp: nat, anchor: nat, w: nat, s: nat) {
    && 1 <= mp <= w <= |wild| && anchor <= s <= |str|
    && wild[mp - 1] == '*'
    && Literally(wild[mp..w], str[anchor..s], cs)
    && Settled(wild, str, cs, mp - 1, anchor)
  }

  lemma AnchorSplit(wild: CString, str: CString, cs: bool, mp: nat, anchor: nat, w: nat, s: nat)
    requires Anchored(wild, str, cs, mp, anchor, w, s)
    ensures wild[mp - 1..] == ['*'] + wild[mp..w] + wild[w..]
    ensures str[anchor..] == str[anchor..s] + str[s..]
    ensures wild[mp..] == wild[mp..w] + wild[w..]
    ensures wild[mp - 1..][1..] == wild[mp..]
  {
  }

  /** The terminator accepts no character of the text. */
  lemma NulAcceptsNothing(c: char, cs: bool)
    requires c != '\0'
    ensures !Accepts('\0', c, cs)
  {
  }

  /** Before any star: a mismatch decides, a match moves on. */
  lemma PlainStep(wild: CString, str: CString, cs: bool, w: nat, s: nat)
    requires Settled(wild, str, cs, w, s) && s < |str| && At(wild, w) != '*'
    ensures if Accepts(At(wild, w), str[s], cs) then Settled(wild, str, cs, w + 1, s + 1)
            else !Globs(wild, str, cs)
  {
    NulAcceptsNothing(str[s], cs);
    if w < |wild| {
      assert wild[w..][1..] == wild[w + 1..] && str[s..][1..] == str[s + 1..];
    }
  }

  /** The first star. */
  lemma FirstStar(wild: CString, str: CString, cs: bool, w: nat, s: nat)
    requires Settled(wild, str, cs, w, s) && w < |wild| && wild[w] == '*'
    ensures Anchored(wild, str, cs, w + 1, s, w + 1, s)
  {
  }

  /** A second star: everything is settled up to here. */
  lemma NextStar(wild: CString, str: CString, cs: bool, mp: nat, anchor: nat, w: nat, s: nat)
    requires Anchored(wild, str, cs, mp, anchor, w, s) && w < |wild| && wild[w] == '*'
    ensures Anchored(wild, str, cs, w + 1, s, w + 1, s)
  {
    AnchorSplit(wild, str, cs, mp, anchor, w, s);
    LeftmostSuffices(wild[mp..w], wild[w..], str[anchor..s], str[s..], cs);
  }

  /** A star, whether it is the first or a later one, becomes the anchor. */
  lemma MeetStar(wild: CString, str: CString, cs: bool, starred: bool, at: Place)
    requires Known(wild, str, cs, starred, at) && at.w < |wild| && wild[at.w] == '*'
    ensures Anchored(wild, str, cs, at.w + 1, at.s, at.w + 1, at.s)
  {
    if starred {
      NextStar(wild, str, cs, at.mp, at.cp - 1, at.w, at.s);
    } else {
      FirstStar(wild, str, cs, at.w, at.s);
    }
  }

  /** The attempt behind the star extends by one character. */
  lemma Extend(wild: CString, str: CString, cs: bool, mp: nat, anchor: nat, w: nat, s: nat)
    requires Anchored(wild, str, cs, mp, anchor, w, s) && s < |str|
    requires At(wild, w) != '*' && Accepts(At(wild, w), str[s], cs)
    ensures Anchored(wild, str, cs, mp, anchor, w + 1, s + 1)
  {
    NulAcceptsNothing(str[s], cs);
    assert wild[mp..w + 1] == wild[mp..w] + [wild[w]];
    assert str[anchor..s + 1] == str[anchor..s] + [str[s]];
  }

  /** A mismatch: the star takes one more character and the attempt starts over. */
  lemma Backtrack(wild: CString, str: CString, cs: bool, mp: nat, anchor: nat, w: nat, s: nat)
    requires Anchored(wild, str, cs, mp, anchor, w, s) && s < |str|
    requires At(wild, w) != '*' && !Accepts(At(wild, w), str[s], cs)
    ensures Anchored(wild, str, cs, mp, anchor + 1, mp, anchor + 1)
  {
    AnchorSplit(wild, str, cs, mp, anchor, w, s);
    MatchAfterLiteral(wild[mp..w], wild[w..], str[anchor..s], str[s..], cs);
    StarAdvances(wild[mp - 1..], str[anchor..], cs);
    assert str[anchor..][1..] == str[anchor + 1..];
  }

  /** A star at the very end of the pattern accepts whatever is left. */
  lemma LastStar(wild: CString, str: CString, cs: bool, anchor: nat)
    requires Anchored(wild, str, cs, |wild|, anchor, |wild|, anchor)
    ensures Globs(wild, str, cs)
  {
    TrailingStar(wild[|wild| - 1..], str[anchor..], cs);
  }

  /** The text is used up: it matches iff only stars are left. */
  lemma TextUsedUp(wild: CString, str: CString, cs: bool, mp: nat, anchor: nat, w: nat)
    requires Anchored(wild, str, cs, mp, anchor, w, |str|)
    ensures Settled(wild, str, cs, w, |str|)
  {
    AnchorSplit(wild, str, cs, mp, anchor, w, |str|);
    assert str[anchor..|str|] == str[anchor..] && str[|str|..] == [];
    ExhaustedText(wild[mp..w], wild[w..], str[anchor..], cs);
  }

  lemma SkipStar(wild: CString, str: CString, cs: bool, w: nat)
    requires Settled(wild, str, cs, w, |str|) && w < |wild| && wild[w] == '*'
    ensures Settled(wild, str, cs, w + 1, |str|)
  {
    assert str[|str|..] == [] && wild[w..][1..] == wild[w + 1..];
    StarOnNothing(wild[w..], cs);
  }

  lemma Start(wild: CString, str: CString, cs: bool)
    ensures Settled(wild, str, cs, 0, 0)
  {
    assert wild[0..] == wild && str[0..] == str;
  }

  /** With the text used up and no star ahead, only the end of the pattern matches. */
  lemma Verdict(wild: CString, str: CString, cs: bool, w: nat)
    requires Settled(wild, str, cs, w, |str|) && At(wild, w) != '*'
    ensures Globs(wild, str, cs) <==> At(wild, w) == '\0'
  {
    assert str[|str|..] == [];
  }

  /** Where the middle loop stands; once a star has been met, `cp` and `mp` are the backtrack point. */
  datatype Place = Place(cp: nat, mp: nat, w: nat, s: nat)

  predicate Fits(wild: CString, str: CString, at: Place) {
    at.mp <= at.w <= |wild| && at.s <= |str| && at.cp <= at.s + 1
  }

  /** What the middle loop comes to: true behind a trailing star, else the place in the pattern when the text is used up. */
  function Scan(wild: CString, str: CString, cs: bool, at: Place): (bool, nat)
    requires Fits(wild, str, at)
    decreases |wild| - at.mp, |str| + 1 - at.cp, |str| - at.s
  {
    if at.s == |str| then (false, at.w)
    else if At(wild, at.w) == '*' then
      if at.w + 1 == |wild| then (true, at.w + 1)
      else Scan(wild, str, cs, Place(at.s + 1, at.w + 1, at.w + 1, at.s))
    else if Accepts(At(wild, at.w), str[at.s], cs) then
      NulAcceptsNothing(str[at.s], cs);
      Scan(wild, str, cs, at.(w := at.w + 1, s := at.s + 1))
    else Scan(wild, str, cs, Place(at.cp + 1, at.mp, at.mp, at.cp))
  }

  /** The middle loop of the matcher, on positions s0 and w0. */
  method Search(str: CString, wild: CString, caseSensitive: bool, s0: nat, w0: nat)
    returns (accepted: bool, w: nat)
    requires s0 <= |str| && w0 <= |wild|
    ensures (accepted, w) == Scan(wild, str, caseSensitive, Place(0, 0, w0, s0))
  {
    var s: nat := s0;
    w := w0;
    var cp: nat, mp: nat := 0, 0;
    while At(str, s) != '\0'
      invariant Fits(wild, str, Place(cp, mp, w, s))
      invariant Scan(wild, str, caseSensitive, Place(cp, mp, w, s))
             == Scan(wild, str, caseSensitive, Place(0, 0, w0, s0))
      decreases |wild| - mp, |str| + 1 - cp, |str| - s
    {
      NulAcceptsNothing(At(str, s), caseSensitive);
      if At(wild, w) == '*' {
        w := w + 1;
        if At(wild, w) == '\0' {
          return true, w;
        }
        mp := w;
        cp := s + 1;
      } else if Accepts(At(wild, w), At(str, s), caseSensitive) {
        w := w + 1;
        s := s + 1;
      } else {
        w := mp;
        s := cp;
        cp := cp + 1;
      }
    }
    accepted := false;
  }

  /** What is known at a place of the middle loop, before it has met a star and after. */
  ghost predicate Known(wild: CString, str: CString, cs: bool, starred: bool, at: Place) {
    if starred then at.cp > 0 && Anchored(wild, str, cs, at.mp, at.cp - 1, at.w, at.s)
    else Settled(wild, str, cs, at.w, at.s) && (at.s < |str| ==> At(wild, at.w) == '*')
  }

  lemma AfterStar(wild: CString, str: CString, cs: bool, starred: bool, at: Place)
    requires Fits(wild, str, at) && Known(wild, str, cs, starred, at) && at.s < |str| && At(wild, at.w) == '*'
    ensures Known(wild, str, cs, true, Place(at.s + 1, at.w + 1, at.w + 1, at.s))
    ensures at.w + 1 == |wild| ==> Globs(wild, str, cs)
  {
    MeetStar(wild, str, cs, starred, at);
    if at.w + 1 == |wild| {
      LastStar(wild, str, cs, at.s);
    }
  }

  lemma AfterMatch(wild: CString, str: CString, cs: bool, starred: bool, at: Place)
    requires Fits(wild, str, at) && Known(wild, str, cs, starred, at) && at.s < |str|
    requires At(wild, at.w) != '*' && Accepts(At(wild, at.w), str[at.s], cs)
    ensures Known(wild, str, cs, true, at.(w := at.w + 1, s := at.s + 1))
  {
    Extend(wild, str, cs, at.mp, at.cp - 1, at.w, at.s);
  }

  lemma AfterMismatch(wild: CString, str: CString, cs: bool, starred: bool, at: Place)
    requires Fits(wild, str, at) && Known(wild, str, cs, starred, at) && at.s < |str|
    requires At(wild, at.w) != '*' && !Accepts(At(wild, at.w), str[at.s], cs)
    ensures Known(wild, str, cs, true, Place(at.cp + 1, at.mp, at.mp, at.cp))
  {
    Backtrack(wild, str, cs, at.mp, at.cp - 1, at.w, at.s);
  }

  lemma AtEnd(wild: CString, str: CString, cs: bool, starred: bool, at: Place)
    requires Fits(wild, str, at) && Known(wild, str, cs, starred, at) && at.s == |str|
    ensures Settled(wild, str, cs, at.w, |str|)
  {
    if starred {
      TextUsedUp(wild, str, cs, at.mp, at.cp - 1, at.w);
    }
  }

  /** The answer of the middle loop is right: it accepts a match, or leaves the question to the rest of the pattern. */
  ghost predicate Decides(wild: CString, str: CString, cs: bool, answer: (bool, nat)) {
    match answer
    case (true, _) => Globs(wild, str, cs)
    case (false, w) => Settled(wild, str, cs, w, |str|)
  }

  /** The single backtrack point decides. */
  lemma {:induction false} ScanDecides(wild: CString, str: CString, cs: bool, starred: bool, at: Place)
    requires Fits(wild, str, at) && Known(wild, str, cs, starred, at)
    ensures Decides(wild, str, cs, Scan(wild, str, cs, at))
    decreases |wild| - at.mp, |str| + 1 - at.cp, |str| - at.s
  {
    if at.s == |str| {
      AtEnd(wild, str, cs, starred, at);
    } else if At(wild, at.w) == '*' {
      AfterStar(wild, str, cs, starred, at);
      if at.w + 1 < |wild| {
        ScanDecides(wild, str, cs, true, Place(at.s + 1, at.w + 1, at.w + 1, at.s));
      }
    } else if Accepts(At(wild, at.w), str[at.s], cs) {
      NulAcceptsNothing(str[at.s], cs);
      AfterMatch(wild, str, cs, starred, at);
      ScanDecides(wild, str, cs, true, at.(w := at.w + 1, s := at.s + 1));
    } else {
      AfterMismatch(wild, str, cs, starred, at);
      ScanDecides(wild, str, cs, true, Place(at.cp + 1, at.mp, at.mp, at.cp));
    }
  }

  /** The first loop of the matcher: up to the first star, a mismatch decides. */
  method SkipLiteral(str: CString, wild: CString, caseSensitive: bool) returns (rejected: bool, s: nat, w: nat)
    ensures rejected ==> !Globs(wild, str, caseSensitive)
    ensures !rejected ==> Settled(wild, str, caseSensitive, w, s) && (s < |str| ==> At(wild, w) == '*')
  {
    s, w := 0, 0;
    Start(wild, str, caseSensitive);
    while At(str, s) != '\0' && At(wild, w) != '*'
      invariant Settled(wild, str, caseSensitive, w, s)
      decreases |str| - s
    {
      PlainStep(wild, str, caseSensitive, w, s);
      if !Accepts(At(wild, w), At(str, s), caseSensitive) {
        return true, s, w;
      }
      w := w + 1;
      s := s + 1;
    }
    rejected := false;
  }

  /** Returns true exactly when the text matches the pattern, for every text, pattern and case mode. */
  method WildCmp(str: CString, wild: CString, caseSensitive: bool) returns (matched: bool)
    ensures matched <==> Matches(wild, str, caseSensitive)
  {
    GlobsIsMatches(wild, str, caseSensitive);
    var rejected, s, w := SkipLiteral(str, wild, caseSensitive);
    if rejected {
      return false;
    }
    ScanDecides(wild, str, caseSensitive, false, Place(0, 0, w, s));
    var accepted;
    accepted, w := Search(str, wild, caseSensitive, s, w);
    if accepted {
      return true;
    }
    while At(wild, w) == '*'
      invariant Settled(wild, str, caseSensitive, w, |str|)
      decreases |wild| - w
    {
      SkipStar(wild, str, caseSensitive, w);
      w := w + 1;
    }
    Verdict(wild, str, caseSensitive, w);
    return At(wild, w) == '\0';
  }
}
