/** SQL LIKE matching: `MatchText` against a declarative reading of patterns. */
module Like {
  import opened Options

  const LIKE_TRUE := 1
  const LIKE_FALSE := 0
  /** The header gives the abort code the same value as the plain mismatch. */
  const LIKE_ABORT := 0

  // ---- What a pattern means.

  datatype Token = AnyString | AnyChar | Literal(c: char)

  /** A backslash makes the next character literal; one at the end makes the pattern void. */
  function Parse(p: string): Option<seq<Token>>
    decreases |p|
  {
    if p == "" then Some([])
    else if p[0] == '\\' then
      if |p| < 2 then None else Prepend(Literal(p[1]), Parse(p[2..]))
    else
      Prepend(if p[0] == '%' then AnyString else if p[0] == '_' then AnyChar else Literal(p[0]), Parse(p[1..]))
  }

  function Prepend(t: Token, ts: Option<seq<Token>>): Option<seq<Token>> {
    if ts.None? then None else Some([t] + ts.value)
  }

  predicate Fits(t: Token, piece: string) {
    match t
    case AnyString => true
    case AnyChar => |piece| == 1
    case Literal(c) => piece == [c]
  }

  function Concat(pieces: seq<string>): string {
    if pieces == [] then "" else pieces[0] + Concat(pieces[1..])
  }

  ghost predicate Splits(text: string, ts: seq<Token>, pieces: seq<string>) {
    && |pieces| == |ts|
    && Concat(pieces) == text
    && forall i :: 0 <= i < |ts| ==> Fits(ts[i], pieces[i])
  }

  /** The text can be cut into one piece per token so that every piece fits its token. */
  ghost predicate IsLike(text: string, p: string) {
    Parse(p).Some? && exists pieces :: Splits(text, Parse(p).value, pieces)
  }

  // ---- The same relation, by recursion over the pattern.

  ghost predicate Matches(t: string, p: string)
    decreases |p|
  {
    if p == "" then t == ""
    else if p[0] == '\\' then |p| >= 2 && t != "" && t[0] == p[1] && Matches(t[1..], p[2..])
    else if p[0] == '%' then exists k | 0 <= k <= |t| :: Matches(t[k..], p[1..])
    else if p[0] == '_' then t != "" && Matches(t[1..], p[1..])
    else t != "" && t[0] == p[0] && Matches(t[1..], p[1..])
  }

  lemma {:induction false} ConcatCons(piece: string, pieces: seq<string>)
    ensures Concat([piece] + pieces) == piece + Concat(pieces)
  {
    assert ([piece] + pieces)[1..] == pieces;
  }

  /** Extending a cut by one token in front. */
  lemma {:induction false} SplitsCons(t: Token, piece: string, text: string, ts: seq<Token>, pieces: seq<string>)
    requires Splits(text, ts, pieces) && Fits(t, piece)
    ensures Splits(piece + text, [t] + ts, [piece] + pieces)
  {
    ConcatCons(piece, pieces);
  }

  lemma {:induction false} SplitsHead(text: string, t: Token, ts: seq<Token>, pieces: seq<string>)
    requires Splits(text, [t] + ts, pieces)
    ensures Fits(t, pieces[0]) && text == pieces[0] + Concat(pieces[1..])
    ensures Splits(Concat(pieces[1..]), ts, pieces[1..])
  {
    assert ([t] + ts)[0] == t;
    forall i | 0 <= i < |ts| ensures Fits(ts[i], pieces[1..][i]) {
      assert ts[i] == ([t] + ts)[i + 1];
    }
  }

  lemma {:induction false} MatchesHasSplit(t: string, p: string) returns (pieces: seq<string>)
    requires Matches(t, p)
    ensures Parse(p).Some? && Splits(t, Parse(p).value, pieces)
    decreases |p|
  {
    if p == "" {
      pieces := [];
    } else if p[0] == '\\' {
      var rest := MatchesHasSplit(t[1..], p[2..]);
      SplitsCons(Literal(p[1]), [t[0]], t[1..], Parse(p[2..]).value, rest);
      assert [t[0]] + t[1..] == t;
      pieces := [[t[0]]] + rest;
    } else if p[0] == '%' {
      var k :| 0 <= k <= |t| && Matches(t[k..], p[1..]);
      var rest := MatchesHasSplit(t[k..], p[1..]);
      SplitsCons(AnyString, t[..k], t[k..], Parse(p[1..]).value, rest);
      assert t[..k] + t[k..] == t;
      pieces := [t[..k]] + rest;
    } else {
      var rest := MatchesHasSplit(t[1..], p[1..]);
      SplitsCons(if p[0] == '_' then AnyChar else Literal(p[0]), [t[0]], t[1..], Parse(p[1..]).value, rest);
      assert [t[0]] + t[1..] == t;
      pieces := [[t[0]]] + rest;
    }
  }

  lemma {:induction false} SplitMatches(t: string, p: string, pieces: seq<string>)
    requires Parse(p).Some? && Splits(t, Parse(p).value, pieces)
    ensures Matches(t, p)
    decreases |p|
  {
    if p != "" {
      var n := if p[0] == '\\' then 2 else 1;
      var rest := Parse(p[n..]);
      SplitsHead(t, Parse(p).value[0], rest.value, pieces);
      var k := |pieces[0]|;
      assert t[k..] == Concat(pieces[1..]) && t[..k] == pieces[0];
      SplitMatches(t[k..], p[n..], pieces[1..]);
    }
  }

  lemma {:induction false} MatchesIffLike(t: string, p: string)
    ensures Matches(t, p) <==> IsLike(t, p)
  {
    if Matches(t, p) {
      var pieces := MatchesHasSplit(t, p);
    }
    if IsLike(t, p) {
      var pieces :| Splits(t, Parse(p).value, pieces);
      SplitMatches(t, p, pieces);
    }
  }

  // ---- LIKE by its laws.

  /** The smallest patterns. */
  lemma {:induction false} LikeAtoms(t: string, c: char)
    ensures IsLike(t, "") <==> t == ""
    ensures IsLike(t, "%")
    ensures IsLike(t, "_") <==> |t| == 1
    ensures IsLike(t, ['\\', c]) <==> t == [c]
    ensures c != '%' && c != '_' && c != '\\' ==> (IsLike(t, [c]) <==> t == [c])
    ensures !IsLike(t, "\\")
  {
    MatchesIffLike(t, "");
    MatchesIffLike(t, "%");
    MatchesIffLike(t, "_");
    MatchesIffLike(t, ['\\', c]);
    MatchesIffLike(t, [c]);
    MatchesIffLike(t, "\\");
    assert t[|t|..] == "" && "%"[1..] == "" && "_"[1..] == "" && ['\\', c][2..] == "" && [c][1..] == "";
    assert Matches(t[|t|..], "%"[1..]);
    if t != "" { assert t == [t[0]] + t[1..]; }
  }

  /** A pattern is complete unless it ends in the middle of an escape. */
  predicate Complete(p: string)
    decreases |p|
  {
    p == "" || (if p[0] == '\\' then |p| >= 2 && Complete(p[2..]) else Complete(p[1..]))
  }

  lemma {:induction false} CompleteParses(p: string)
    ensures Complete(p) <==> Parse(p).Some?
    decreases |p|
  {
    if p != "" {
      if p[0] != '\\' { CompleteParses(p[1..]); } else if |p| >= 2 { CompleteParses(p[2..]); }
    }
  }

  /** A text is like two patterns in a row exactly when it can be cut so that each part is like its own;
      with the smallest patterns this is all of LIKE. */
  lemma {:induction false} LikeConcat(t: string, p: string, q: string)
    requires Complete(p)
    ensures IsLike(t, p + q) <==> exists k :: 0 <= k <= |t| && IsLike(t[..k], p) && IsLike(t[k..], q)
  {
    MatchesIffLike(t, p + q);
    if IsLike(t, p + q) {
      var k := MatchesCut(t, p, q);
      MatchesIffLike(t[..k], p);
      MatchesIffLike(t[k..], q);
    }
    if k :| 0 <= k <= |t| && IsLike(t[..k], p) && IsLike(t[k..], q) {
      MatchesIffLike(t[..k], p);
      MatchesIffLike(t[k..], q);
      MatchesJoin(t[..k], p, t[k..], q);
      assert t[..k] + t[k..] == t;
    }
  }

  /** The length of a pattern's first token. */
  function Width(p: string): nat { if p != "" && p[0] == '\\' then 2 else 1 }

  /** The first token of a pattern can take the first `j` characters. */
  predicate Takes(t: string, p: string, j: nat) {
    && p != "" && j <= |t|
    && (p[0] == '%' || (j == 1 && (if p[0] == '\\' then |p| >= 2 && t[0] == p[1] else p[0] == '_' || t[0] == p[0])))
  }

  lemma {:induction false} TakeFirst(t: string, p: string) returns (j: nat)
    requires p != "" && Matches(t, p)
    ensures Takes(t, p, j) && Width(p) <= |p| && Matches(t[j..], p[Width(p)..])
  {
    j := 1;
    if p[0] == '%' {
      j :| 0 <= j <= |t| && Matches(t[j..], p[1..]);
    }
  }

  lemma {:induction false} PutBack(t: string, p: string, j: nat)
    requires Takes(t, p, j) && Width(p) <= |p| && Matches(t[j..], p[Width(p)..])
    ensures Matches(t, p)
  {
  }

  lemma {:induction false} NoPattern(t: string)
    ensures Matches(t, "") <==> t == ""
  {
  }

  lemma {:induction false} CompleteRest(p: string)
    requires p != "" && Complete(p)
    ensures Width(p) <= |p| && Complete(p[Width(p)..])
  {
  }

  lemma {:induction false} MatchesCut(t: string, p: string, q: string) returns (k: nat)
    requires Complete(p) && Matches(t, p + q)
    ensures k <= |t| && Matches(t[..k], p) && Matches(t[k..], q)
    decreases |p|
  {
    hide Matches, Complete;
    k := 0;
    if p == "" {
      assert p + q == q && t[0..] == t && t[..0] == "";
      NoPattern("");
    } else {
      CompleteRest(p);
      var n := Width(p);
      var j := TakeFirst(t, p + q);
      assert (p + q)[n..] == p[n..] + q;
      var rest := MatchesCut(t[j..], p[n..], q);
      k := j + rest;
      assert t[..k][j..] == t[j..][..rest] && t[k..] == t[j..][rest..];
      PutBack(t[..k], p, j);
    }
  }

  lemma {:induction false} MatchesJoin(a: string, p: string, b: string, q: string)
    requires Complete(p) && Matches(a, p) && Matches(b, q)
    ensures Matches(a + b, p + q)
    decreases |p|
  {
    hide Matches, Complete;
    if p == "" {
      NoPattern(a);
      assert p + q == q && a + b == b;
    } else {
      CompleteRest(p);
      var n := Width(p);
      var j := TakeFirst(a, p);
      MatchesJoin(a[j..], p[n..], b, q);
      assert (p + q)[n..] == p[n..] + q && (a + b)[j..] == a[j..] + b;
      PutBack(a + b, p + q, j);
    }
  }

  // ---- What the wildcard loop relies on.

  /** Some suffix of the text matches: the meaning of `%` followed by `p`. */
  ghost predicate Somewhere(t: string, p: string) {
    exists k | 0 <= k <= |t| :: Matches(t[k..], p)
  }

  lemma {:induction false} SomewhereStep(t: string, p: string)
    ensures Somewhere(t, p) <==> Matches(t, p) || (t != "" && Somewhere(t[1..], p))
  {
    if Matches(t, p) { assert t[0..] == t; }
    if t != "" && Somewhere(t[1..], p) {
      var k :| 0 <= k <= |t[1..]| && Matches(t[1..][k..], p);
      assert t[1..][k..] == t[k + 1..];
    }
    if Somewhere(t, p) {
      var k :| 0 <= k <= |t| && Matches(t[k..], p);
      if k == 0 { assert t[0..] == t; } else { assert t[k..] == t[1..][k - 1..]; }
    }
  }

  /** Consecutive `%` collapse. */
  lemma {:induction false} SomewherePercent(t: string, p: string)
    requires p != "" && p[0] == '%'
    ensures Somewhere(t, p) <==> Somewhere(t, p[1..])
  {
    if Somewhere(t, p) {
      var k :| 0 <= k <= |t| && Matches(t[k..], p);
      var j :| 0 <= j <= |t[k..]| && Matches(t[k..][j..], p[1..]);
      assert t[k..][j..] == t[k + j..];
    }
    if Somewhere(t, p[1..]) {
      var k :| 0 <= k <= |t| && Matches(t[k..], p[1..]);
      assert t[0..] == t;
      assert Matches(t[0..], p);
    }
  }

  /** A `_` after a `%` costs one character, whichever comes first. */
  lemma {:induction false} SomewhereUnderscore(t: string, p: string)
    requires p != "" && p[0] == '_'
    ensures Somewhere(t, p) <==> t != "" && Somewhere(t[1..], p[1..])
  {
    if Somewhere(t, p) {
      var k :| 0 <= k <= |t| && Matches(t[k..], p);
      assert t[k..][1..] == t[1..][k..];
    }
    if t != "" && Somewhere(t[1..], p[1..]) {
      var k :| 0 <= k <= |t[1..]| && Matches(t[1..][k..], p[1..]);
      assert t[k..][1..] == t[1..][k..];
      assert Matches(t[k..], p);
    }
  }

  lemma {:induction false} SomewhereEnd(t: string)
    ensures Somewhere(t, "")
  {
    assert t[|t|..] == "";
  }

  /** A pattern that is only a dangling backslash matches at no position. */
  lemma {:induction false} DanglingNowhere(t: string, p: string)
    requires p == "\\"
    ensures !Somewhere(t, p)
  {
  }

  /** One character of the text against one token. */
  lemma {:induction false} MatchesAt(t: string, p: string, i: nat, j: nat)
    requires i < |t| && j < |p| && p[j] != '%'
    ensures Matches(t[i..], p[j..]) <==>
            if p[j] == '\\' then j + 1 < |p| && t[i] == p[j + 1] && Matches(t[i + 1..], p[j + 2..])
            else (p[j] == '_' || t[i] == p[j]) && Matches(t[i + 1..], p[j + 1..])
  {
    assert t[i..][1..] == t[i + 1..] && p[j..][1..] == p[j + 1..];
    if j + 1 < |p| { assert p[j..][2..] == p[j + 2..]; }
  }

  /** Nothing left of the text. */
  lemma {:induction false} MatchesEnd(p: string, j: nat)
    requires j < |p|
    ensures Matches("", p[j..]) <==> p[j] == '%' && Matches("", p[j + 1..])
  {
    assert p[j..][1..] == p[j + 1..] && ""[0..] == "";
  }

  method MatchText(t: string, p: string) returns (r: int)
    ensures r == if IsLike(t, p) then 1 else 0
    decreases |p|, 1
  {
    hide Matches, IsLike;
    MatchesIffLike(t, p);
    assert t[0..] == t && p[0..] == p;
    if |p| == 1 && p[0] == '%' {
      assert p == "%";
      LikeAtoms(t, 'a');
      return LIKE_TRUE;
    }
    var i, j := 0, 0;
    while i < |t| && j < |p|
      invariant 0 <= i <= |t| && 0 <= j <= |p|
      invariant Matches(t, p) <==> Matches(t[i..], p[j..])
      decreases |p| - j
    {
      if p[j] != '%' { MatchesAt(t, p, i, j); }
      if p[j] == '\\' {
        j := j + 1;
        if j >= |p| { return LIKE_ABORT; }
        if p[j] != t[i] { return LIKE_FALSE; }
      } else if p[j] == '%' {
        r := SearchText(t, p, i, j);
        return;
      } else if p[j] == '_' {
        i, j := i + 1, j + 1;
        continue;
      } else if p[j] != t[i] {
        return LIKE_FALSE;
      }
      i, j := i + 1, j + 1;
    }
    if i < |t| {
      assert p[j..] == "";
      NoPattern(t[i..]);
      return LIKE_FALSE;
    }
    assert t[i..] == "";
    while j < |p| && p[j] == '%'
      invariant 0 <= j <= |p|
      invariant Matches(t, p) <==> Matches("", p[j..])
    {
      MatchesEnd(p, j);
      j := j + 1;
    }
    if j >= |p| {
      assert p[j..] == "";
      NoPattern("");
      return LIKE_TRUE;
    }
    MatchesEnd(p, j);
    r := LIKE_ABORT;
  }

  /** The `%` branch: collapse the wildcards after it, then search for a position where
      the rest of the pattern matches. */
  method SearchText(t: string, p: string, i0: nat, j0: nat) returns (r: int)
    requires i0 <= |t| && j0 < |p| && p[j0] == '%'
    ensures r == if Matches(t[i0..], p[j0..]) then 1 else 0
    decreases |p|, 0
  {
    var i, j := i0, j0 + 1;
    assert p[j0..][1..] == p[j..];
    while j < |p|
      invariant i0 <= i <= |t| && j0 < j <= |p|
      invariant Matches(t[i0..], p[j0..]) <==> Somewhere(t[i..], p[j..])
    {
      assert p[j..][1..] == p[j + 1..];
      if p[j] == '%' {
        SomewherePercent(t[i..], p[j..]);
        j := j + 1;
      } else if p[j] == '_' {
        SomewhereUnderscore(t[i..], p[j..]);
        if i >= |t| { return LIKE_ABORT; }
        assert t[i..][1..] == t[i + 1..];
        i, j := i + 1, j + 1;
      } else {
        break;
      }
    }
    if j >= |p| {
      SomewhereEnd(t[i..]);
      return LIKE_TRUE;
    }
    var q := p[j..];
    if q[0] == '\\' && |q| < 2 {
      DanglingNowhere(t[i..], q);
      return LIKE_ABORT;
    }
    var firstPat := if q[0] == '\\' then q[1] else q[0];
    while i < |t|
      invariant i0 <= i <= |t|
      invariant Matches(t[i0..], p[j0..]) <==> Somewhere(t[i..], q)
    {
      SomewhereStep(t[i..], q);
      if t[i] == firstPat {
        var matched := MatchText(t[i..], q);
        MatchesIffLike(t[i..], q);
        if matched != LIKE_FALSE { return matched; }
      }
      assert t[i..][1..] == t[i + 1..];
      i := i + 1;
    }
    SomewhereStep(t[i..], q);
    r := LIKE_ABORT;
  }
}
