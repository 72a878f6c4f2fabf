/** The index-chasing tokenizer loop that `Node`, `Message` and `CimabueClient`
    all contain, and what it computes on every string. */
module Tokenizer {
  import opened CppString

  /** Length of the longest prefix of s without sep. */
  function Span(s: string, sep: char): (n: nat)
    ensures n <= |s|
    ensures sep !in s[..n]
    ensures n < |s| ==> s[n] == sep
  {
    if s == "" || s[0] == sep then 0
    else
      assert s[..1 + Span(s[1..], sep)] == [s[0]] + s[1..][..Span(s[1..], sep)];
      1 + Span(s[1..], sep)
  }

  /** Each is non-empty and free of sep. */
  predicate AllTokens(ts: seq<string>, sep: char) {
    forall i :: 0 <= i < |ts| ==> IsToken(ts[i], sep)
  }

  predicate IsToken(t: string, sep: char) {
    t != "" && sep !in t
  }

  /** The maximal sep-free runs of s, left to right. */
  function Runs(s: string, sep: char): (ts: seq<string>)
    ensures AllTokens(ts, sep)
    decreases |s|
  {
    if s == "" then []
    else if s[0] == sep then Runs(s[1..], sep)
    else
      var n := Span(s, sep);
      [s[..n]] + Runs(s[n..], sep)
  }

  /** What the loop returns. On a leading separator the first search for a
      separator finds position 0, behind the first token; the length computed
      from it wraps around, so the whole remainder is pushed before the runs.
      A string of separators only makes `substr` throw (None). */
  function Tokens(s: string, sep: char): Option<seq<string>> {
    if s == "" then Some([])
    else if s[0] != sep then Some(Runs(s, sep))
    else
      var k := Lead(s, sep);
      if k == |s| then None else Some([s[k..]] + Runs(s[k..], sep))
  }

  /** The number of separators s starts with. */
  function Lead(s: string, sep: char): (k: nat)
    ensures k <= |s|
    ensures forall i :: 0 <= i < k ==> s[i] == sep
    ensures k < |s| ==> s[k] != sep
  {
    if s == "" || s[0] != sep then 0
    else
      assert forall i :: 0 < i < |s| ==> s[i] == s[1..][i - 1];
      1 + Lead(s[1..], sep)
  }

  lemma {:induction false} RunsSkip(s: string, sep: char, from: nat, k: nat)
    requires from + k <= |s|
    requires forall i :: from <= i < from + k ==> s[i] == sep
    ensures Runs(s[from..], sep) == Runs(s[from + k..], sep)
    decreases k
  {
    if k > 0 {
      assert s[from..][0] == s[from] && s[from..][1..] == s[from + 1..];
      RunsSkip(s, sep, from + 1, k - 1);
    }
  }

  lemma {:induction false} SpanIs(s: string, sep: char, n: nat)
    requires n <= |s|
    requires forall i :: 0 <= i < n ==> s[i] != sep
    requires n < |s| ==> s[n] == sep
    ensures Span(s, sep) == n
  {
    if n > 0 {
      SpanIs(s[1..], sep, n - 1);
    }
  }

  lemma {:induction false} SpanBeyond(s: string, sep: char, n: nat)
    requires n <= |s| && sep !in s[..n]
    ensures Span(s, sep) >= n
  {
    if n > 0 {
      assert s[0] == s[..n][0] && s[1..][..n - 1] == s[..n][1..];
      SpanBeyond(s[1..], sep, n - 1);
    }
  }

  lemma {:induction false} LeadIs(s: string, sep: char, k: nat)
    requires k <= |s|
    requires forall i :: 0 <= i < k ==> s[i] == sep
    requires k < |s| ==> s[k] != sep
    ensures Lead(s, sep) == k
  {
    if k > 0 {
      LeadIs(s[1..], sep, k - 1);
    }
  }

  /** The runs that start at position `last`, if there is one. */
  ghost function From(s: string, sep: char, last: nat): seq<string>
  {
    if last >= |s| then [] else Runs(s[last..], sep)
  }

  /** The piece a regular pass cuts out is the first run of what is left. */
  lemma Piece(s: string, sep: char, last: nat)
    requires |s| < NPOS && last < |s| && s[last] != sep
    ensures var pos := FindFirstOf(s, sep, last);
      var n := Span(s[last..], sep);
      && pos == (if last + n == |s| then NPOS else last + n)
      && Substr(s, last, SizeSub(pos, last)) == Some(s[last..][..n])
  {
    var pos := FindFirstOf(s, sep, last);
    var tail := s[last..];
    if pos == NPOS {
      SpanIs(tail, sep, |tail|);
      assert tail[..|tail|] == tail;
    } else {
      SpanIs(tail, sep, pos - last);
      assert tail[..pos - last] == s[last..pos];
    }
  }

  /** ... and the new position is where the following run starts. */
  lemma NextRun(s: string, sep: char, pos: nat)
    requires |s| < NPOS && pos < |s|
    ensures From(s, sep, FindFirstNotOf(s, sep, pos)) == Runs(s[pos..], sep)
  {
    hide Runs;
    var next := FindFirstNotOf(s, sep, pos);
    RunsSkip(s, sep, pos, if next == NPOS then |s| - pos else next - pos);
    NoRunsLeft(s, sep);
  }

  lemma NoRunsLeft(s: string, sep: char)
    ensures Runs(s[|s|..], sep) == []
  {
  }

  lemma Pass(s: string, sep: char, last: nat)
    requires |s| < NPOS && last < |s| && s[last] != sep
    ensures var pos := FindFirstOf(s, sep, last);
      var next := FindFirstNotOf(s, sep, pos);
      var piece := Substr(s, last, SizeSub(pos, last));
      && piece.Some?
      && From(s, sep, last) == [piece.value] + From(s, sep, next)
      && (next == NPOS || last < next)
  {
    var pos := FindFirstOf(s, sep, last);
    var tail := s[last..];
    var n := Span(tail, sep);
    Piece(s, sep, last);
    assert Runs(tail, sep) == [tail[..n]] + Runs(tail[n..], sep);
    if pos == NPOS {
      assert tail[n..] == "";
    } else {
      NextRun(s, sep, pos);
      assert tail[n..] == s[pos..];
    }
  }

  /** Between passes: both positions are regular, and the tokens so far are
      those that come before the runs from lastPos on. */
  ghost predicate Regular(s: string, sep: char, tokens: seq<string>, lastPos: nat, pos: nat)
    requires |s| < NPOS
  {
    && (lastPos == NPOS || (lastPos < |s| && s[lastPos] != sep))
    && pos == FindFirstOf(s, sep, lastPos)
    && Tokens(s, sep) == Some(tokens + From(s, sep, lastPos))
  }

  /** Before the first pass: regular, or with the first separator behind the
      first token, or with no token at all. */
  lemma Start(s: string, sep: char)
    requires |s| < NPOS
    ensures var last := FindFirstNotOf(s, sep, 0);
      if s == "" || s[0] != sep then
        Regular(s, sep, [], last, FindFirstOf(s, sep, 0))
      else if last == NPOS then
        Tokens(s, sep) == None
      else
        && Substr(s, last, SizeSub(0, last)) == Some(s[last..])
        && Regular(s, sep, [s[last..]], last, FindFirstOf(s, sep, last))
  {
    var last := FindFirstNotOf(s, sep, 0);
    LeadIs(s, sep, if last == NPOS then |s| else last);
    assert s[0..] == s && [] + From(s, sep, last) == From(s, sep, last);
  }

  lemma Keep(s: string, sep: char, tokens: seq<string>, lastPos: nat, pos: nat)
    requires |s| < NPOS && Regular(s, sep, tokens, lastPos, pos) && lastPos != NPOS
    ensures var piece := Substr(s, lastPos, SizeSub(pos, lastPos));
      var next := FindFirstNotOf(s, sep, pos);
      && piece.Some?
      && Regular(s, sep, tokens + [piece.value], next, FindFirstOf(s, sep, next))
      && (next == NPOS || lastPos < next)
  {
    hide Runs, Tokens, From;
    Pass(s, sep, lastPos);
    var piece := Substr(s, lastPos, SizeSub(pos, lastPos)).value;
    var next := FindFirstNotOf(s, sep, pos);
    assert tokens + ([piece] + From(s, sep, next)) == tokens + [piece] + From(s, sep, next);
  }

  /** `tokenizeClientData` and the same loop in `deserialize` and
      `extractNicknameAndData`. */
  method Tokenize(s: string, sep: char) returns (r: Option<seq<string>>)
    requires |s| < NPOS
    ensures r == Tokens(s, sep)
  {
    var lastPos := FindFirstNotOf(s, sep, 0);
    var pos := FindFirstOf(s, sep, 0);
    var tokens: seq<string> := [];
    ghost var behind := s != "" && s[0] == sep;  // only before the first pass
    Start(s, sep);
    while pos != NPOS || lastPos != NPOS
      invariant behind ==> pos == 0 && tokens == [] && s != "" && s[0] == sep
      invariant behind ==> lastPos == FindFirstNotOf(s, sep, 0)
      invariant !behind ==> Regular(s, sep, tokens, lastPos, pos)
      decreases behind, if lastPos == NPOS then 0 else |s| - lastPos
    {
      var piece := Substr(s, lastPos, SizeSub(pos, lastPos));
      if piece == None {
        return None;
      }
      if !behind {
        Keep(s, sep, tokens, lastPos, pos);
      }
      tokens := tokens + [piece.value];
      assert behind ==> tokens == [piece.value];
      lastPos := FindFirstNotOf(s, sep, pos);
      pos := FindFirstOf(s, sep, lastPos);
      behind := false;
    }
    assert tokens + [] == tokens;
    return Some(tokens);
  }

  // ----- independent characterisation of the runs

  /** gaps[0] + tokens[0] + gaps[1] + ... + tokens[n-1] + gaps[n]. */
  function Weave(tokens: seq<string>, gaps: seq<string>): string
    requires |gaps| == |tokens| + 1
  {
    if tokens == [] then gaps[0] else gaps[0] + tokens[0] + Weave(tokens[1..], gaps[1..])
  }

  /** All characters are sep. */
  predicate Blank(s: string, sep: char) {
    forall i :: 0 <= i < |s| ==> s[i] == sep
  }

  /** The inner gaps are non-empty, so each token is delimited on both sides. */
  ghost predicate Delimited(tokens: seq<string>, gaps: seq<string>, sep: char) {
    && |gaps| == |tokens| + 1
    && AllTokens(tokens, sep)
    && (forall i :: 0 <= i < |gaps| ==> Blank(gaps[i], sep))
    && (forall i :: 0 < i < |tokens| ==> gaps[i] != "")
  }

  lemma RunsAfterBlank(gap: string, s: string, sep: char)
    requires Blank(gap, sep)
    ensures Runs(gap + s, sep) == Runs(s, sep)
  {
    assert forall i :: 0 <= i < |gap| ==> (gap + s)[i] == gap[i];
    RunsSkip(gap + s, sep, 0, |gap|);
    assert (gap + s)[|gap|..] == s && (gap + s)[0..] == gap + s;
  }

  lemma RunsAfterToken(t: string, s: string, sep: char)
    requires IsToken(t, sep) && (s == "" || s[0] == sep)
    ensures Runs(t + s, sep) == [t] + Runs(s, sep)
  {
    var u := t + s;
    assert u[..|t|] == t && u[|t|..] == s && u[0] == t[0];
    SpanIs(u, sep, |t|);
  }

  /** Whatever way s splits into delimited tokens, those tokens are its runs. */
  lemma {:induction false} RunsUnique(tokens: seq<string>, gaps: seq<string>, sep: char)
    requires Delimited(tokens, gaps, sep)
    ensures Runs(Weave(tokens, gaps), sep) == tokens
  {
    assert Blank(gaps[0], sep);
    if tokens == [] {
      RunsAfterBlank(gaps[0], "", sep);
      assert gaps[0] + "" == gaps[0];
    } else {
      var rest := Weave(tokens[1..], gaps[1..]);
      assert IsToken(tokens[0], sep) && Blank(gaps[1], sep);
      assert rest != "" ==> rest[0] == sep by {
        if |tokens| == 1 { assert rest == gaps[1]; } else { assert gaps[1] != "" && rest[0] == gaps[1][0]; }
      }
      RunsUnique(tokens[1..], gaps[1..], sep);
      RunsAfterToken(tokens[0], rest, sep);
      RunsAfterBlank(gaps[0], tokens[0] + rest, sep);
      assert gaps[0] + tokens[0] + rest == gaps[0] + (tokens[0] + rest);
    }
  }

  lemma WidenFirst(tokens: seq<string>, gaps: seq<string>, sep: char)
    requires Delimited(tokens, gaps, sep)
    ensures Delimited(tokens, gaps[0 := [sep] + gaps[0]], sep)
    ensures Weave(tokens, gaps[0 := [sep] + gaps[0]]) == [sep] + Weave(tokens, gaps)
  {
    var wide := gaps[0 := [sep] + gaps[0]];
    assert Blank(gaps[0], sep) && wide[1..] == gaps[1..];
    assert Blank(wide[0], sep);
  }

  /** Every string splits that way. */
  lemma {:induction false} RunsExist(s: string, sep: char) returns (gaps: seq<string>)
    ensures Delimited(Runs(s, sep), gaps, sep)
    ensures s == Weave(Runs(s, sep), gaps)
    decreases |s|
  {
    if s == "" {
      gaps := [""];
    } else if s[0] == sep {
      var g := RunsExist(s[1..], sep);
      gaps := g[0 := [sep] + g[0]];
      assert Blank(g[0], sep) && gaps[1..] == g[1..];
      assert s == [sep] + s[1..];
      WidenFirst(Runs(s, sep), g, sep);
    } else {
      var n := Span(s, sep);
      var g := RunsExist(s[n..], sep);
      gaps := [""] + g;
      FirstRun(s, sep);
      hide Runs, Delimited, Weave;
      assert s == s[..n] + s[n..];
      PrependToken(s[..n], Runs(s[n..], sep), g, sep);
    }
  }

  lemma FirstRun(s: string, sep: char)
    requires s != "" && s[0] != sep
    ensures Runs(s, sep) == [s[..Span(s, sep)]] + Runs(s[Span(s, sep)..], sep)
    ensures IsToken(s[..Span(s, sep)], sep)
  {
  }

  lemma PrependToken(t: string, tokens: seq<string>, gaps: seq<string>, sep: char)
    requires Delimited(tokens, gaps, sep) && IsToken(t, sep)
    requires var rest := Weave(tokens, gaps); rest == "" || rest[0] == sep
    ensures Delimited([t] + tokens, [""] + gaps, sep)
    ensures Weave([t] + tokens, [""] + gaps) == t + Weave(tokens, gaps)
  {
    assert ([t] + tokens)[1..] == tokens && ([""] + gaps)[1..] == gaps;
    if tokens != [] {
      assert IsToken(tokens[0], sep) && gaps[0] != "";
    }
  }

  // ----- joins

  /** A separator splits the runs cleanly. */
  lemma {:induction false} RunsConcat(a: string, b: string, sep: char)
    ensures Runs(a + [sep] + b, sep) == Runs(a, sep) + Runs(b, sep)
    decreases |a|
  {
    var s := a + [sep] + b;
    if a == "" {
      assert s[1..] == b;
    } else if a[0] == sep {
      assert s[1..] == a[1..] + [sep] + b;
      RunsConcat(a[1..], b, sep);
    } else {
      var n := Span(a, sep);
      assert s[..n] == a[..n];
      SpanIs(s, sep, n);
      if n == |a| {
        assert s[n..] == [sep] + b && a[n..] == "";
        assert Runs(s[n..], sep) == Runs(s[n..][1..], sep) && s[n..][1..] == b;
        assert Runs(a, sep) == [a[..n]] + Runs(a[n..], sep) == [a[..n]];
      } else {
        assert s[n..] == a[n..] + [sep] + b;
        RunsConcat(a[n..], b, sep);
        assert [a[..n]] + (Runs(a[n..], sep) + Runs(b, sep)) == [a[..n]] + Runs(a[n..], sep) + Runs(b, sep);
      }
    }
  }

  lemma RunsOfToken(t: string, sep: char)
    requires IsToken(t, sep)
    ensures Runs(t, sep) == [t]
  {
    SpanIs(t, sep, |t|);
    assert t[..|t|] == t && t[0] in t;
    assert Runs(t, sep) == [t[..|t|]] + Runs(t[|t|..], sep);
  }

  /** The tokens with one separator between neighbours. */
  function Join(tokens: seq<string>, sep: char): string {
    if tokens == [] then ""
    else if |tokens| == 1 then tokens[0]
    else tokens[0] + [sep] + Join(tokens[1..], sep)
  }

  lemma {:induction false} JoinAppend(a: seq<string>, b: seq<string>, sep: char)
    requires a != [] && b != []
    ensures Join(a + b, sep) == Join(a, sep) + [sep] + Join(b, sep)
  {
    if |a| == 1 {
      assert (a + b)[1..] == b;
    } else {
      assert (a + b)[1..] == a[1..] + b;
      JoinAppend(a[1..], b, sep);
    }
  }

  lemma {:induction false} RunsOfJoin(tokens: seq<string>, sep: char)
    requires AllTokens(tokens, sep)
    ensures Runs(Join(tokens, sep), sep) == tokens
    ensures tokens != [] ==> Join(tokens, sep) != "" && Join(tokens, sep)[0] != sep
  {
    if tokens != [] {
      assert IsToken(tokens[0], sep) && tokens[0][0] in tokens[0];
      RunsOfToken(tokens[0], sep);
      hide Runs;
      if |tokens| > 1 {
        assert AllTokens(tokens[1..], sep);
        RunsOfJoin(tokens[1..], sep);
        RunsConcat(tokens[0], Join(tokens[1..], sep), sep);
        assert [tokens[0]] + tokens[1..] == tokens;
      }
    }
  }

  /** Tokenizing a join of non-empty separator-free tokens gives them back. */
  lemma TokensOfJoin(tokens: seq<string>, sep: char)
    requires AllTokens(tokens, sep)
    ensures Tokens(Join(tokens, sep), sep) == Some(tokens)
  {
    RunsOfJoin(tokens, sep);
  }

  /** The loop returns the runs if and only if there is no leading separator. */
  lemma TokensAreRunsIff(s: string, sep: char)
    ensures Tokens(s, sep) == Some(Runs(s, sep)) <==> s == "" || s[0] != sep
  {
    if s != "" && s[0] == sep {
      var k := Lead(s, sep);
      RunsSkip(s, sep, 0, k);
      assert s[0..] == s && s[0 + k..] == s[k..];
      assert k < |s| ==> |[s[k..]] + Runs(s[k..], sep)| == 1 + |Runs(s, sep)|;
    }
  }

  /** What a leading separator does: the first token is no run at all. */
  lemma LeadingSeparatorTokens()
    ensures Tokens(":a:b", ':') == Some(["a:b", "a", "b"])
    ensures !AllTokens(["a:b", "a", "b"], ':')
  {
    var s := ":a:b";
    LeadIs(s, ':', 1);
    assert s[1..] == "a" + [':'] + "b";
    RunsConcat("a", "b", ':');
    RunsOfToken("a", ':');
    RunsOfToken("b", ':');
    assert ["a"] + ["b"] == ["a", "b"] && ["a:b"] + ["a", "b"] == ["a:b", "a", "b"];
    assert ["a:b", "a", "b"][0][1] == ':';
  }

  /** Cutting a string short never adds runs. */
  lemma {:induction false} FewerRuns(a: string, b: string, sep: char)
    ensures |Runs(a, sep)| <= |Runs(a + b, sep)|
    decreases |a|
  {
    if a == "" {
    } else if a[0] == sep {
      assert (a + b)[1..] == a[1..] + b;
      FewerRuns(a[1..], b, sep);
    } else {
      var n := Span(a, sep);
      if n == |a| {
        assert (a + b)[0] != sep;
        assert Runs(a[n..], sep) == [];
      } else {
        assert (a + b)[..n] == a[..n];
        SpanIs(a + b, sep, n);
        assert (a + b)[n..] == a[n..] + b;
        FewerRuns(a[n..], b, sep);
      }
    }
  }

  /** Runs are made of the characters of s. */
  lemma {:induction false} RunsChars(s: string, sep: char, c: char)
    requires c !in s
    ensures forall i :: 0 <= i < |Runs(s, sep)| ==> c !in Runs(s, sep)[i]
    decreases |s|
  {
    if s == "" {
    } else if s[0] == sep {
      RunsChars(s[1..], sep, c);
    } else {
      var n := Span(s, sep);
      RunsChars(s[n..], sep, c);
    }
  }

  /** No token is longer than the string. */
  lemma {:induction false} RunsShort(s: string, sep: char)
    ensures forall i :: 0 <= i < |Runs(s, sep)| ==> |Runs(s, sep)[i]| <= |s|
    decreases |s|
  {
    if s == "" {
    } else if s[0] == sep {
      RunsShort(s[1..], sep);
    } else {
      RunsShort(s[Span(s, sep)..], sep);
    }
  }

  lemma TokensShort(s: string, sep: char)
    ensures Tokens(s, sep).Some? ==> forall i :: 0 <= i < |Tokens(s, sep).value| ==> |Tokens(s, sep).value[i]| <= |s|
  {
    RunsShort(s, sep);
    RunsShort(s[Lead(s, sep)..], sep);
  }
}
