/** String operations the application relies on: ASCII case mapping, the last
    position of a character, and Python's literal replace-all. */
module Text {

  /** Lower-case one character; only the ASCII letters A-Z change. */
  function LowerChar(c: char): char {
    if 'A' <= c <= 'Z' then (c as int + 32) as char else c
  }

  /** Upper-case one character; only the ASCII letters a-z change. */
  function UpperChar(c: char): char {
    if 'a' <= c <= 'z' then (c as int - 32) as char else c
  }

  /** Python's `str.lower()` restricted to ASCII. */
  function Lower(s: string): (r: string)
    ensures |r| == |s|
    ensures forall i :: 0 <= i < |s| ==> r[i] == LowerChar(s[i])
  {
    seq(|s|, i requires 0 <= i < |s| => LowerChar(s[i]))
  }

  /** Python's `str.upper()` restricted to ASCII. */
  function Upper(s: string): (r: string)
    ensures |r| == |s|
    ensures forall i :: 0 <= i < |s| ==> r[i] == UpperChar(s[i])
  {
    seq(|s|, i requires 0 <= i < |s| => UpperChar(s[i]))
  }

  lemma LowerIdempotent(s: string)
    ensures Lower(Lower(s)) == Lower(s)
  {
  }

  lemma LowerSuffix(s: string, k: nat)
    requires k <= |s|
    ensures Lower(s)[k..] == Lower(s[k..])
  {
  }

  /** The index of the last occurrence of `c` in `s`, or -1 when there is none
      (the split point of Python's `rsplit(c, 1)` and of JavaScript's
      `split(c).pop()`). */
  function LastIndexOf(s: string, c: char): (r: int)
    ensures -1 <= r < |s|
    ensures r >= 0 ==> s[r] == c
    ensures forall j :: r < j < |s| ==> s[j] != c
  {
    if s == [] then -1
    else if s[|s| - 1] == c then |s| - 1
    else LastIndexOf(s[..|s| - 1], c)
  }

  /** `c` does not occur in `s` exactly when the last index is -1. */
  lemma LastIndexOfAbsent(s: string, c: char)
    ensures LastIndexOf(s, c) == -1 <==> c !in s
  {
  }

  /** Case mapping never creates or removes a '.', so the last dot stays put. */
  lemma LowerKeepsLastDot(s: string)
    ensures LastIndexOf(Lower(s), '.') == LastIndexOf(s, '.')
  {
  }

  /** `a` is `b` with some elements dropped and the rest kept in order. */
  predicate IsSubsequence<T(==)>(a: seq<T>, b: seq<T>)
    decreases |b|
  {
    if a == [] then true
    else if b == [] then false
    else (a[0] == b[0] && IsSubsequence(a[1..], b[1..])) || IsSubsequence(a, b[1..])
  }

  predicate StartsWith(s: string, p: string) {
    |p| <= |s| && s[..|p|] == p
  }

  /** `p` occurs somewhere in `s` (Python's `p in s`). */
  predicate Contains(s: string, p: string)
    decreases |s|
  {
    if |s| < |p| then false
    else StartsWith(s, p) || Contains(s[1..], p)
  }

  /** Python's `s.replace(pat, rep)` for a non-empty `pat`: every occurrence,
      scanning left to right and never overlapping, is replaced by `rep`. A
      text in which `pat` does not occur comes back unchanged. */
  function ReplaceAll(s: string, pat: string, rep: string): (r: string)
    requires pat != ""
    ensures !Contains(s, pat) ==> r == s
    ensures StartsWith(s, pat) ==> StartsWith(r, rep)
    decreases |s|
  {
    if |s| < |pat| then s
    else if s[..|pat|] == pat then rep + ReplaceAll(s[|pat|..], pat, rep)
    else [s[0]] + ReplaceAll(s[1..], pat, rep)
  }

  /** A text that is exactly the pattern becomes exactly the replacement. */
  lemma ReplaceWhole(pat: string, rep: string)
    requires pat != ""
    ensures ReplaceAll(pat, pat, rep) == rep
  {
    assert pat[..|pat|] == pat;
    assert pat[|pat|..] == [];
  }

  // ------------------------------------------------------------ placeholders

  /** No `{{` starts in `s`, and `s` does not end in `{`: gluing anything
      after it cannot start a `{{` inside it. */
  predicate NoDoubleBrace(s: string) {
    forall i :: 0 <= i < |s| && s[i] == '{' ==> i + 1 < |s| && s[i + 1] != '{'
  }

  /** A placeholder `{{name}}`: a non-empty name without braces. */
  predicate IsPlaceholder(t: string) {
    && |t| >= 5 && t[0] == '{' && t[1] == '{' && t[|t| - 2] == '}' && t[|t| - 1] == '}'
    && forall i :: 2 <= i < |t| - 2 ==> t[i] != '{' && t[i] != '}'
  }

  /** A pattern starting with `{{` is never found inside a text without
      `{{`: the text is skipped whole. */
  lemma ReplaceSkips(a: string, b: string, pat: string, rep: string)
    requires |pat| >= 2 && pat[0] == '{' && pat[1] == '{' && NoDoubleBrace(a)
    ensures ReplaceAll(a + b, pat, rep) == a + ReplaceAll(b, pat, rep)
  {
    if a != [] {
      NoDoubleBraceTail(a);
      NoPatternAtBrace(a, b, pat);
    }
    ReplaceSkipsAfter(a, b, pat, rep);
  }

  /** A text that does not start a `{{` pattern, and has no `{{` after its
      first character, is skipped whole. */
  lemma {:induction false} ReplaceSkipsAfter(a: string, b: string, pat: string, rep: string)
    requires |pat| >= 2 && pat[0] == '{' && pat[1] == '{'
    requires a != [] ==> NoDoubleBrace(a[1..]) && (|a + b| >= |pat| ==> (a + b)[..|pat|] != pat)
    ensures ReplaceAll(a + b, pat, rep) == a + ReplaceAll(b, pat, rep)
    decreases |a|
  {
    if a == [] {
      assert a + b == b;
    } else {
      var s := a + b;
      var u := a[1..];
      var r := ReplaceAll(b, pat, rep);
      assert a == [a[0]] + u;
      if |s| < |pat| {
        assert r == b;
      } else {
        assert s[1..] == u + b;
        ReplaceStep(s, pat, rep);
        if u != [] {
          NoDoubleBraceTail(u);
          NoPatternAtBrace(u, b, pat);
        }
        ReplaceSkipsAfter(u, b, pat, rep);
        assert ReplaceAll(s, pat, rep) == [a[0]] + (u + r);
        ConsAppend(a[0], u, r);
      }
    }
  }

  /** A `{{` pattern does not start where a text free of `{{` starts. */
  lemma NoPatternAtBrace(a: string, b: string, pat: string)
    requires a != [] && |pat| >= 2 && pat[0] == '{' && pat[1] == '{' && NoDoubleBrace(a)
    ensures |a + b| >= |pat| ==> (a + b)[..|pat|] != pat
  {
    if |a + b| >= |pat| && a[0] == '{' {
      assert (a + b)[..|pat|][1] == a[1] && a[1] != '{';
    }
  }

  /** Prepending one element associates with concatenation. */
  lemma ConsAppend(c: char, u: string, r: string)
    ensures [c] + (u + r) == ([c] + u) + r
  {
  }

  /** A text that does not start with the pattern keeps its first character. */
  lemma ReplaceStep(s: string, pat: string, rep: string)
    requires pat != "" && |s| >= |pat| && s[..|pat|] != pat
    ensures ReplaceAll(s, pat, rep) == [s[0]] + ReplaceAll(s[1..], pat, rep)
  {
  }

  /** Dropping the first character keeps a text free of `{{`. */
  lemma NoDoubleBraceTail(a: string)
    requires a != [] && NoDoubleBrace(a)
    ensures NoDoubleBrace(a[1..])
  {
    var u := a[1..];
    forall i | 0 <= i < |u| && u[i] == '{'
      ensures i + 1 < |u| && u[i + 1] != '{'
    {
      assert u[i] == a[i + 1];
    }
  }

  /** A text starting with the pattern has that occurrence replaced, and the
      rest handled on its own. */
  lemma ReplaceAtPattern(pat: string, b: string, rep: string)
    requires pat != ""
    ensures ReplaceAll(pat + b, pat, rep) == rep + ReplaceAll(b, pat, rep)
  {
    var s := pat + b;
    assert s[..|pat|] == pat;
    assert s[|pat|..] == b;
  }

  /** The replacement distributes over a text made of a part without `{{`
      (and no trailing `{`), the pattern and a rest. */
  lemma ReplaceDistributes(a: string, pat: string, b: string, rep: string)
    requires NoDoubleBrace(a) && |pat| >= 2 && pat[0] == '{' && pat[1] == '{'
    ensures ReplaceAll(a + pat + b, pat, rep) == a + rep + ReplaceAll(b, pat, rep)
  {
    assert a + pat + b == a + (pat + b);
    ReplaceSkips(a, pat + b, pat, rep);
    ReplaceAtPattern(pat, b, rep);
  }

  /** One placeholder is never a prefix of a text that starts with another:
      the closing braces of the shorter one would fall inside the name of
      the longer one. */
  lemma PlaceholderNotPrefix(t: string, pat: string, b: string)
    requires IsPlaceholder(t) && IsPlaceholder(pat) && t != pat
    requires |pat| <= |t + b|
    ensures (t + b)[..|pat|] != pat
  {
    var s := (t + b)[..|pat|];
    if |pat| < |t| {
      var e := |pat| - 2;
      PlaceholderInner(t, e);
      assert s[e] == t[e] && s[e] != pat[e];
    } else if |pat| == |t| {
      assert s == t;
    } else {
      var e := |t| - 2;
      PlaceholderInner(pat, e);
      assert s[e] == t[e] && s[e] != pat[e];
    }
  }

  /** Inside a placeholder's name there is no closing brace. */
  lemma PlaceholderInner(t: string, e: int)
    requires IsPlaceholder(t) && 2 <= e < |t| - 2
    ensures t[e] != '}'
  {
  }

  /** After its first brace a placeholder holds no `{{`. */
  lemma PlaceholderTail(t: string)
    requires IsPlaceholder(t)
    ensures NoDoubleBrace(t[1..])
  {
    var u := t[1..];
    forall i | 0 <= i < |u| && u[i] == '{'
      ensures i + 1 < |u| && u[i + 1] != '{'
    {
      assert u[i] == t[i + 1];
    }
  }

  /** A placeholder other than the pattern is skipped whole. */
  lemma ReplaceSkipsPlaceholder(t: string, b: string, pat: string, rep: string)
    requires IsPlaceholder(t) && IsPlaceholder(pat) && t != pat
    ensures ReplaceAll(t + b, pat, rep) == t + ReplaceAll(b, pat, rep)
  {
    if |t + b| >= |pat| {
      PlaceholderNotPrefix(t, pat, b);
    }
    PlaceholderTail(t);
    ReplaceSkipsAfter(t, b, pat, rep);
  }

  /** A template cut into pieces: literal text and placeholders. */
  datatype Piece = Literal(text: string) | Slot(name: string)

  /** The text a list of pieces spells. */
  function Source(ps: seq<Piece>): string
    decreases |ps|
  {
    if ps == [] then ""
    else (match ps[0] case Literal(x) => x case Slot(t) => t) + Source(ps[1..])
  }

  /** Literals hold no `{{` and do not end in `{`; slots are placeholders. */
  predicate WellCut(ps: seq<Piece>) {
    forall k :: 0 <= k < |ps| ==>
      && (ps[k].Literal? ==> NoDoubleBrace(ps[k].text))
      && (ps[k].Slot? ==> IsPlaceholder(ps[k].name))
  }

  /** The pieces with every slot `pat` turned into the literal `rep`. */
  function Settle(ps: seq<Piece>, pat: string, rep: string): (r: seq<Piece>)
    ensures |r| == |ps|
    ensures forall k :: 0 <= k < |ps| ==> r[k] == if ps[k] == Slot(pat) then Literal(rep) else ps[k]
    decreases |ps|
  {
    if ps == [] then []
    else [if ps[0] == Slot(pat) then Literal(rep) else ps[0]] + Settle(ps[1..], pat, rep)
  }

  /** Settling with a value without `{{` (and no trailing `{`) keeps a
      template well cut. */
  lemma SettleWellCut(ps: seq<Piece>, pat: string, rep: string)
    requires WellCut(ps) && NoDoubleBrace(rep)
    ensures WellCut(Settle(ps, pat, rep))
  {
    var r := Settle(ps, pat, rep);
    forall k | 0 <= k < |r|
      ensures r[k].Literal? ==> NoDoubleBrace(r[k].text)
      ensures r[k].Slot? ==> IsPlaceholder(r[k].name)
    {
      if ps[k] == Slot(pat) {
        assert r[k] == Literal(rep);
      } else {
        assert r[k] == ps[k];
      }
    }
  }

  /** Replacing a placeholder in a well-cut template replaces exactly its
      slots, whatever else the template holds, and keeps the template well
      cut when the replacement holds no `{{` and does not end in `{`. */
  lemma {:induction false} ReplaceSettles(ps: seq<Piece>, pat: string, rep: string)
    requires WellCut(ps) && IsPlaceholder(pat)
    ensures NoDoubleBrace(rep) ==> WellCut(Settle(ps, pat, rep))
    ensures ReplaceAll(Source(ps), pat, rep) == Source(Settle(ps, pat, rep))
    decreases |ps|
  {
    if NoDoubleBrace(rep) {
      SettleWellCut(ps, pat, rep);
    }
    if ps != [] {
      var rest := ps[1..];
      assert WellCut(rest) by {
        forall k | 0 <= k < |rest| ensures rest[k] == ps[k + 1] { }
      }
      ReplaceSettles(rest, pat, rep);
      var tail := Source(rest);
      assert Source(ps) == (match ps[0] case Literal(x) => x case Slot(t) => t) + tail;
      var settled := Settle(ps, pat, rep);
      assert settled[1..] == Settle(rest, pat, rep);
      match ps[0]
      case Literal(x) =>
        ReplaceSkips(x, tail, pat, rep);
      case Slot(t) =>
        if t == pat {
          ReplaceAtPattern(pat, tail, rep);
        } else {
          ReplaceSkipsPlaceholder(t, tail, pat, rep);
        }
    }
  }

  /** The value a list of (placeholder, value) pairs gives a placeholder:
      the first pair naming it, or the placeholder itself when none does. */
  function Lookup(pairs: seq<(string, string)>, t: string): string
    decreases |pairs|
  {
    if pairs == [] then t
    else if pairs[0].0 == t then pairs[0].1
    else Lookup(pairs[1..], t)
  }

  /** The text a list of pieces spells once every slot takes its value. */
  function Fill(ps: seq<Piece>, pairs: seq<(string, string)>): string
    decreases |ps|
  {
    if ps == [] then ""
    else (match ps[0] case Literal(x) => x case Slot(t) => Lookup(pairs, t)) + Fill(ps[1..], pairs)
  }

  /** Every pattern is a placeholder and every value but the last holds no
      `{{` and does not end in `{`, so that no value can form a placeholder
      a later replacement would see. */
  predicate Substitution(pairs: seq<(string, string)>) {
    forall k :: 0 <= k < |pairs| ==>
      IsPlaceholder(pairs[k].0) && (k + 1 < |pairs| ==> NoDoubleBrace(pairs[k].1))
  }

  /** The pairs applied one after the other, each replacement working on
      the text the previous one produced. */
  function ReplaceChain(s: string, pairs: seq<(string, string)>): string
    requires forall k :: 0 <= k < |pairs| ==> pairs[k].0 != ""
    decreases |pairs|
  {
    if pairs == [] then s
    else ReplaceChain(ReplaceAll(s, pairs[0].0, pairs[0].1), pairs[1..])
  }

  /** One step of a chain. */
  lemma ChainCons(s: string, pat: string, rep: string, rest: seq<(string, string)>)
    requires pat != "" && forall k :: 0 <= k < |rest| ==> rest[k].0 != ""
    ensures ReplaceChain(s, [(pat, rep)] + rest) == ReplaceChain(ReplaceAll(s, pat, rep), rest)
  {
    assert ([(pat, rep)] + rest)[1..] == rest;
  }

  /** With no values, filling spells the template itself. */
  lemma {:induction false} FillNothing(ps: seq<Piece>)
    ensures Fill(ps, []) == Source(ps)
    decreases |ps|
  {
    if ps != [] {
      FillNothing(ps[1..]);
    }
  }

  /** Settling the first pair and filling with the others is filling with
      all of them. */
  lemma {:induction false} FillSettled(ps: seq<Piece>, pairs: seq<(string, string)>)
    requires pairs != []
    ensures Fill(Settle(ps, pairs[0].0, pairs[0].1), pairs[1..]) == Fill(ps, pairs)
    decreases |ps|
  {
    if ps != [] {
      var settled := Settle(ps, pairs[0].0, pairs[0].1);
      assert settled[1..] == Settle(ps[1..], pairs[0].0, pairs[0].1);
      FillSettled(ps[1..], pairs);
    }
  }

  /** Applying a chain of placeholder replacements to a well-cut template
      replaces each slot by its value and leaves the literal text alone:
      no value can create or hide a placeholder. */
  lemma {:induction false} ChainFills(ps: seq<Piece>, pairs: seq<(string, string)>)
    requires WellCut(ps) && Substitution(pairs)
    ensures ReplaceChain(Source(ps), pairs) == Fill(ps, pairs)
    decreases |pairs|
  {
    if pairs == [] {
      FillNothing(ps);
    } else {
      var (pat, rep) := pairs[0];
      ReplaceSettles(ps, pat, rep);
      var settled := Settle(ps, pat, rep);
      var rest := pairs[1..];
      FillSettled(ps, pairs);
      if rest == [] {
        FillNothing(settled);
      } else {
        assert Substitution(rest) by {
          forall k | 0 <= k < |rest| ensures rest[k] == pairs[k + 1] { }
        }
        ChainFills(settled, rest);
      }
    }
  }
}
