// The lightweight markup applied to every regular transcript message after
// entity decoding: six global regular-expression substitutions applied in a
// fixed order (pattern, all with the global flag, then replacement):
//
//     \*\*(.*?)\*\*   ->  <strong>$1</strong>
//     __(.*?)__       ->  <strong>$1</strong>
//     \*(.*?)\*       ->  <em>$1</em>
//     _(.*?)_         ->  <em>$1</em>
//     \\n             ->  <br>
//     "([^"]+)"       ->  <mark>"$1"</mark>
//
// A global `replace` scans left to right; at each position it tries the
// pattern, and on a match emits the replacement and resumes after the match,
// otherwise it copies one character and moves on. A lazy group `(.*?)` takes
// the shortest content, and `.` never matches a line terminator. The class
// `[^"]+` takes one or more non-quote characters (line terminators included).
module Markup {
  import opened JsText
  import opened Basics

  /** `d` occurs in `s` starting at position `i`. */
  predicate OccursAt(s: string, i: nat, d: string) {
    i + |d| <= |s| && s[i..i + |d|] == d
  }

  /** What the captured group may contain. */
  datatype Inner =
    | Lazy                       // (.*?)  : any characters but line terminators, possibly none
    | NonEmptyNot(excluded: char) // ([^x]+): one or more characters other than `excluded`

  predicate Admits(inner: Inner, c: char) {
    match inner
    case Lazy => !IsLineTerminator(c)
    case NonEmptyNot(x) => c != x
  }

  function MinLength(inner: Inner): nat {
    if inner.Lazy? then 0 else 1
  }

  /** A substitution `/D(inner)D/g -> open + $1 + close`. */
  datatype Rule = Rule(delim: string, inner: Inner, open: string, close: string)

  predicate WellFormed(rule: Rule) {
    |rule.delim| > 0
  }

  /** The pattern of `rule`, anchored at the start of `s`, can match with its
      closing delimiter at position `p` (so the group is `s[|delim|..p]`). */
  predicate IsEnd(s: string, rule: Rule, p: nat) {
    && OccursAt(s, 0, rule.delim)
    && p >= |rule.delim| + MinLength(rule.inner)
    && OccursAt(s, p, rule.delim)
    && forall k :: |rule.delim| <= k < p ==> Admits(rule.inner, s[k])
  }

  /** Searches for the closing delimiter from position `j` on. */
  function ScanEnd(s: string, rule: Rule, j: nat): (r: Option<nat>)
    requires WellFormed(rule) && OccursAt(s, 0, rule.delim)
    requires |rule.delim| <= j <= |s|
    requires forall k :: |rule.delim| <= k < j ==> Admits(rule.inner, s[k])
    requires forall q: nat :: q < j ==> !IsEnd(s, rule, q)
    ensures r.Some? ==> IsEnd(s, rule, r.value) && forall q: nat :: q < r.value ==> !IsEnd(s, rule, q)
    ensures r.None? ==> forall q: nat :: !IsEnd(s, rule, q)
    decreases |s| - j
  {
    if j >= |rule.delim| + MinLength(rule.inner) && OccursAt(s, j, rule.delim) then Some(j)
    else if j < |s| && Admits(rule.inner, s[j]) then ScanEnd(s, rule, j + 1)
    else None
  }

  /** The match of `rule` anchored at the start of `s`: the LEAST closing
      position, which is what a lazy group selects. */
  function MatchEnd(s: string, rule: Rule): (r: Option<nat>)
    requires WellFormed(rule)
    ensures r.Some? ==> IsEnd(s, rule, r.value) && forall q: nat :: q < r.value ==> !IsEnd(s, rule, q)
    ensures r.None? ==> forall q: nat :: !IsEnd(s, rule, q)
  {
    if OccursAt(s, 0, rule.delim) then ScanEnd(s, rule, |rule.delim|) else None
  }

  /** `s.replace(/D(inner)D/g, open + "$1" + close)`. */
  function ReplaceSpans(s: string, rule: Rule): string
    requires WellFormed(rule)
    decreases |s|
  {
    if s == [] then []
    else match MatchEnd(s, rule)
      case Some(p) =>
        rule.open + s[|rule.delim|..p] + rule.close + ReplaceSpans(s[p + |rule.delim|..], rule)
      case None =>
        [s[0]] + ReplaceSpans(s[1..], rule)
  }

  /** `s.replace(/pat/g, rep)` for a literal pattern. */
  function ReplaceLiteral(s: string, pat: string, rep: string): (r: string)
    requires |pat| > 0
    ensures s != [] && !OccursAt(s, 0, pat) ==> r != [] && r[0] == s[0]
    ensures OccursAt(s, 0, pat) ==> |r| >= |rep| && r[..|rep|] == rep
    decreases |s|
  {
    if s == [] then []
    else if OccursAt(s, 0, pat) then rep + ReplaceLiteral(s[|pat|..], pat, rep)
    else [s[0]] + ReplaceLiteral(s[1..], pat, rep)
  }

  /** One step of the chain. */
  datatype Substitution =
    | Wrap(rule: Rule)
    | Literal(pat: string, rep: string)

  predicate Applicable(sub: Substitution) {
    match sub
    case Wrap(rule) => WellFormed(rule)
    case Literal(pat, _) => |pat| > 0
  }

  /** The character every match of `sub` starts with. */
  function Trigger(sub: Substitution): char
    requires Applicable(sub)
  {
    match sub
    case Wrap(rule) => rule.delim[0]
    case Literal(pat, _) => pat[0]
  }

  function Apply(sub: Substitution, s: string): string
    requires Applicable(sub)
  {
    match sub
    case Wrap(rule) => ReplaceSpans(s, rule)
    case Literal(pat, rep) => ReplaceLiteral(s, pat, rep)
  }

  /** Applies `subs` in order, the first one first. */
  function ApplyAll(subs: seq<Substitution>, s: string): string
    requires forall i :: 0 <= i < |subs| ==> Applicable(subs[i])
  {
    if subs == [] then s else ApplyAll(subs[1..], Apply(subs[0], s))
  }

  const BoldStars := Rule("**", Lazy, "<strong>", "</strong>")
  const BoldUnderscores := Rule("__", Lazy, "<strong>", "</strong>")
  const ItalicStar := Rule("*", Lazy, "<em>", "</em>")
  const ItalicUnderscore := Rule("_", Lazy, "<em>", "</em>")
  const LineBreak := Literal("\\n", "<br>")
  const Highlight := Rule("\"", NonEmptyNot('"'), "<mark>\"", "\"</mark>")

  /** The substitution chain of a regular message, in the order applied. */
  const Chain: seq<Substitution> :=
    [Wrap(BoldStars), Wrap(BoldUnderscores), Wrap(ItalicStar), Wrap(ItalicUnderscore), LineBreak, Wrap(Highlight)]

  lemma ChainApplicable()
    ensures forall i :: 0 <= i < |Chain| ==> Applicable(Chain[i])
    ensures |Chain| == 6
  {
  }

  /** The HTML a message's (decoded) text is turned into. */
  function Render(s: string): string
  {
    ChainApplicable();
    ApplyAll(Chain, s)
  }

  // ---------------------------------------------------------------------
  // Properties
  // ---------------------------------------------------------------------

  /** A substitution leaves alone any text without its trigger character. */
  lemma {:induction false} ApplyWithoutTrigger(sub: Substitution, s: string)
    requires Applicable(sub)
    requires forall k :: 0 <= k < |s| ==> s[k] != Trigger(sub)
    ensures Apply(sub, s) == s
    decreases |s|
  {
    if s != [] {
      ApplyWithoutTrigger(sub, s[1..]);
      match sub
      case Wrap(rule) =>
        assert !OccursAt(s, 0, rule.delim) by { assert s[0] != rule.delim[0]; }
        assert s == [s[0]] + s[1..];
      case Literal(pat, rep) =>
        assert !OccursAt(s, 0, pat) by { assert s[0] != pat[0]; }
        assert s == [s[0]] + s[1..];
    }
  }

  /** A whole chain leaves alone text without any of its trigger characters. */
  lemma {:induction false} ApplyAllWithoutTriggers(subs: seq<Substitution>, s: string)
    requires forall i :: 0 <= i < |subs| ==> Applicable(subs[i])
    requires forall i, k :: 0 <= i < |subs| && 0 <= k < |s| ==> s[k] != Trigger(subs[i])
    ensures ApplyAll(subs, s) == s
  {
    if subs != [] {
      ApplyWithoutTrigger(subs[0], s);
      ApplyAllWithoutTriggers(subs[1..], s);
    }
  }

  /** Text with none of the characters any substitution starts with. */
  predicate Plain(s: string) {
    forall k :: 0 <= k < |s| ==> s[k] !in "*_\\\""
  }

  lemma PlainConcat(a: string, b: string)
    requires Plain(a) && Plain(b)
    ensures Plain(a + b)
  {
    forall k | 0 <= k < |a + b| ensures (a + b)[k] !in "*_\\\"" {
      if k < |a| {
        assert (a + b)[k] == a[k];
      } else {
        assert (a + b)[k] == b[k - |a|];
      }
    }
  }

  /** Every step of the chain starts with one of `*`, `_`, `\` and `"`. */
  lemma ChainTriggers(subs: seq<Substitution>, s: string)
    requires Plain(s)
    requires forall i :: 0 <= i < |subs| ==> subs[i] in Chain
    ensures forall i :: 0 <= i < |subs| ==> Applicable(subs[i])
    ensures forall i, k :: 0 <= i < |subs| && 0 <= k < |s| ==> s[k] != Trigger(subs[i])
  {
    ChainApplicable();
    forall i | 0 <= i < |subs| ensures Applicable(subs[i]) && Trigger(subs[i]) in "*_\\\"" {
      assert subs[i] in Chain;
    }
  }

  /** Text containing none of `*`, `_`, `\` and `"` is rendered as itself. */
  lemma RenderPlainText(s: string)
    requires Plain(s)
    ensures Render(s) == s
  {
    ChainTriggers(Chain, s);
    ApplyAllWithoutTriggers(Chain, s);
  }

  /** With a non-quote class, at most one closing position exists, so the
      greedy `[^"]+` and the least match selected by MatchEnd agree. */
  lemma QuotedEndUnique(s: string, p: nat, q: nat)
    requires IsEnd(s, Highlight, p) && IsEnd(s, Highlight, q)
    ensures p == q
  {
    // a closing quote is itself excluded from the class of the other match
    assert s[p] == '"' by { assert s[p..p + 1] == "\""; }
    assert s[q] == '"' by { assert s[q..q + 1] == "\""; }
  }

  /** One step of the global replacement at a match. */
  lemma ReplaceAtMatch(s: string, rule: Rule, p: nat)
    requires WellFormed(rule) && s != [] && MatchEnd(s, rule) == Some(p)
    ensures p + |rule.delim| <= |s|
    ensures ReplaceSpans(s, rule) == rule.open + s[|rule.delim|..p] + rule.close + ReplaceSpans(s[p + |rule.delim|..], rule)
  {
  }

  /** In a span `D x D t` as in SpanReplaced, the match closes right after `x`. */
  lemma SpanMatchEnd(rule: Rule, x: string, t: string)
    requires WellFormed(rule)
    requires |x| >= MinLength(rule.inner)
    requires forall k :: 0 <= k < |x| ==> Admits(rule.inner, x[k])
    requires forall k :: MinLength(rule.inner) <= k < |x| ==> !OccursAt(x + rule.delim, k, rule.delim)
    ensures MatchEnd(rule.delim + x + rule.delim + t, rule) == Some(|rule.delim| + |x|)
  {
    var d := rule.delim;
    var s := d + x + d + t;
    var p := |d| + |x|;
    assert OccursAt(s, 0, d) by { assert s[0..|d|] == d; }
    assert OccursAt(s, p, d) by { assert s[p..p + |d|] == d; }
    forall k | |d| <= k < p ensures Admits(rule.inner, s[k]) {
      assert s[k] == x[k - |d|];
    }
    assert IsEnd(s, rule, p);
    forall q: nat | q < p ensures !IsEnd(s, rule, q) {
      if q >= |d| + MinLength(rule.inner) {
        NoDelimInside(d, x, t, q - |d|);
      }
    }
  }

  /** A delimiter inside `x` would also be one inside `x + d`. */
  lemma NoDelimInside(d: string, x: string, t: string, k: nat)
    requires k < |x| && !OccursAt(x + d, k, d)
    ensures !OccursAt(d + x + d + t, |d| + k, d)
  {
    var s := d + x + d + t;
    if |d| + k + |d| <= |s| {
      assert (x + d)[k..k + |d|] == s[|d| + k..|d| + k + |d|] by {
        assert (x + d + t)[k..k + |d|] == (x + d)[k..k + |d|];
        assert s == d + (x + d + t);
      }
    }
  }

  /** A span `D x D t` whose content `x` is admitted by the group and contains
      no earlier closing delimiter is wrapped, and the scan resumes on `t`. */
  lemma SpanReplaced(rule: Rule, x: string, t: string)
    requires WellFormed(rule)
    requires |x| >= MinLength(rule.inner)
    requires forall k :: 0 <= k < |x| ==> Admits(rule.inner, x[k])
    requires forall k :: MinLength(rule.inner) <= k < |x| ==> !OccursAt(x + rule.delim, k, rule.delim)
    ensures ReplaceSpans(rule.delim + x + rule.delim + t, rule)
         == rule.open + x + rule.close + ReplaceSpans(t, rule)
  {
    var d := rule.delim;
    var s := d + x + d + t;
    var p := |d| + |x|;
    SpanMatchEnd(rule, x, t);
    ReplaceAtMatch(s, rule, p);
    assert s[|d|..p] == x;
    assert s[p + |d|..] == t;
  }

  /** A non-empty quoted run without inner quotes is highlighted. */
  lemma QuotedHighlighted(x: string, t: string)
    requires |x| > 0 && forall k :: 0 <= k < |x| ==> x[k] != '"'
    ensures ReplaceSpans("\"" + x + "\"" + t, Highlight) == "<mark>\"" + x + "\"</mark>" + ReplaceSpans(t, Highlight)
  {
    forall k | 1 <= k < |x| ensures !OccursAt(x + "\"", k, "\"") {
      assert (x + "\"")[k] == x[k];
    }
    SpanReplaced(Highlight, x, t);
  }

  /** An empty quoted pair `""` is never highlighted: its first quote is
      copied as is and the scan moves on to the second one. */
  lemma EmptyQuotesNotHighlighted(t: string)
    ensures ReplaceSpans("\"\"" + t, Highlight) == "\"" + ReplaceSpans("\"" + t, Highlight)
  {
    var s := "\"\"" + t;
    assert !IsEnd(s, Highlight, 1);
    assert !Admits(Highlight.inner, s[1]);
    assert MatchEnd(s, Highlight) == None;
    assert s[1..] == "\"" + t;
  }

  /** Occurrences after a prefix are occurrences in the rest. */
  lemma OccursAfterPrefix(a: string, b: string, k: nat, d: string)
    requires k >= |a|
    ensures OccursAt(a + b, k, d) <==> OccursAt(b, k - |a|, d)
  {
    if k + |d| <= |a + b| {
      assert (a + b)[k..k + |d|] == b[k - |a|..k - |a| + |d|];
    }
  }

  /** One mismatching character rules an occurrence out. */
  lemma MismatchAt(s: string, k: nat, d: string, i: nat)
    requires i < |d| && k + i < |s| && s[k + i] != d[i]
    ensures !OccursAt(s, k, d)
  {
    if k + |d| <= |s| {
      assert s[k..k + |d|][i] == s[k + i];
    }
  }

  /** The line-break step leaves no literal backslash-n behind. */
  lemma {:induction false} NoEscapeAfterLineBreak(s: string)
    ensures forall k: nat :: !OccursAt(ReplaceLiteral(s, "\\n", "<br>"), k, "\\n")
    decreases |s|
  {
    var r := ReplaceLiteral(s, "\\n", "<br>");
    if s == [] {
    } else if OccursAt(s, 0, "\\n") {
      var rest := ReplaceLiteral(s[2..], "\\n", "<br>");
      NoEscapeAfterLineBreak(s[2..]);
      assert r == "<br>" + rest;
      forall k: nat ensures !OccursAt(r, k, "\\n") {
        if k >= 4 {
          OccursAfterPrefix("<br>", rest, k, "\\n");
        } else if k < |r| {
          // none of `<br>` is a backslash
          MismatchAt(r, k, "\\n", 0);
        }
      }
    } else {
      var rest := ReplaceLiteral(s[1..], "\\n", "<br>");
      NoEscapeAfterLineBreak(s[1..]);
      assert r == [s[0]] + rest;
      forall k: nat ensures !OccursAt(r, k, "\\n") {
        if k >= 1 {
          OccursAfterPrefix([s[0]], rest, k, "\\n");
        } else if s[0] != '\\' {
          MismatchAt(r, 0, "\\n", 0);
        } else if |s| >= 2 {
          // the character after the backslash is not `n`, or it starts a `<br>`
          if OccursAt(s[1..], 0, "\\n") {
            assert rest[..4] == "<br>";
            assert r[1] == '<';
          } else {
            assert s[0..2] == [s[0], s[1]];
            assert r[1] == s[1];
          }
          MismatchAt(r, 0, "\\n", 1);
        }
      }
    }
  }

  /** A literal substitution leaves text without any occurrence of its pattern unchanged. */
  lemma {:induction false} LiteralAbsentUnchanged(s: string, pat: string, rep: string)
    requires |pat| > 0
    requires forall k: nat :: !OccursAt(s, k, pat)
    ensures ReplaceLiteral(s, pat, rep) == s
    decreases |s|
  {
    if s != [] {
      assert s == [s[0]] + s[1..];
      forall k: nat ensures !OccursAt(s[1..], k, pat) {
        OccursAfterPrefix([s[0]], s[1..], k + 1, pat);
      }
      LiteralAbsentUnchanged(s[1..], pat, rep);
    }
  }

  /** Replacing literal backslash-n twice is the same as once. */
  lemma LineBreakIdempotent(s: string)
    ensures ReplaceLiteral(ReplaceLiteral(s, "\\n", "<br>"), "\\n", "<br>") == ReplaceLiteral(s, "\\n", "<br>")
  {
    NoEscapeAfterLineBreak(s);
    LiteralAbsentUnchanged(ReplaceLiteral(s, "\\n", "<br>"), "\\n", "<br>");
  }

  /** Text at none of whose positions a span matches is copied as is: the
      scan moves over it one character at a time. This covers a delimiter
      that opens a span nobody closes, such as the lone `*` of `5 * 3`. */
  lemma {:induction false} SpansAfterPlainPrefix(a: string, s: string, rule: Rule)
    requires WellFormed(rule)
    requires forall k :: 0 <= k < |a| ==> MatchEnd((a + s)[k..], rule).None?
    ensures ReplaceSpans(a + s, rule) == a + ReplaceSpans(s, rule)
    decreases |a|
  {
    if a != [] {
      var t := a + s;
      assert MatchEnd(t[0..], rule).None?;
      assert t[0..] == t;
      assert t[0] == a[0] && t[1..] == a[1..] + s;
      CopyStep(t, rule);
      forall k | 0 <= k < |a[1..]|
        ensures MatchEnd((a[1..] + s)[k..], rule).None?
      {
        assert (a[1..] + s)[k..] == t[k + 1..];
      }
      SpansAfterPlainPrefix(a[1..], s, rule);
      assert a == [a[0]] + a[1..];
      assert [a[0]] + (a[1..] + ReplaceSpans(s, rule)) == a + ReplaceSpans(s, rule);
    } else {
      assert a + s == s;
    }
  }

  /** Where no span matches, the global replace copies one character and moves on. */
  lemma CopyStep(s: string, rule: Rule)
    requires WellFormed(rule) && s != [] && MatchEnd(s, rule).None?
    ensures ReplaceSpans(s, rule) == [s[0]] + ReplaceSpans(s[1..], rule)
  {
  }

  /** No span matches where the delimiter's first character is absent, so
      text without that character is copied as is. */
  lemma SpansAfterTriggerFree(a: string, s: string, rule: Rule)
    requires WellFormed(rule)
    requires forall k :: 0 <= k < |a| ==> a[k] != rule.delim[0]
    ensures ReplaceSpans(a + s, rule) == a + ReplaceSpans(s, rule)
  {
    forall k | 0 <= k < |a|
      ensures MatchEnd((a + s)[k..], rule).None?
    {
      MismatchAt((a + s)[k..], 0, rule.delim, 0);
    }
    SpansAfterPlainPrefix(a, s, rule);
  }

  /** A lone `*` opens no italic span: `5 * 3` comes through unchanged. */
  lemma UnclosedStarCopied()
    ensures ReplaceSpans("5 * 3", ItalicStar) == "5 * 3"
  {
    var s := "5 * 3";
    forall k | 0 <= k < |s|
      ensures MatchEnd((s + "")[k..], ItalicStar).None?
    {
      var u := (s + "")[k..];
      if k == 2 {
        assert u == "* 3";
        forall q: nat ensures !IsEnd(u, ItalicStar, q) {
          if 1 <= q < 3 {
            MismatchAt(u, q, ItalicStar.delim, 0);
          }
        }
      } else {
        MismatchAt(u, 0, ItalicStar.delim, 0);
      }
    }
    SpansAfterPlainPrefix(s, "", ItalicStar);
    assert s + "" == s;
  }

  /** An unclosed quote highlights nothing: `He said "hi` comes through unchanged. */
  lemma UnclosedQuoteCopied()
    ensures ReplaceSpans("He said \"hi", Highlight) == "He said \"hi"
  {
    var s := "He said \"hi";
    forall k | 0 <= k < |s|
      ensures MatchEnd((s + "")[k..], Highlight).None?
    {
      var u := (s + "")[k..];
      if k == 8 {
        assert u == "\"hi";
        forall q: nat ensures !IsEnd(u, Highlight, q) {
          if 1 <= q < 3 {
            MismatchAt(u, q, Highlight.delim, 0);
          }
        }
      } else {
        MismatchAt(u, 0, Highlight.delim, 0);
      }
    }
    SpansAfterPlainPrefix(s, "", Highlight);
    assert s + "" == s;
  }

  /** A span that follows text without the delimiter's first character is
      wrapped in place: `a D x D t` becomes `a open x close` and the rest. */
  lemma SpanReplacedAfter(a: string, rule: Rule, x: string, t: string)
    requires WellFormed(rule)
    requires forall k :: 0 <= k < |a| ==> a[k] != rule.delim[0]
    requires |x| >= MinLength(rule.inner)
    requires forall k :: 0 <= k < |x| ==> Admits(rule.inner, x[k])
    requires forall k :: MinLength(rule.inner) <= k < |x| ==> !OccursAt(x + rule.delim, k, rule.delim)
    ensures ReplaceSpans(a + rule.delim + x + rule.delim + t, rule)
         == a + rule.open + x + rule.close + ReplaceSpans(t, rule)
  {
    var d := rule.delim;
    assert a + d + x + d + t == a + (d + x + d + t);
    SpansAfterTriggerFree(a, d + x + d + t, rule);
    SpanReplaced(rule, x, t);
  }

  /** An occurrence of the pattern at the start is replaced, and the scan
      resumes right after it. */
  lemma LiteralAtStart(pat: string, rep: string, t: string)
    requires |pat| > 0
    ensures ReplaceLiteral(pat + t, pat, rep) == rep + ReplaceLiteral(t, pat, rep)
  {
    assert (pat + t)[..|pat|] == pat;
    assert (pat + t)[|pat|..] == t;
  }

  /** Text at none of whose positions the pattern occurs is copied as is;
      with `LiteralAtStart` this fixes the result on every input. */
  lemma {:induction false} LiteralAfterPlainPrefix(a: string, s: string, pat: string, rep: string)
    requires |pat| > 0
    requires forall k :: 0 <= k < |a| ==> !OccursAt(a + s, k, pat)
    ensures ReplaceLiteral(a + s, pat, rep) == a + ReplaceLiteral(s, pat, rep)
    decreases |a|
  {
    if a != [] {
      var t := a + s;
      assert !OccursAt(t, 0, pat);
      assert t[0] == a[0] && t[1..] == a[1..] + s;
      forall k | 0 <= k < |a[1..]|
        ensures !OccursAt(a[1..] + s, k, pat)
      {
        assert t == [a[0]] + (a[1..] + s);
        OccursAfterPrefix([a[0]], a[1..] + s, k + 1, pat);
      }
      LiteralAfterPlainPrefix(a[1..], s, pat, rep);
      assert a == [a[0]] + a[1..];
      assert [a[0]] + (a[1..] + ReplaceLiteral(s, pat, rep)) == a + ReplaceLiteral(s, pat, rep);
    } else {
      assert a + s == s;
    }
  }

  /** A backslash at the end of `a` cannot pair with the backslash that follows. */
  lemma NoLineBreakBefore(a: string, t: string)
    requires forall k: nat :: !OccursAt(a, k, "\\n")
    ensures forall k :: 0 <= k < |a| ==> !OccursAt(a + ("\\n" + t), k, "\\n")
  {
    var u := a + ("\\n" + t);
    forall k | 0 <= k < |a|
      ensures !OccursAt(u, k, "\\n")
    {
      if k + 1 < |a| {
        assert u[k..k + 2] == a[k..k + 2];
        assert !OccursAt(a, k, "\\n");
      } else {
        assert u[k + 1] == '\\';
        MismatchAt(u, k, "\\n", 1);
      }
    }
  }

  /** Each literal backslash-`n` after text without one becomes `<br>` in
      place, and the scan goes on after it. */
  lemma LineBreakReplaced(a: string, t: string)
    requires forall k: nat :: !OccursAt(a, k, "\\n")
    ensures ReplaceLiteral(a + "\\n" + t, "\\n", "<br>") == a + "<br>" + ReplaceLiteral(t, "\\n", "<br>")
  {
    assert a + "\\n" + t == a + ("\\n" + t);
    NoLineBreakBefore(a, t);
    LiteralAfterPlainPrefix(a, "\\n" + t, "\\n", "<br>");
    LiteralAtStart("\\n", "<br>", t);
  }

  /** `\\x\\n` keeps its `\\x` and turns only the backslash-`n` into `<br>`. */
  lemma StrayBackslashKept()
    ensures ReplaceLiteral("\\x\\n", "\\n", "<br>") == "\\x<br>"
  {
    forall k: nat ensures !OccursAt("\\x", k, "\\n") {
      if k == 0 {
        MismatchAt("\\x", 0, "\\n", 1);
      } else if k == 1 {
        MismatchAt("\\x", 1, "\\n", 0);
      }
    }
    LineBreakReplaced("\\x", "");
    assert "\\x" + "\\n" + "" == "\\x\\n";
  }

  /** Rendering is the bold-star step followed by the rest of the chain. */
  lemma RenderAfterBold(s: string)
    ensures Render(s) == ApplyAll(Chain[1..], ReplaceSpans(s, BoldStars))
  {
    assert Chain[0] == Wrap(BoldStars);
  }

  /** One `**x**` span over text without `**` is wrapped as strong text. */
  lemma BoldSpan(x: string)
    requires forall k :: 0 <= k < |x| ==> !IsLineTerminator(x[k])
    requires forall k :: 0 <= k < |x| ==> x[k] != '*'
    ensures ReplaceSpans("**" + x + "**", BoldStars) == "<strong>" + x + "</strong>"
  {
    forall k | 0 <= k < |x| ensures !OccursAt(x + "**", k, "**") {
      MismatchAt(x + "**", k, "**", 0);
    }
    SpanReplaced(BoldStars, x, "");
    assert "**" + x + "**" + "" == "**" + x + "**";
    assert "<strong>" + x + "</strong>" + "" == "<strong>" + x + "</strong>";
  }

  lemma PlainStrong(x: string)
    requires Plain(x)
    ensures Plain("<strong>" + x + "</strong>")
  {
    assert Plain("<strong>");
    assert Plain("</strong>");
    PlainConcat("<strong>", x);
    PlainConcat("<strong>" + x, "</strong>");
  }

  /** Bold runs first: `**x**` over plain `x` becomes strong text, not two
      emphasised empty spans. */
  lemma BoldBeforeItalic(x: string)
    requires Plain(x) && forall k :: 0 <= k < |x| ==> !IsLineTerminator(x[k])
    ensures Render("**" + x + "**") == "<strong>" + x + "</strong>"
  {
    var once := "<strong>" + x + "</strong>";
    assert forall k :: 0 <= k < |x| ==> x[k] != '*';
    BoldSpan(x);
    PlainStrong(x);
    RenderAfterBold("**" + x + "**");
    ChainApplicable();
    ChainTriggers(Chain[1..], once);
    ApplyAllWithoutTriggers(Chain[1..], once);
  }
}
