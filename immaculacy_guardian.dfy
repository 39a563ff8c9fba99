/** The Immaculacy Guardian fork: a validator that reads the generated output of
  * a proposal and lists the issues it finds, in a fixed order, voting "NO" as
  * soon as one is found.  Each check is a string predicate; the issue list is
  * built by appending. */
module ImmaculacyGuardian {

  /** The six kinds of issue, in check order; the long-line issue carries its count. */
  datatype Issue =
    | PlaceholderFound
    | IncompleteCode
    | PartialCode
    | LongLinesFound(count: nat)
    | FencesMissing
    | BoldPathMissing

  /** The returned dictionary; its "issues" entry is `IssueTexts(issues)`. */
  datatype Verdict = Verdict(vote: string, insight: string, issues: seq<Issue>)

  // ---------------------------------------------------------------- substrings

  /** `needle` occurs in `hay` starting at index i. */
  ghost predicate OccursAt(hay: string, needle: string, i: int) {
    0 <= i && i + |needle| <= |hay| && hay[i..i + |needle|] == needle
  }

  /** Python's `needle in hay`, read declaratively. */
  ghost predicate Occurs(hay: string, needle: string) {
    exists i :: OccursAt(hay, needle, i)
  }

  /** Python's `needle in hay`, computed by scanning from the left. */
  function Contains(hay: string, needle: string): bool
    decreases |hay|
  {
    if |needle| > |hay| then false
    else if hay[..|needle|] == needle then true
    else Contains(hay[1..], needle)
  }

  /** The scan finds the needle exactly when it occurs somewhere. */
  lemma {:induction false} ContainsIff(hay: string, needle: string)
    ensures Contains(hay, needle) <==> Occurs(hay, needle)
    decreases |hay|
  {
    if |needle| > |hay| {
    } else if hay[..|needle|] == needle {
      assert OccursAt(hay, needle, 0);
    } else {
      ContainsIff(hay[1..], needle);
      if Occurs(hay, needle) {
        var i :| OccursAt(hay, needle, i);
        assert i != 0;
        OccursDrop(hay, needle, i);
      }
      if Occurs(hay[1..], needle) {
        var i :| OccursAt(hay[1..], needle, i);
        OccursLift(hay, needle, i);
      }
    }
  }

  /** An occurrence past the first character is an occurrence in the tail. */
  lemma OccursDrop(hay: string, needle: string, i: int)
    requires i > 0 && OccursAt(hay, needle, i)
    ensures OccursAt(hay[1..], needle, i - 1)
  {
    assert hay[1..][i - 1..i - 1 + |needle|] == hay[i..i + |needle|];
  }

  /** An occurrence in the tail is an occurrence one place later. */
  lemma OccursLift(hay: string, needle: string, i: int)
    requires |hay| > 0 && OccursAt(hay[1..], needle, i)
    ensures OccursAt(hay, needle, i + 1)
  {
    assert hay[1..][i..i + |needle|] == hay[i + 1..i + 1 + |needle|];
  }

  // ---------------------------------------------------------------- lower case

  function LowerChar(c: char): (d: char)
    ensures !('A' <= d <= 'Z')
    ensures !('A' <= c <= 'Z') ==> d == c
  {
    if 'A' <= c <= 'Z' then (c as int + 32) as char else c
  }

  /** `str.lower()` on the ASCII letters; every other character is kept. */
  function Lower(s: string): (t: string)
    ensures |t| == |s|
    ensures forall k :: 0 <= k < |s| ==> t[k] == LowerChar(s[k])
  {
    seq(|s|, k requires 0 <= k < |s| => LowerChar(s[k]))
  }

  // ---------------------------------------------------------------- lines

  /** The characters `str.splitlines()` treats as line boundaries ("\r\n" counts once). */
  predicate IsLineBreak(c: char) {
    c == '\n' || c == '\r' || c == '\U{0B}' || c == '\U{0C}' || c == '\U{1C}' || c == '\U{1D}'
    || c == '\U{1E}' || c == '\U{85}' || c == '\U{2028}' || c == '\U{2029}'
  }

  /** The index of the first line boundary, or |s| when there is none. */
  function FirstBreak(s: string): (i: nat)
    ensures i <= |s|
    ensures i < |s| ==> IsLineBreak(s[i])
    ensures forall k :: 0 <= k < i ==> !IsLineBreak(s[k])
    decreases |s|
  {
    if |s| == 0 || IsLineBreak(s[0]) then 0 else 1 + FirstBreak(s[1..])
  }

  /** The length of the boundary starting at index i: 2 for "\r\n", otherwise 1. */
  function BreakWidth(s: string, i: nat): (w: nat)
    requires i < |s|
    ensures w == 1 || w == 2
    ensures i + w <= |s|
  {
    if s[i] == '\r' && i + 1 < |s| && s[i + 1] == '\n' then 2 else 1
  }

  /** `str.splitlines()`: the pieces between boundaries, without the boundaries,
    * where a boundary at the very end does not start another (empty) line. */
  function SplitLines(s: string): (lines: seq<string>)
    ensures |lines| == 0 <==> |s| == 0
    ensures forall n :: 0 <= n < |lines| ==> forall k :: 0 <= k < |lines[n]| ==> !IsLineBreak(lines[n][k])
    decreases |s|
  {
    if |s| == 0 then []
    else
      var i := FirstBreak(s);
      if i == |s| then [s]
      else [s[..i]] + SplitLines(s[i + BreakWidth(s, i)..])
  }

  /** The number of line boundaries in s, scanning character by character. */
  function Terminators(s: string): nat
    decreases |s|
  {
    if |s| == 0 then 0
    else if IsLineBreak(s[0]) then 1 + Terminators(s[BreakWidth(s, 0)..])
    else Terminators(s[1..])
  }

  /** A boundary-free prefix contributes no terminators. */
  lemma {:induction false} TerminatorsSkip(s: string, i: nat)
    requires i <= |s|
    requires forall k :: 0 <= k < i ==> !IsLineBreak(s[k])
    ensures Terminators(s) == Terminators(s[i..])
    decreases i
  {
    if i > 0 {
      assert !IsLineBreak(s[0]);
      TerminatorsSkip(s[1..], i - 1);
      assert s[1..][i - 1..] == s[i..];
    }
  }

  /** A boundary at the head of s counts once and is skipped whole. */
  lemma TerminatorsAtBreak(s: string)
    requires |s| > 0 && IsLineBreak(s[0])
    ensures Terminators(s) == 1 + Terminators(s[BreakWidth(s, 0)..])
  {
  }

  /** One line per boundary, plus one for a last line that has no boundary after it. */
  lemma {:induction false} LineCount(s: string)
    ensures |SplitLines(s)| == Terminators(s) + (if |s| > 0 && !IsLineBreak(s[|s| - 1]) then 1 else 0)
    decreases |s|
  {
    if |s| > 0 {
      var i := FirstBreak(s);
      TerminatorsSkip(s, i);
      if i < |s| {
        var w := BreakWidth(s, i);
        var rest := s[i + w..];
        LineCount(rest);
        var t := s[i..];
        assert BreakWidth(t, 0) == w;
        TerminatorsAtBreak(t);
        assert t[w..] == rest;
        assert SplitLines(s) == [s[..i]] + SplitLines(rest);
        if |rest| > 0 {
          assert rest[|rest| - 1] == s[|s| - 1];
        } else {
          assert IsLineBreak(s[|s| - 1]) by {
            if w == 2 { assert s[i + 1] == '\n'; }
          }
        }
      }
    }
  }

  /** `[line for line in lines if len(line) > 80]`. */
  function LongLines(lines: seq<string>): (long: seq<string>)
    ensures |long| <= |lines|
    ensures forall l :: l in long ==> l in lines && |l| > 80
    ensures forall l :: l in lines && |l| > 80 ==> l in long
  {
    if |lines| == 0 then []
    else (if |lines[0]| > 80 then [lines[0]] else []) + LongLines(lines[1..])
  }

  // ---------------------------------------------------------------- numbers

  function DigitChar(d: nat): (c: char)
    requires d < 10
    ensures '0' <= c <= '9'
  {
    ('0' as int + d) as char
  }

  /** The decimal form f"{n}": digits only, with no leading zero. */
  function NatToString(n: nat): (s: string)
    ensures |s| >= 1
    ensures forall k :: 0 <= k < |s| ==> '0' <= s[k] <= '9'
    ensures s[0] == '0' <==> n == 0
    decreases n
  {
    if n < 10 then [DigitChar(n)] else NatToString(n / 10) + [DigitChar(n % 10)]
  }

  /** Reads a digit string back as a number. */
  function ParseNat(s: string): nat
    requires forall k :: 0 <= k < |s| ==> '0' <= s[k] <= '9'
    decreases |s|
  {
    if |s| == 0 then 0
    else ParseNat(s[..|s| - 1]) * 10 + (s[|s| - 1] as int - '0' as int)
  }

  /** The decimal form loses nothing. */
  lemma {:induction false} NatToStringRoundTrip(n: nat)
    ensures ParseNat(NatToString(n)) == n
    decreases n
  {
    if n >= 10 {
      NatToStringRoundTrip(n / 10);
      var s := NatToString(n);
      assert s[..|s| - 1] == NatToString(n / 10);
    }
  }

  // ---------------------------------------------------------------- bold paths

  predicate IsWordChar(c: char) {
    'a' <= c <= 'z' || c == '_'
  }

  ghost predicate AllWord(s: string, lo: int, hi: int) {
    0 <= lo <= hi <= |s| && forall k :: lo <= k < hi ==> IsWordChar(s[k])
  }

  /** The pattern `\*\*[a-z_]+/[a-z_]+\.py\*\*` matches s[i..k + 5], with its slash at j. */
  ghost predicate PathMatchAt(s: string, i: int, j: int, k: int) {
    0 <= i && i + 2 < j && j + 1 < k && k + 5 <= |s|
    && s[i..i + 2] == "**" && AllWord(s, i + 2, j) && s[j] == '/'
    && AllWord(s, j + 1, k) && s[k..k + 5] == ".py**"
  }

  /** `re.search` of that pattern succeeds. */
  ghost predicate HasBoldPath(s: string) {
    exists i, j, k :: PathMatchAt(s, i, j, k)
  }

  /** The end of the longest run of `[a-z_]` starting at p. */
  function WordEnd(s: string, p: nat): (q: nat)
    requires p <= |s|
    ensures p <= q <= |s|
    ensures AllWord(s, p, q)
    ensures q < |s| ==> !IsWordChar(s[q])
    decreases |s| - p
  {
    if p < |s| && IsWordChar(s[p]) then WordEnd(s, p + 1) else p
  }

  /** A run that stops at a non-word character is the longest run. */
  lemma {:induction false} WordEndExact(s: string, p: nat, q: nat)
    requires AllWord(s, p, q)
    requires q < |s| && !IsWordChar(s[q])
    ensures WordEnd(s, p) == q
    decreases q - p
  {
    if p < q {
      WordEndExact(s, p + 1, q);
    }
  }

  /** The match attempt at i: both runs are taken greedily, which is the only
    * choice, since neither '/' nor '.' is a word character. */
  function MatchesAt(s: string, i: nat): bool
    requires i <= |s|
  {
    i + 2 <= |s| && s[i..i + 2] == "**" &&
    var j := WordEnd(s, i + 2);
    j > i + 2 && j < |s| && s[j] == '/' &&
    var k := WordEnd(s, j + 1);
    k > j + 1 && k + 5 <= |s| && s[k..k + 5] == ".py**"
  }

  lemma MatchesAtIff(s: string, i: nat)
    requires i <= |s|
    ensures MatchesAt(s, i) <==> exists j, k :: PathMatchAt(s, i, j, k)
  {
    if MatchesAt(s, i) {
      MatchesAtWitness(s, i);
    }
    if exists j, k :: PathMatchAt(s, i, j, k) {
      var j, k :| PathMatchAt(s, i, j, k);
      PathMatchGreedy(s, i, j, k);
      assert MatchesAt(s, i);
    }
  }

  /** A successful attempt is a match whose runs are the greedy ones. */
  lemma MatchesAtWitness(s: string, i: nat)
    requires i <= |s| && MatchesAt(s, i)
    ensures PathMatchAt(s, i, WordEnd(s, i + 2), WordEnd(s, WordEnd(s, i + 2) + 1))
  {
  }

  /** In a match, both runs end where the greedy scan stops them. */
  lemma PathMatchGreedy(s: string, i: int, j: int, k: int)
    requires PathMatchAt(s, i, j, k)
    ensures WordEnd(s, i + 2) == j && WordEnd(s, j + 1) == k
  {
    assert !IsWordChar(s[j]);
    WordEndExact(s, i + 2, j);
    assert s[k] == s[k..k + 5][0];
    assert !IsWordChar(s[k]);
    WordEndExact(s, j + 1, k);
  }

  /** Tries every start position from i on. */
  function SearchFrom(s: string, i: nat): bool
    requires i <= |s|
    decreases |s| - i
  {
    if i == |s| then false else MatchesAt(s, i) || SearchFrom(s, i + 1)
  }

  lemma {:induction false} SearchFromIff(s: string, i: nat)
    requires i <= |s|
    ensures SearchFrom(s, i) <==> exists i', j, k :: i <= i' && PathMatchAt(s, i', j, k)
    decreases |s| - i
  {
    if i < |s| {
      SearchFromIff(s, i + 1);
      MatchesAtIff(s, i);
      if exists i', j, k :: i <= i' && PathMatchAt(s, i', j, k) {
        var i', j, k :| i <= i' && PathMatchAt(s, i', j, k);
        if i' == i {
          assert MatchesAt(s, i);
        } else {
          assert SearchFrom(s, i + 1);
        }
      }
    } else {
      assert forall i', j, k :: i <= i' ==> !PathMatchAt(s, i', j, k);
    }
  }

  /** `re.search(...)` on the bold-path pattern. */
  predicate HasPath(s: string) {
    SearchFrom(s, 0)
  }

  /** The search is truthy exactly when some position matches. */
  lemma HasPathIff(s: string)
    ensures HasPath(s) <==> HasBoldPath(s)
  {
    SearchFromIff(s, 0);
  }

  // ---------------------------------------------------------------- issue list

  /** `xs` is `ys` with some entries dropped and the rest kept in order. */
  predicate SubsequenceOf<T(==)>(xs: seq<T>, ys: seq<T>)
    decreases |ys|
  {
    if |xs| == 0 then true
    else if |ys| == 0 then false
    else if xs[0] == ys[0] then SubsequenceOf(xs[1..], ys[1..])
    else SubsequenceOf(xs, ys[1..])
  }

  lemma {:induction false} SubsequenceSkip<T>(xs: seq<T>, ys: seq<T>, y: T)
    requires SubsequenceOf(xs, ys)
    ensures SubsequenceOf(xs, ys + [y])
    decreases |ys|
  {
    if |xs| > 0 {
      assert (ys + [y])[1..] == ys[1..] + [y];
      if xs[0] == ys[0] {
        SubsequenceSkip(xs[1..], ys[1..], y);
      } else {
        SubsequenceSkip(xs, ys[1..], y);
      }
    }
  }

  lemma {:induction false} SubsequenceKeep<T>(xs: seq<T>, ys: seq<T>, y: T)
    requires SubsequenceOf(xs, ys)
    ensures SubsequenceOf(xs + [y], ys + [y])
    decreases |ys|
  {
    if |ys| == 0 {
      assert xs == [];
      assert [y][1..] == [];
    } else {
      assert (ys + [y])[1..] == ys[1..] + [y];
      if |xs| == 0 {
        if ys[0] != y {
          SubsequenceKeep(xs, ys[1..], y);
        } else {
          assert ([] + [y])[1..] == [];
        }
      } else {
        assert (xs + [y])[1..] == xs[1..] + [y];
        if xs[0] == ys[0] {
          SubsequenceKeep(xs[1..], ys[1..], y);
        } else {
          SubsequenceKeep(xs, ys[1..], y);
        }
      }
    }
  }

  lemma {:induction false} SubsequenceLength<T>(xs: seq<T>, ys: seq<T>)
    requires SubsequenceOf(xs, ys)
    ensures |xs| <= |ys|
    decreases |ys|
  {
    if |xs| > 0 {
      if xs[0] == ys[0] {
        SubsequenceLength(xs[1..], ys[1..]);
      } else {
        SubsequenceLength(xs, ys[1..]);
      }
    }
  }

  /** The first k entries of ys whose flag is set, in order: the issue list after
    * the first k checks, whose outcomes are `flags`, have run. */
  function Select<T>(flags: seq<bool>, ys: seq<T>, k: nat): (picked: seq<T>)
    requires |flags| == |ys| && k <= |ys|
    decreases k
  {
    if k == 0 then []
    else Select(flags, ys, k - 1) + (if flags[k - 1] then [ys[k - 1]] else [])
  }

  /** Over distinct candidates, a candidate among the first k is picked exactly when
    * its flag is set, the picks keep the candidates' order, and there are no more
    * picks than candidates. */
  lemma {:induction false} SelectFacts<T>(flags: seq<bool>, ys: seq<T>, k: nat)
    requires |flags| == |ys| && k <= |ys|
    requires forall a, b :: 0 <= a < b < |ys| ==> ys[a] != ys[b]
    ensures forall x :: x in Select(flags, ys, k) ==> x in ys[..k]
    ensures forall n :: 0 <= n < k ==> (ys[n] in Select(flags, ys, k) <==> flags[n])
    ensures SubsequenceOf(Select(flags, ys, k), ys[..k])
    ensures |Select(flags, ys, k)| <= k
    decreases k
  {
    if k > 0 {
      var n := k - 1;
      var prefix := Select(flags, ys, n);
      SelectFacts(flags, ys, n);
      assert ys[..k] == ys[..n] + [ys[n]];
      assert ys[n] !in prefix by {
        forall a | 0 <= a < n
          ensures ys[..n][a] != ys[n]
        {
        }
      }
      if flags[n] {
        SubsequenceKeep(prefix, ys[..n], ys[n]);
        assert Select(flags, ys, k) == prefix + [ys[n]];
      } else {
        SubsequenceSkip(prefix, ys[..n], ys[n]);
        assert Select(flags, ys, k) == prefix;
      }
      SubsequenceLength(Select(flags, ys, k), ys[..k]);
    }
  }

  // ---------------------------------------------------------------- insight text

  /** `repr` of an issue string: the issue texts hold no quote and no backslash,
    * so the representation is the text in single quotes. */
  function Quote(s: string): string {
    "'" + s + "'"
  }

  function JoinRepr(xs: seq<string>): string
    decreases |xs|
  {
    if |xs| == 0 then ""
    else if |xs| == 1 then Quote(xs[0])
    else Quote(xs[0]) + ", " + JoinRepr(xs[1..])
  }

  /** `str(list)` of a list of issue texts. */
  function ListRepr(xs: seq<string>): string {
    "[" + JoinRepr(xs) + "]"
  }

  lemma {:induction false} JoinReprEmbeds(xs: seq<string>, n: nat)
    requires n < |xs|
    ensures Occurs(JoinRepr(xs), Quote(xs[n]))
    decreases |xs|
  {
    var head := Quote(xs[0]);
    if n == 0 {
      if |xs| == 1 {
        assert OccursAt(JoinRepr(xs), head, 0);
      } else {
        assert JoinRepr(xs)[..|head|] == head;
        assert OccursAt(JoinRepr(xs), head, 0);
      }
    } else {
      JoinReprEmbeds(xs[1..], n - 1);
      var tail := JoinRepr(xs[1..]);
      var q := Quote(xs[n]);
      assert xs[1..][n - 1] == xs[n];
      var i :| OccursAt(tail, q, i);
      var off := |head| + 2;
      assert JoinRepr(xs) == (head + ", ") + tail;
      assert JoinRepr(xs)[off + i..off + i + |q|] == tail[i..i + |q|];
      assert OccursAt(JoinRepr(xs), q, off + i);
    }
  }

  /** Every issue appears, quoted, in the list's text. */
  lemma ListReprEmbeds(xs: seq<string>, n: nat)
    requires n < |xs|
    ensures Occurs(ListRepr(xs), Quote(xs[n]))
  {
    JoinReprEmbeds(xs, n);
    var q := Quote(xs[n]);
    var i :| OccursAt(JoinRepr(xs), q, i);
    assert ListRepr(xs)[1 + i..1 + i + |q|] == JoinRepr(xs)[i..i + |q|];
    assert OccursAt(ListRepr(xs), q, 1 + i);
  }

  // ---------------------------------------------------------------- the fork

  const PlaceholderPhrases: seq<string> := ["previous", "placeholder", "add to", "append", "# ..."]

  /** The em dash that every issue text carries. */
  const Dash: char := '\U{2014}'

  /** What follows the count in the long-line text. */
  const LongLinesTail: string := " long lines " + [Dash] + " mobile wrap friction"

  /** The text each issue is reported with. */
  function Text(issue: Issue): string {
    match issue
    case PlaceholderFound => "Placeholder/edit forced detected " + [Dash] + " violation of 1-shot law"
    case IncompleteCode => "Incomplete method/class " + [Dash] + " missing returns/logic"
    case PartialCode => "Partial code suspected " + [Dash] + " full required for deploy"
    case LongLinesFound(count) => NatToString(count) + LongLinesTail
    case FencesMissing => "Missing fenced blocks " + [Dash] + " copy-paste not seamless"
    case BoldPathMissing => "Missing bold exact path prefixes " + [Dash] + " 1-shot naming violation"
  }

  /** The "issues" list of the returned dictionary. */
  function IssueTexts(issues: seq<Issue>): (texts: seq<string>)
    ensures |texts| == |issues|
    ensures forall n :: 0 <= n < |issues| ==> texts[n] == Text(issues[n])
  {
    seq(|issues|, n requires 0 <= n < |issues| => Text(issues[n]))
  }

  /** A digit string followed by a tail that starts with a non-digit can be split
    * back into the two. */
  lemma DigitsPrefixUnique(d1: string, d2: string, tail: string)
    requires forall k :: 0 <= k < |d1| ==> '0' <= d1[k] <= '9'
    requires forall k :: 0 <= k < |d2| ==> '0' <= d2[k] <= '9'
    requires |tail| > 0 && !('0' <= tail[0] <= '9')
    requires d1 + tail == d2 + tail
    ensures d1 == d2
  {
    if |d1| == |d2| {
      assert d1 == (d1 + tail)[..|d1|];
      assert d2 == (d2 + tail)[..|d2|];
    }
  }

  /** Each text opens with a letter, except the long-line text, which opens with
    * its count. */
  lemma TextFirstChar(issue: Issue)
    ensures |Text(issue)| > 8
    ensures issue == PlaceholderFound || issue == PartialCode ==> Text(issue)[0] == 'P'
    ensures issue == IncompleteCode ==> Text(issue)[0] == 'I'
    ensures issue.LongLinesFound? ==> '0' <= Text(issue)[0] <= '9'
    ensures issue == FencesMissing || issue == BoldPathMissing ==> Text(issue)[0] == 'M'
  {
  }

  /** The character that tells the two texts opening with 'P' apart. */
  lemma TextSecondP(issue: Issue)
    ensures issue == PlaceholderFound ==> Text(issue)[1] == 'l'
    ensures issue == PartialCode ==> Text(issue)[1] == 'a'
  {
  }

  /** The character that tells the two texts opening with 'M' apart. */
  lemma TextSecondM(issue: Issue)
    ensures issue == FencesMissing ==> Text(issue)[8] == 'f'
    ensures issue == BoldPathMissing ==> Text(issue)[8] == 'b'
  {
  }

  /** Different issues are reported with different texts, so the text list
    * determines the issue list. */
  lemma TextInjective(a: Issue, b: Issue)
    requires Text(a) == Text(b)
    ensures a == b
  {
    TextFirstChar(a);
    TextFirstChar(b);
    TextSecondP(a);
    TextSecondP(b);
    TextSecondM(a);
    TextSecondM(b);
    if a.LongLinesFound? && b.LongLinesFound? {
      assert LongLinesTail[0] == ' ';
      DigitsPrefixUnique(NatToString(a.count), NatToString(b.count), LongLinesTail);
      NatToStringRoundTrip(a.count);
      NatToStringRoundTrip(b.count);
    }
  }

  /** The six possible issues in check order, for a given long-line count. */
  function Candidates(count: nat): seq<Issue> {
    [PlaceholderFound, IncompleteCode, PartialCode, LongLinesFound(count), FencesMissing, BoldPathMissing]
  }

  /** The six kinds are distinct. */
  lemma CandidatesDistinct(count: nat)
    ensures forall a, b :: 0 <= a < b < 6 ==> Candidates(count)[a] != Candidates(count)[b]
  {
  }

  const GlitchPrefix: string := "Glitch prevention deepened: "
  const GlitchSuffix: string := ". Self-heal: Rewrite full complete 1-shot code with bold paths + fences."
  const ImmaculateInsight: string :=
    "Output immaculate deepened " + [Dash] + " full 1-shot compliant, mobile seamless, thriving eternal."

  /** `dict.get(key, "")`. */
  function Get(proposal: map<string, string>, key: string): (v: string)
    ensures key in proposal ==> v == proposal[key]
    ensures key !in proposal ==> v == ""
  {
    if key in proposal then proposal[key] else ""
  }

  /** Declaratively: the lower-cased output contains one of the five phrases. */
  ghost predicate HasPlaceholder(output: string) {
    exists phrase :: phrase in PlaceholderPhrases && Occurs(Lower(output), phrase)
  }

  /** The placeholder check, `any(phrase in output.lower() for phrase in ...)`. */
  predicate PlaceholderScan(output: string) {
    exists phrase :: phrase in PlaceholderPhrases && Contains(Lower(output), phrase)
  }

  /** Declaratively: a definition and a class but no return. */
  ghost predicate IncompleteFires(output: string) {
    Occurs(output, "def ") && !Occurs(output, "return") && Occurs(output, "class")
  }

  /** The completeness check. */
  predicate IncompleteScan(output: string) {
    Contains(output, "def ") && !Contains(output, "return") && Contains(output, "class")
  }

  /** Declaratively: fewer than 20 lines in a proposal whose type mentions code. */
  ghost predicate PartialFires(proposal: map<string, string>) {
    |SplitLines(Get(proposal, "generated_output"))| < 20 && Occurs(Get(proposal, "type"), "code")
  }

  /** The partial-code check. */
  predicate PartialScan(proposal: map<string, string>) {
    |SplitLines(Get(proposal, "generated_output"))| < 20 && Contains(Get(proposal, "type"), "code")
  }

  /** The fence check: no "```" anywhere. */
  predicate UnfencedScan(output: string) {
    !Contains(output, "```")
  }

  /** Each scan fires exactly when its declarative reading holds. */
  lemma ScansMeaning(proposal: map<string, string>)
    ensures var output := Get(proposal, "generated_output");
      && (PlaceholderScan(output) <==> HasPlaceholder(output))
      && (IncompleteScan(output) <==> IncompleteFires(output))
      && (PartialScan(proposal) <==> PartialFires(proposal))
      && (UnfencedScan(output) <==> !Occurs(output, "```"))
      && (HasPath(output) <==> HasBoldPath(output))
  {
    var output := Get(proposal, "generated_output");
    var lowered := Lower(output);
    forall phrase | phrase in PlaceholderPhrases
      ensures Contains(lowered, phrase) <==> Occurs(lowered, phrase)
    {
      ContainsIff(lowered, phrase);
    }
    ContainsIff(output, "def ");
    ContainsIff(output, "return");
    ContainsIff(output, "class");
    ContainsIff(Get(proposal, "type"), "code");
    ContainsIff(output, "```");
    HasPathIff(output);
  }

  /** The number of lines longer than 80 characters. */
  function LongLineCount(output: string): nat {
    |LongLines(SplitLines(output))|
  }

  /** The outcomes of the six checks, in check order. */
  ghost function Outcomes(proposal: map<string, string>): (flags: seq<bool>)
    ensures |flags| == 6
  {
    var output := Get(proposal, "generated_output");
    [PlaceholderScan(output), IncompleteScan(output), PartialScan(proposal),
     LongLineCount(output) > 0, UnfencedScan(output), !HasPath(output)]
  }

  /** The issue list built from those outcomes: each issue is present exactly when
    * its check fires, in check order, six at most. */
  lemma IssuesMeaning(proposal: map<string, string>)
    ensures var output := Get(proposal, "generated_output");
      var count := LongLineCount(output);
      var issues := Select(Outcomes(proposal), Candidates(count), 6);
      && (PlaceholderFound in issues <==> HasPlaceholder(output))
      && (IncompleteCode in issues <==> IncompleteFires(output))
      && (PartialCode in issues <==> PartialFires(proposal))
      && (LongLinesFound(count) in issues <==> count > 0)
      && (FencesMissing in issues <==> !Occurs(output, "```"))
      && (BoldPathMissing in issues <==> !HasBoldPath(output))
      && SubsequenceOf(issues, Candidates(count))
      && |issues| <= 6
  {
    var output := Get(proposal, "generated_output");
    var flags := Outcomes(proposal);
    CandidatesPicked(flags, LongLineCount(output));
    CandidatesOrdered(flags, LongLineCount(output));
    ScansMeaning(proposal);
  }

  /** Each of the six issues is picked exactly when its flag is set. */
  lemma CandidatesPicked(flags: seq<bool>, count: nat)
    requires |flags| == 6
    ensures var issues := Select(flags, Candidates(count), 6);
      && (PlaceholderFound in issues <==> flags[0])
      && (IncompleteCode in issues <==> flags[1])
      && (PartialCode in issues <==> flags[2])
      && (LongLinesFound(count) in issues <==> flags[3])
      && (FencesMissing in issues <==> flags[4])
      && (BoldPathMissing in issues <==> flags[5])
  {
    var checked := Candidates(count);
    CandidatesDistinct(count);
    SelectFacts(flags, checked, 6);
    assert checked[0] == PlaceholderFound && checked[1] == IncompleteCode && checked[2] == PartialCode;
    assert checked[3] == LongLinesFound(count) && checked[4] == FencesMissing && checked[5] == BoldPathMissing;
  }

  /** The picked issues keep check order, six at most. */
  lemma CandidatesOrdered(flags: seq<bool>, count: nat)
    requires |flags| == 6
    ensures SubsequenceOf(Select(flags, Candidates(count), 6), Candidates(count))
    ensures |Select(flags, Candidates(count), 6)| <= 6
  {
    var checked := Candidates(count);
    CandidatesDistinct(count);
    SelectFacts(flags, checked, 6);
    assert checked[..6] == checked;
  }


  /** `if flag: issues.append(text)`. */
  method AppendIf(issues: seq<Issue>, flag: bool, issue: Issue) returns (next: seq<Issue>)
    ensures next == issues + (if flag then [issue] else [])
  {
    next := issues;
    if flag {
      next := next + [issue];
    }
  }

  /** The appends of `deliberate`: each issue goes on the list when its check fired,
    * in check order. */
  method AppendIssues(placeholder: bool, incomplete: bool, partial: bool, count: nat,
                      unfenced: bool, pathless: bool) returns (issues: seq<Issue>)
    ensures issues == Select([placeholder, incomplete, partial, count > 0, unfenced, pathless], Candidates(count), 6)
  {
    ghost var flags := [placeholder, incomplete, partial, count > 0, unfenced, pathless];
    ghost var kinds := Candidates(count);
    issues := AppendIf([], placeholder, PlaceholderFound);
    assert issues == Select(flags, kinds, 1);
    issues := AppendIf(issues, incomplete, IncompleteCode);
    assert issues == Select(flags, kinds, 2);
    issues := AppendIf(issues, partial, PartialCode);
    assert issues == Select(flags, kinds, 3);
    issues := AppendIf(issues, count > 0, LongLinesFound(count));
    assert issues == Select(flags, kinds, 4);
    issues := AppendIf(issues, unfenced, FencesMissing);
    assert issues == Select(flags, kinds, 5);
    issues := AppendIf(issues, pathless, BoldPathMissing);
  }

  /** The six checks of `deliberate` and the issue list they build. */
  method FindIssues(proposal: map<string, string>) returns (issues: seq<Issue>)
    ensures issues == Select(Outcomes(proposal), Candidates(LongLineCount(Get(proposal, "generated_output"))), 6)
  {
    var output := Get(proposal, "generated_output");
    var placeholder := PlaceholderScan(output);
    var incomplete := IncompleteScan(output);
    var partial := PartialScan(proposal);
    var count := LongLineCount(output);
    var unfenced := UnfencedScan(output);
    var pathless := !HasPath(output);
    issues := AppendIssues(placeholder, incomplete, partial, count, unfenced, pathless);
  }

  /** The returned dictionary for a list of issues: "NO" with the glitch insight
    * naming them when there is one, "YES" with the immaculate insight otherwise. */
  function VerdictOf(issues: seq<Issue>): (r: Verdict)
    ensures r.issues == issues
    ensures r.vote == "NO" <==> |issues| > 0
    ensures r.vote == "YES" <==> |issues| == 0
    ensures |issues| > 0 ==> r.insight == GlitchPrefix + ListRepr(IssueTexts(issues)) + GlitchSuffix
    ensures |issues| == 0 ==> r.insight == ImmaculateInsight
  {
    if |issues| > 0 then Verdict("NO", GlitchPrefix + ListRepr(IssueTexts(issues)) + GlitchSuffix, issues)
    else Verdict("YES", ImmaculateInsight, issues)
  }

  /** `deliberate`: each issue is listed exactly when its check fires, the issues
    * come in check order, and the vote is "NO" exactly when there is one. */
  method Deliberate(proposal: map<string, string>) returns (r: Verdict)
    ensures var output := Get(proposal, "generated_output");
      && (PlaceholderFound in r.issues <==> HasPlaceholder(output))
      && (IncompleteCode in r.issues <==> IncompleteFires(output))
      && (PartialCode in r.issues <==> PartialFires(proposal))
      && (FencesMissing in r.issues <==> !Occurs(output, "```"))
      && (BoldPathMissing in r.issues <==> !HasBoldPath(output))
    ensures var count := LongLineCount(Get(proposal, "generated_output"));
      && (LongLinesFound(count) in r.issues <==> count > 0)
      && SubsequenceOf(r.issues, Candidates(count))
    ensures |r.issues| <= 6
    ensures r.vote == "NO" <==> |r.issues| > 0
    ensures r.vote == "YES" <==> |r.issues| == 0
    ensures |r.issues| > 0 ==> r.insight == GlitchPrefix + ListRepr(IssueTexts(r.issues)) + GlitchSuffix
    ensures |r.issues| == 0 ==> r.insight == ImmaculateInsight
  {
    var issues := FindIssues(proposal);
    IssuesMeaning(proposal);
    r := VerdictOf(issues);
  }
}
