/** Text helpers shared by every handler: ASCII lower-casing, JavaScript trimming,
    substring search, the regular-expression strips the chat rules apply, line
    splitting and joining, and decimal rendering of numbers.

    A regular expression `/(?:a|b|c)/` is modelled by a sequence of alternatives
    `["a", "b", "c"]` searched in the ASCII-lowered text; the `i` flag is then
    implicit, because every alternative the handlers use is already lower-case. */
module Text {

  datatype Option<T> = None | Some(value: T)

  /** The characters JavaScript's `\s` matches and `String.prototype.trim` removes
      (WhiteSpace and LineTerminator of ECMA-262). */
  predicate IsSpace(c: char) {
    || c == ' ' || c == '\t' || c == '\n' || c == '\r' || c == '\U{B}' || c == '\U{C}'
    || c == '\U{A0}' || c == '\U{1680}' || ('\U{2000}' <= c <= '\U{200A}')
    || c == '\U{2028}' || c == '\U{2029}' || c == '\U{202F}' || c == '\U{205F}'
    || c == '\U{3000}' || c == '\U{FEFF}'
  }

  /** The separator class `[:\s]` that follows every verb phrase the rules strip. */
  predicate IsSeparator(c: char) {
    c == ':' || IsSpace(c)
  }

  function LowerChar(c: char): char {
    if 'A' <= c <= 'Z' then (c as int + 32) as char else c
  }

  /** `String.prototype.toLowerCase`, restricted to the ASCII letters. */
  function Lower(s: string): (r: string)
    ensures |r| == |s|
    ensures forall i :: 0 <= i < |s| ==> r[i] == LowerChar(s[i])
  {
    seq(|s|, i requires 0 <= i < |s| => LowerChar(s[i]))
  }

  function UpperChar(c: char): char {
    if 'a' <= c <= 'z' then (c as int - 32) as char else c
  }

  /** `String.prototype.toUpperCase`, restricted to the ASCII letters. */
  function Upper(s: string): (r: string)
    ensures |r| == |s|
    ensures forall i :: 0 <= i < |s| ==> r[i] == UpperChar(s[i])
  {
    seq(|s|, i requires 0 <= i < |s| => UpperChar(s[i]))
  }

  lemma LowerConcat(a: string, b: string)
    ensures Lower(a + b) == Lower(a) + Lower(b)
  {
    assert forall i :: 0 <= i < |a + b| ==> Lower(a + b)[i] == (Lower(a) + Lower(b))[i];
  }

  lemma LowerIdempotent(s: string)
    ensures Lower(Lower(s)) == Lower(s)
  {
    assert forall i :: 0 <= i < |s| ==> Lower(Lower(s))[i] == Lower(s)[i];
  }

  // ---------------------------------------------------------------------------
  // Substring search

  /** `p` occurs in `s` starting at index `i`. */
  predicate OccursAt(s: string, p: string, i: int) {
    0 <= i && i + |p| <= |s| && s[i..i + |p|] == p
  }

  /** `s.includes(p)`. */
  predicate Contains(s: string, p: string) {
    exists i | 0 <= i <= |s| :: OccursAt(s, p, i)
  }

  /** `s.includes(p1) || s.includes(p2) || …`. */
  predicate ContainsAny(s: string, ps: seq<string>) {
    exists k | 0 <= k < |ps| :: Contains(s, ps[k])
  }

  /** `s.startsWith(p)`, the anchored regular expression `/^p/`. */
  predicate StartsWith(s: string, p: string) {
    |p| <= |s| && s[..|p|] == p
  }

  /** A string that starts with `p` starts with `p`'s first character. */
  lemma StartsWithHead(s: string, p: string)
    ensures StartsWith(s, p) && |p| > 0 ==> |s| > 0 && s[0] == p[0]
  {
    if StartsWith(s, p) && |p| > 0 {
      assert s[..|p|][0] == s[0];
    }
  }

  /** `/^(?:p1|p2|…)/`. */
  predicate StartsWithAny(s: string, ps: seq<string>) {
    exists k | 0 <= k < |ps| :: StartsWith(s, ps[k])
  }

  /** `/a.*b/` on a single line: an occurrence of `b` starts after an occurrence of `a` ends. */
  predicate OccursBefore(s: string, a: string, b: string) {
    exists i | 0 <= i <= |s| :: OccursAt(s, a, i) && Contains(s[i + |a|..], b)
  }

  /** `/(?:a1|a2|…).*(?:b1|b2|…)/` on a single line. */
  predicate AnyOccursBefore(s: string, firsts: seq<string>, seconds: seq<string>) {
    exists k, m | 0 <= k < |firsts| && 0 <= m < |seconds| :: OccursBefore(s, firsts[k], seconds[m])
  }

  /** `/^(?:a1|a2|…).*(?:b1|b2|…)/` on a single line: `s` starts with some `ai` and
      some `bj` occurs after it. */
  predicate StartsThenContains(s: string, firsts: seq<string>, seconds: seq<string>) {
    exists k | 0 <= k < |firsts| :: StartsWith(s, firsts[k]) && ContainsAny(s[|firsts[k]|..], seconds)
  }

  /** No alternative of the alternation is empty. */
  predicate NonEmptyAlternatives(ps: seq<string>) {
    forall k | 0 <= k < |ps| :: ps[k] != []
  }

  /** A character of `p` that `s` lacks shows that `p` does not occur in `s`. */
  lemma NotContainsByChar(s: string, p: string, c: char)
    requires c in p && c !in s
    ensures !Contains(s, p)
  {
    forall i | 0 <= i <= |s| ensures !OccursAt(s, p, i) {
    }
  }

  /** None of the words `ws` occurs in `s` when each holds a character missing
      from `s`: the `k`-th word the character `cs[k]`. */
  lemma AbsentWords(s: string, ws: seq<string>, cs: seq<char>)
    requires |cs| == |ws| && forall k | 0 <= k < |ws| :: cs[k] in ws[k] && cs[k] !in s
    ensures !ContainsAny(s, ws)
  {
    forall k | 0 <= k < |ws| ensures !Contains(s, ws[k]) {
      NotContainsByChar(s, ws[k], cs[k]);
    }
  }

  /** An occurrence inside a slice is an occurrence in the whole string. */
  lemma OccursInSlice(s: string, lo: int, hi: int, p: string, i: int)
    requires 0 <= lo <= hi <= |s|
    requires OccursAt(s[lo..hi], p, i)
    ensures OccursAt(s, p, lo + i)
  {
    forall k | 0 <= k < |p| ensures s[lo + i + k] == p[k] {
      assert s[lo..hi][i..i + |p|][k] == p[k];
    }
    assert s[lo + i..lo + i + |p|] == p;
  }

  /** The first two characters of an occurrence are those of the pattern. */
  lemma OccursHead(s: string, p: string, i: int)
    ensures OccursAt(s, p, i) && |p| >= 2 ==> s[i] == p[0] && s[i + 1] == p[1]
  {
    if OccursAt(s, p, i) && |p| >= 2 {
      assert s[i..i + |p|][0] == p[0] && s[i..i + |p|][1] == p[1];
    }
  }

  /** Occurrences in a concatenation that start in the right part are the
      occurrences in the right part, shifted. */
  lemma OccursInRight(a: string, b: string, p: string, i: int)
    requires |a| <= i
    ensures OccursAt(a + b, p, i) <==> OccursAt(b, p, i - |a|)
  {
    if 0 <= i - |a| && i + |p| <= |a + b| {
      assert (a + b)[i..i + |p|] == b[i - |a|..i - |a| + |p|];
    }
  }

  /** Occurrences that end inside the left part of a concatenation are those of the left part. */
  lemma OccursInLeft(a: string, b: string, p: string, i: int)
    requires 0 <= i && i + |p| <= |a|
    ensures OccursAt(a + b, p, i) <==> OccursAt(a, p, i)
  {
    assert (a + b)[i..i + |p|] == a[i..i + |p|];
  }

  /** An occurrence that straddles the boundary of `a + b` puts the pattern
      character `p[|a| - i]` on the first character of `b`. */
  lemma StraddleFirstChar(a: string, b: string, p: string, i: int)
    requires 0 <= i < |a| < i + |p|
    requires OccursAt(a + b, p, i)
    ensures b[0] == p[|a| - i]
  {
    assert (a + b)[i..i + |p|][|a| - i] == (a + b)[|a|];
  }

  /** Each character of an occurrence is the pattern's character. */
  lemma OccursChar(s: string, p: string, i: int, k: int)
    ensures OccursAt(s, p, i) && 0 <= k < |p| ==> s[i + k] == p[k]
  {
    if OccursAt(s, p, i) && 0 <= k < |p| {
      assert s[i..i + |p|][k] == s[i + k];
    }
  }

  /** A pattern without a space that occurs in `s + " "` occurs in `s`. */
  lemma ContainsBeforeSpace(s: string, p: string)
    requires forall k | 0 <= k < |p| :: p[k] != ' '
    ensures Contains(s + " ", p) ==> Contains(s, p)
  {
    if Contains(s + " ", p) {
      var i :| 0 <= i <= |s + " "| && OccursAt(s + " ", p, i);
      if p == [] {
        assert OccursAt(s, p, 0);
      } else {
        OccursChar(s + " ", p, i, |s| - i);
        OccursInLeft(s, " ", p, i);
      }
    }
  }

  /** A pattern without a space that occurs in `" " + s` occurs in `s`. */
  lemma ContainsAfterSpace(s: string, p: string)
    requires forall k | 0 <= k < |p| :: p[k] != ' '
    ensures Contains(" " + s, p) ==> Contains(s, p)
  {
    if Contains(" " + s, p) {
      var i :| 0 <= i <= |" " + s| && OccursAt(" " + s, p, i);
      if p == [] {
        assert OccursAt(s, p, 0);
      } else {
        OccursChar(" " + s, p, i, 0);
        OccursInRight(" ", s, p, i);
      }
    }
  }

  /** The middle part of a concatenation occurs in it. */
  lemma ContainsMiddle(a: string, b: string, c: string)
    ensures Contains(a + b + c, b)
  {
    assert (a + b + c)[|a|..|a| + |b|] == b;
    assert OccursAt(a + b + c, b, |a|);
  }

  /** Searching for one of `a + b` is searching for one of `a` or one of `b`. */
  lemma ContainsAnyConcat(s: string, a: seq<string>, b: seq<string>)
    ensures ContainsAny(s, a + b) <==> ContainsAny(s, a) || ContainsAny(s, b)
  {
    if ContainsAny(s, a + b) {
      var k :| 0 <= k < |a + b| && Contains(s, (a + b)[k]);
      if k < |a| {
        assert (a + b)[k] == a[k];
      } else {
        assert (a + b)[k] == b[k - |a|];
      }
    }
    if ContainsAny(s, a) {
      var k :| 0 <= k < |a| && Contains(s, a[k]);
      assert (a + b)[k] == a[k];
    }
    if ContainsAny(s, b) {
      var k :| 0 <= k < |b| && Contains(s, b[k]);
      assert (a + b)[|a| + k] == b[k];
    }
  }

  /** Whatever occurs in a slice occurs in the whole string. */
  lemma SliceContains(s: string, lo: int, hi: int, p: string)
    requires 0 <= lo <= hi <= |s| && Contains(s[lo..hi], p)
    ensures Contains(s, p)
  {
    var i :| 0 <= i <= |s[lo..hi]| && OccursAt(s[lo..hi], p, i);
    OccursInSlice(s, lo, hi, p, i);
  }

  lemma SliceContainsAny(s: string, lo: int, hi: int, ps: seq<string>)
    requires 0 <= lo <= hi <= |s| && ContainsAny(s[lo..hi], ps)
    ensures ContainsAny(s, ps)
  {
    var k :| 0 <= k < |ps| && Contains(s[lo..hi], ps[k]);
    SliceContains(s, lo, hi, ps[k]);
  }

  /** A string that contains `p` contains everything `p` contains. */
  lemma ContainsInside(s: string, p: string, q: string)
    requires Contains(p, q)
    ensures Contains(s, p) ==> Contains(s, q)
  {
    if Contains(s, p) {
      var i :| 0 <= i <= |s| && OccursAt(s, p, i);
      assert s[i..i + |p|] == p;
      SliceContains(s, i, i + |p|, q);
    }
  }

  /** Containing one alternative is containing the alternation. */
  lemma ContainsOneOf(s: string, ps: seq<string>, q: nat)
    requires q < |ps|
    ensures Contains(s, ps[q]) ==> ContainsAny(s, ps)
  {
  }

  /** An occurrence of one alternative is an occurrence of the alternation. */
  lemma OccursAtAny(s: string, ps: seq<string>, q: nat, i: int)
    requires q < |ps|
    ensures OccursAt(s, ps[q], i) ==> ContainsAny(s, ps)
  {
    if OccursAt(s, ps[q], i) {
      assert Contains(s, ps[q]);
    }
  }

  /** Both parts of `/a.*b/` occur. */
  lemma OccursBeforeContains(s: string, a: string, b: string)
    ensures OccursBefore(s, a, b) ==> Contains(s, a) && Contains(s, b)
  {
    if OccursBefore(s, a, b) {
      var i :| 0 <= i <= |s| && OccursAt(s, a, i) && Contains(s[i + |a|..], b);
      assert s[i + |a|..] == s[i + |a|..|s|];
      SliceContains(s, i + |a|, |s|, b);
    }
  }

  /** Some first alternative of `/(?:a1|…).*(?:b1|…)/` occurs. */
  lemma AnyOccursBeforeContains(s: string, firsts: seq<string>, seconds: seq<string>)
    ensures AnyOccursBefore(s, firsts, seconds) ==> ContainsAny(s, firsts)
  {
    if AnyOccursBefore(s, firsts, seconds) {
      var k, m :| 0 <= k < |firsts| && 0 <= m < |seconds| && OccursBefore(s, firsts[k], seconds[m]);
      OccursBeforeContains(s, firsts[k], seconds[m]);
    }
  }

  /** Lower-casing commutes with slicing. */
  lemma LowerSlice(s: string, lo: int, hi: int)
    requires 0 <= lo <= hi <= |s|
    ensures Lower(s[lo..hi]) == Lower(s)[lo..hi]
  {
  }

  /** An occurrence that straddles the boundary of `a + b` lays the rest of the
      pattern, from index `|a| - i`, over the start of `b`. */
  lemma StraddleChars(a: string, b: string, p: string, i: int)
    requires 0 <= i < |a| < i + |p|
    requires OccursAt(a + b, p, i)
    ensures forall k | 0 <= k < |b| && |a| - i + k < |p| :: b[k] == p[|a| - i + k]
    ensures b[0] == p[|a| - i]
    ensures |b| >= 2 && |a| - i + 1 < |p| ==> b[1] == p[|a| - i + 1]
  {
    forall k | 0 <= k < |b| && |a| - i + k < |p| ensures b[k] == p[|a| - i + k] {
      assert (a + b)[i..i + |p|][|a| - i + k] == (a + b)[|a| + k];
    }
  }

  // ---------------------------------------------------------------------------
  // Alternatives, leftmost and rightmost matches

  /** The first alternative (in order) that occurs at `i`, searching from `k`. */
  function AltFrom(s: string, ps: seq<string>, i: int, k: nat): (r: Option<nat>)
    requires k <= |ps|
    ensures r.Some? ==> k <= r.value < |ps| && OccursAt(s, ps[r.value], i)
    ensures r.Some? ==> forall j :: k <= j < r.value ==> !OccursAt(s, ps[j], i)
    ensures r.None? ==> forall j :: k <= j < |ps| ==> !OccursAt(s, ps[j], i)
    decreases |ps| - k
  {
    if k == |ps| then None
    else if OccursAt(s, ps[k], i) then Some(k)
    else AltFrom(s, ps, i, k + 1)
  }

  /** The alternative a regular-expression alternation picks at position `i`. */
  function AltAt(s: string, ps: seq<string>, i: int): Option<nat> {
    AltFrom(s, ps, i, 0)
  }

  predicate MatchesAt(s: string, ps: seq<string>, i: int) {
    AltAt(s, ps, i).Some?
  }

  lemma MatchesAtIff(s: string, ps: seq<string>, i: int)
    ensures MatchesAt(s, ps, i) <==> exists k | 0 <= k < |ps| :: OccursAt(s, ps[k], i)
  {
  }

  /** Length of the alternative matched at `i`. */
  function AltLen(s: string, ps: seq<string>, i: int): (n: nat)
    requires MatchesAt(s, ps, i)
    ensures i + n <= |s|
  {
    |ps[AltAt(s, ps, i).value]|
  }

  /** The leftmost position at or after `i` where some alternative occurs. */
  function FirstFrom(s: string, ps: seq<string>, i: nat): (r: Option<nat>)
    ensures r.Some? ==> i <= r.value <= |s| && MatchesAt(s, ps, r.value)
    ensures r.Some? ==> forall j :: i <= j < r.value ==> !MatchesAt(s, ps, j)
    ensures r.None? ==> forall j :: i <= j <= |s| ==> !MatchesAt(s, ps, j)
    decreases |s| + 1 - i
  {
    if i > |s| then None
    else if MatchesAt(s, ps, i) then Some(i)
    else FirstFrom(s, ps, i + 1)
  }

  /** The leftmost match of the alternation, as `String.prototype.search` finds it. */
  function FirstAny(s: string, ps: seq<string>): Option<nat> {
    FirstFrom(s, ps, 0)
  }

  /** The rightmost position below `n` where some alternative occurs. */
  function LastBelow(s: string, ps: seq<string>, n: nat): (r: Option<nat>)
    ensures r.Some? ==> r.value < n && MatchesAt(s, ps, r.value)
    ensures r.Some? ==> forall j :: r.value < j < n ==> !MatchesAt(s, ps, j)
    ensures r.None? ==> forall j :: 0 <= j < n ==> !MatchesAt(s, ps, j)
    decreases n
  {
    if n == 0 then None
    else if MatchesAt(s, ps, n - 1) then Some(n - 1)
    else LastBelow(s, ps, n - 1)
  }

  /** The rightmost position where some alternative occurs: where a greedy `.*`
      in front of the alternation leaves it. */
  function LastAny(s: string, ps: seq<string>): Option<nat> {
    LastBelow(s, ps, |s| + 1)
  }

  /** A match with no match after it is the rightmost one. */
  lemma LastAnyAt(s: string, ps: seq<string>, k: nat)
    requires k <= |s| && MatchesAt(s, ps, k)
    requires forall j | k < j <= |s| :: !MatchesAt(s, ps, j)
    ensures LastAny(s, ps) == Some(k)
  {
  }

  /** A match with no match before it is the leftmost one. */
  lemma FirstAnyAt(s: string, ps: seq<string>, k: nat)
    requires k <= |s| && MatchesAt(s, ps, k)
    requires forall j | 0 <= j < k :: !MatchesAt(s, ps, j)
    ensures FirstAny(s, ps) == Some(k)
  {
  }

  /** The alternation occurs somewhere exactly when it has a leftmost and a rightmost match. */
  lemma ContainsAnyMatches(s: string, ps: seq<string>)
    ensures ContainsAny(s, ps) <==> FirstAny(s, ps).Some?
    ensures ContainsAny(s, ps) <==> LastAny(s, ps).Some?
  {
    if ContainsAny(s, ps) {
      var k :| 0 <= k < |ps| && Contains(s, ps[k]);
      var i :| 0 <= i <= |s| && OccursAt(s, ps[k], i);
      MatchesAtIff(s, ps, i);
    }
    if FirstAny(s, ps).Some? {
      var i := FirstAny(s, ps).value;
      MatchesAtIff(s, ps, i);
      var k :| 0 <= k < |ps| && OccursAt(s, ps[k], i);
    }
    if LastAny(s, ps).Some? {
      var i := LastAny(s, ps).value;
      MatchesAtIff(s, ps, i);
      var k :| 0 <= k < |ps| && OccursAt(s, ps[k], i);
    }
  }

  /** The index after a run of `[:\s]*` starting at `i`. */
  function SkipSeparators(s: string, i: nat): (j: nat)
    requires i <= |s|
    ensures i <= j <= |s|
    ensures forall k :: i <= k < j ==> IsSeparator(s[k])
    ensures j < |s| ==> !IsSeparator(s[j])
    decreases |s| - i
  {
    if i < |s| && IsSeparator(s[i]) then SkipSeparators(s, i + 1) else i
  }

  /** A greedy case-insensitive cut on a single-line `s`: everything up to and
      including the last occurrence of an alternative, and the colons and blanks
      after it, is dropped. Without an occurrence `s` is unchanged. */
  function StripThroughLast(s: string, ps: seq<string>): string {
    var l := Lower(s);
    match LastAny(l, ps)
    case None => s
    case Some(k) => s[SkipSeparators(s, k + AltLen(l, ps, k))..]
  }

  /** A single case-insensitive removal: the leftmost occurrence of an alternative
      is cut out, together with the colons and blanks after it when `separators`
      holds. */
  function RemoveFirst(s: string, ps: seq<string>, separators: bool): string {
    var l := Lower(s);
    match FirstAny(l, ps)
    case None => s
    case Some(k) =>
      var e := k + AltLen(l, ps, k);
      s[..k] + s[if separators then SkipSeparators(s, e) else e..]
  }

  /** Nothing of the alternation occurs after its rightmost match. */
  lemma NoneAfterLast(l: string, ps: seq<string>, j: nat)
    requires LastAny(l, ps).Some? && LastAny(l, ps).value < j <= |l|
    ensures !ContainsAny(l[j..], ps)
  {
    forall q, i | 0 <= q < |ps| && 0 <= i <= |l[j..]| ensures !OccursAt(l[j..], ps[q], i) {
      if OccursAt(l[j..], ps[q], i) {
        assert l[j..] == l[j..|l|];
        OccursInSlice(l, j, |l|, ps[q], i);
        MatchesAtIff(l, ps, j + i);
      }
    }
  }

  /** The greedy strip keeps a suffix of its input. */
  lemma {:induction false} StripThroughLastSuffix(s: string, ps: seq<string>)
    requires NonEmptyAlternatives(ps)
    ensures |StripThroughLast(s, ps)| <= |s|
    ensures StripThroughLast(s, ps) == s[|s| - |StripThroughLast(s, ps)|..]
  {
    match LastAny(Lower(s), ps)
    case None =>
      assert StripThroughLast(s, ps) == s;
      assert s[0..] == s;
    case Some(k) =>
      var j := StripStart(s, ps, k);
      var r := s[j..];
      assert StripThroughLast(s, ps) == r;
      assert |s| - |r| == j;
  }

  /** No alternative occurs in what the greedy strip keeps. */
  lemma {:induction false} StripThroughLastClears(s: string, ps: seq<string>)
    requires NonEmptyAlternatives(ps)
    ensures !ContainsAny(Lower(StripThroughLast(s, ps)), ps)
  {
    var l := Lower(s);
    match LastAny(l, ps)
    case None =>
      assert StripThroughLast(s, ps) == s;
      ContainsAnyMatches(l, ps);
    case Some(k) =>
      var j := StripStart(s, ps, k);
      assert StripThroughLast(s, ps) == s[j..];
      NoneAfterLastLowered(s, ps, j);
  }

  /** `NoneAfterLast` on the lower-cased `s`, read on the slice of `s` itself. */
  lemma {:induction false} NoneAfterLastLowered(s: string, ps: seq<string>, j: nat)
    requires LastAny(Lower(s), ps).Some? && LastAny(Lower(s), ps).value < j <= |s|
    ensures !ContainsAny(Lower(s[j..]), ps)
  {
    var l := Lower(s);
    LowerSlice(s, j, |s|);
    assert s[j..] == s[j..|s|] && l[j..] == l[j..|s|];
    NoneAfterLast(l, ps, j);
  }

  /** The greedy strip shortens its input exactly when an alternative occurs in it. */
  lemma {:induction false} StripThroughLastShortens(s: string, ps: seq<string>)
    requires NonEmptyAlternatives(ps)
    ensures ContainsAny(Lower(s), ps) <==> |StripThroughLast(s, ps)| < |s|
  {
    var l := Lower(s);
    ContainsAnyMatches(l, ps);
    match LastAny(l, ps)
    case None =>
      assert StripThroughLast(s, ps) == s;
    case Some(k) =>
      var j := StripStart(s, ps, k);
      assert StripThroughLast(s, ps) == s[j..];
  }

  /** Where the greedy strip cuts when the rightmost match is at `k`: after the
      matched alternative, which is not empty, and its separators. */
  function StripStart(s: string, ps: seq<string>, k: nat): (j: nat)
    requires NonEmptyAlternatives(ps) && LastAny(Lower(s), ps) == Some(k)
    ensures k < j <= |s|
    ensures j == SkipSeparators(s, k + AltLen(Lower(s), ps, k))
  {
    var l := Lower(s);
    assert ps[AltAt(l, ps, k).value] != [];
    SkipSeparators(s, k + AltLen(l, ps, k))
  }

  /** When every alternative is at least `n` long, a strip that found one drops at
      least `n` characters. */
  lemma {:induction false} StripThroughLastDrops(s: string, ps: seq<string>, n: nat)
    requires NonEmptyAlternatives(ps) && forall k | 0 <= k < |ps| :: |ps[k]| >= n
    requires ContainsAny(Lower(s), ps)
    ensures |StripThroughLast(s, ps)| <= |s| - n
  {
    var l := Lower(s);
    ContainsAnyMatches(l, ps);
    var k := LastAny(l, ps).value;
    var q := AltAt(l, ps, k).value;
    assert AltLen(l, ps, k) == |ps[q]| >= n;
    var j := SkipSeparators(s, k + AltLen(l, ps, k));
    assert j >= n;
    assert StripThroughLast(s, ps) == s[j..];
  }

  /** Cutting out an alternation that does not occur changes nothing. */
  lemma RemoveFirstAbsent(s: string, ps: seq<string>, separators: bool)
    requires !ContainsAny(Lower(s), ps)
    ensures RemoveFirst(s, ps, separators) == s
  {
    ContainsAnyMatches(Lower(s), ps);
  }

  // ---------------------------------------------------------------------------
  // Trimming

  function TrimStart(s: string): (r: string)
    ensures |r| <= |s| && r == s[|s| - |r|..]
    ensures forall i :: 0 <= i < |s| - |r| ==> IsSpace(s[i])
    ensures r != [] ==> !IsSpace(r[0])
  {
    if s != [] && IsSpace(s[0]) then TrimStart(s[1..]) else s
  }

  function TrimEnd(s: string): (r: string)
    ensures |r| <= |s| && r == s[..|r|]
    ensures forall i :: |r| <= i < |s| ==> IsSpace(s[i])
    ensures r != [] ==> !IsSpace(r[|r| - 1])
  {
    if s != [] && IsSpace(s[|s| - 1]) then TrimEnd(s[..|s| - 1]) else s
  }

  /** `String.prototype.trim`. */
  function Trim(s: string): string {
    TrimEnd(TrimStart(s))
  }

  /** Neither end of `s` is a space. */
  predicate IsTrimmed(s: string) {
    s == [] || (!IsSpace(s[0]) && !IsSpace(s[|s| - 1]))
  }

  /** What `trim` keeps is a trimmed slice of its input with only spaces around it:
      `TrimStart` drops the leading spaces and `TrimEnd` the trailing ones. */
  lemma {:induction false} TrimSpec(s: string)
    ensures IsTrimmed(Trim(s))
    ensures Trim(s) == s[|s| - |TrimStart(s)|..|s| - |TrimStart(s)| + |Trim(s)|]
    ensures forall k :: |s| - |TrimStart(s)| + |Trim(s)| <= k < |s| ==> IsSpace(s[k])
  {
    TrimIsTrimmed(s);
    TrimSlice(s);
    TrimTrailing(s);
  }

  lemma {:induction false} TrimSlice(s: string)
    ensures Trim(s) == s[|s| - |TrimStart(s)|..|s| - |TrimStart(s)| + |Trim(s)|]
  {
    var a := TrimStart(s);
    assert Trim(s) == TrimEnd(a);
    PrefixOfSuffix(s, a, Trim(s));
  }

  /** A prefix of a suffix of `s` is a slice of `s`. */
  lemma {:induction false} PrefixOfSuffix(s: string, a: string, r: string)
    requires |a| <= |s| && a == s[|s| - |a|..] && |r| <= |a| && r == a[..|r|]
    ensures r == s[|s| - |a|..|s| - |a| + |r|]
  {
  }

  lemma {:induction false} TrimTrailing(s: string)
    ensures forall k :: |s| - |TrimStart(s)| + |Trim(s)| <= k < |s| ==> IsSpace(s[k])
  {
    var a := TrimStart(s);
    var r := TrimEnd(a);
    var i := |s| - |a|;
    forall k | i + |r| <= k < |s| ensures IsSpace(s[k]) {
      assert s[k] == a[k - i];
      assert IsSpace(a[k - i]);
    }
  }

  lemma TrimIsTrimmed(s: string)
    ensures IsTrimmed(Trim(s))
  {
    var a := TrimStart(s);
    var r := TrimEnd(a);
    if r != [] {
      assert r[0] == a[0];
    }
  }

  /** Trimming cannot make an alternative occur. */
  lemma TrimKeepsAbsence(s: string, ps: seq<string>)
    requires !ContainsAny(Lower(s), ps)
    ensures !ContainsAny(Lower(Trim(s)), ps)
  {
    TrimSpec(s);
    var a := |s| - |TrimStart(s)|;
    var b := a + |Trim(s)|;
    LowerSlice(s, a, b);
    if ContainsAny(Lower(Trim(s)), ps) {
      SliceContainsAny(Lower(s), a, b, ps);
    }
  }

  /** Trimming a trimmed string with one space on each side gives it back. */
  lemma TrimAroundSpaces(s: string)
    requires s != [] && IsTrimmed(s)
    ensures Trim(" " + s + " ") == s
  {
    assert (" " + s + " ")[1..] == s + " ";
    assert TrimStart(s + " ") == s + " ";
    assert (s + " ")[..|s|] == s;
  }

  /** A trimmed string is its own trim. */
  lemma TrimOfTrimmed(s: string)
    requires IsTrimmed(s)
    ensures Trim(s) == s
  {
  }

  /** The trim of a string is empty exactly when the string holds only spaces. */
  lemma TrimEmptyIff(s: string)
    ensures Trim(s) == [] <==> forall i :: 0 <= i < |s| ==> IsSpace(s[i])
  {
    if forall i :: 0 <= i < |s| ==> IsSpace(s[i]) {
      assert TrimStart(s) == [] by { TrimStartAllSpace(s); }
    }
  }

  lemma TrimStartAllSpace(s: string)
    requires forall i :: 0 <= i < |s| ==> IsSpace(s[i])
    ensures TrimStart(s) == []
  {
    if s != [] {
      TrimStartAllSpace(s[1..]);
    }
  }

  // ---------------------------------------------------------------------------
  // Lines

  /** `parts.join(sep)`. */
  function Join(parts: seq<string>, sep: string): string {
    if |parts| == 0 then ""
    else if |parts| == 1 then parts[0]
    else parts[0] + sep + Join(parts[1..], sep)
  }

  /** The index of the first `c` in `s`. */
  function IndexOfChar(s: string, c: char): (i: nat)
    requires c in s
    ensures i < |s| && s[i] == c && c !in s[..i]
  {
    if s[0] == c then 0 else 1 + IndexOfChar(s[1..], c)
  }

  /** `s.split(c)` for a one-character separator: never empty, no piece holds `c`. */
  function Split(s: string, c: char): (parts: seq<string>)
    ensures |parts| >= 1
    ensures forall k :: 0 <= k < |parts| ==> c !in parts[k]
    decreases |s|
  {
    if c !in s then [s]
    else
      var i := IndexOfChar(s, c);
      [s[..i]] + Split(s[i + 1..], c)
  }

  /** Splitting and joining again with the same separator gives back the text. */
  lemma {:induction false} JoinSplit(s: string, c: char)
    ensures Join(Split(s, c), [c]) == s
    decreases |s|
  {
    if c in s {
      var i := IndexOfChar(s, c);
      var parts := [s[..i]] + Split(s[i + 1..], c);
      assert Split(s, c) == parts;
      assert parts[1..] == Split(s[i + 1..], c);
      assert Join(parts, [c]) == s[..i] + [c] + Join(Split(s[i + 1..], c), [c]);
      JoinSplit(s[i + 1..], c);
      assert s == s[..i] + [c] + s[i + 1..];
    }
  }

  /** An occurrence of `p` in parts joined by `c`, where `p` has no `c`, lies
      inside one of the parts. */
  lemma {:induction false} JoinedOccurrence(parts: seq<string>, c: char, p: string)
    requires |parts| >= 1 && c !in p
    ensures Contains(Join(parts, [c]), p) ==> exists k | 0 <= k < |parts| :: Contains(parts[k], p)
    decreases |parts|
  {
    if |parts| > 1 && Contains(Join(parts, [c]), p) {
      var rest := Join(parts[1..], [c]);
      var whole := Join(parts, [c]);
      assert whole == parts[0] + ([c] + rest);
      var i :| 0 <= i <= |whole| && OccursAt(whole, p, i);
      if i + |p| <= |parts[0]| {
        OccursInLeft(parts[0], [c] + rest, p, i);
        assert Contains(parts[0], p);
      } else if i > |parts[0]| {
        assert whole == (parts[0] + [c]) + rest;
        OccursInRight(parts[0] + [c], rest, p, i);
        JoinedOccurrence(parts[1..], c, p);
        var k :| 0 <= k < |parts[1..]| && Contains(parts[1..][k], p);
        assert parts[1..][k] == parts[k + 1];
      } else {
        assert whole[|parts[0]|] == c;
        OccursChar(whole, p, i, |parts[0]| - i);
      }
    }
  }

  /** What occurs in one part occurs in the joined text. */
  lemma {:induction false} PartInJoin(parts: seq<string>, sep: string, k: nat, p: string)
    requires k < |parts|
    ensures Contains(parts[k], p) ==> Contains(Join(parts, sep), p)
    decreases |parts|
  {
    if |parts| > 1 && Contains(parts[k], p) {
      var rest := Join(parts[1..], sep);
      if k == 0 {
        var i :| 0 <= i <= |parts[0]| && OccursAt(parts[0], p, i);
        assert Join(parts, sep) == parts[0] + (sep + rest);
        OccursInLeft(parts[0], sep + rest, p, i);
      } else {
        assert parts[1..][k - 1] == parts[k];
        PartInJoin(parts[1..], sep, k - 1, p);
        var i :| 0 <= i <= |rest| && OccursAt(rest, p, i);
        assert Join(parts, sep) == (parts[0] + sep) + rest;
        OccursInRight(parts[0] + sep, rest, p, |parts[0] + sep| + i);
      }
    }
  }

  /** Joining parts that lack `c` with a separator that lacks `c` gives a text without `c`. */
  lemma {:induction false} JoinAvoids(parts: seq<string>, sep: string, c: char)
    requires c !in sep && forall k | 0 <= k < |parts| :: c !in parts[k]
    ensures c !in Join(parts, sep)
    decreases |parts|
  {
    if |parts| > 1 {
      JoinAvoids(parts[1..], sep, c);
    }
  }

  // ---------------------------------------------------------------------------
  // Lengths

  /** A character beyond U+FFFF, which UTF-16 stores as a surrogate pair. */
  predicate IsAstral(c: char) {
    c as int >= 0x10000
  }

  /** `s.length` in JavaScript: UTF-16 code units, two for an astral character. */
  function Utf16Length(s: string): (n: nat)
    ensures |s| <= n <= 2 * |s|
  {
    if s == [] then 0 else (if IsAstral(s[0]) then 2 else 1) + Utf16Length(s[1..])
  }

  /** Without astral characters the JavaScript length is the character count. */
  lemma {:induction false} Utf16LengthBmp(s: string)
    requires forall k | 0 <= k < |s| :: !IsAstral(s[k])
    ensures Utf16Length(s) == |s|
  {
    if s != [] {
      assert forall k | 0 <= k < |s[1..]| :: s[1..][k] == s[k + 1];
      Utf16LengthBmp(s[1..]);
    }
  }

  /** A text of astral characters only is twice as long in JavaScript. */
  lemma {:induction false} Utf16LengthAstral(s: string)
    requires forall k | 0 <= k < |s| :: IsAstral(s[k])
    ensures Utf16Length(s) == 2 * |s|
  {
    if s != [] {
      assert forall k | 0 <= k < |s[1..]| :: s[1..][k] == s[k + 1];
      Utf16LengthAstral(s[1..]);
    }
  }

  // ---------------------------------------------------------------------------
  // Numbers

  function DigitChar(d: nat): char
    requires d < 10
  {
    ('0' as int + d) as char
  }

  predicate IsDigit(c: char) {
    '0' <= c <= '9'
  }

  /** The decimal rendering JavaScript gives a non-negative integer. */
  function NatToString(n: nat): (r: string)
    ensures |r| >= 1 && forall i :: 0 <= i < |r| ==> IsDigit(r[i])
    ensures |r| > 1 ==> r[0] != '0'
  {
    if n < 10 then [DigitChar(n)] else NatToString(n / 10) + [DigitChar(n % 10)]
  }

  /** The value of a string of decimal digits. */
  function DigitsValue(s: string): nat
    requires forall i :: 0 <= i < |s| ==> IsDigit(s[i])
  {
    if s == [] then 0
    else
      assert IsDigit(s[|s| - 1]);
      10 * DigitsValue(s[..|s| - 1]) + (s[|s| - 1] as int - '0' as int)
  }

  /** Reading the decimal rendering back gives the number. */
  lemma {:induction false} NatToStringValue(n: nat)
    ensures DigitsValue(NatToString(n)) == n
  {
    if n >= 10 {
      NatToStringValue(n / 10);
      var r := NatToString(n);
      assert r[..|r| - 1] == NatToString(n / 10);
    }
  }
}
