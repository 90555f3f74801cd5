/** The regular expressions of the unit normaliser and the price parser, and
    Python's `re.search` over them. For these patterns the greedy `\d+` and
    `\s*` never gain from backtracking: a shorter digit or space run leaves a
    digit or a space where the pattern needs a separator or a letter. So a
    match at a start position is unique and computed directly, and a search
    returns the match at the leftmost start that has one. The optional tails
    `g(?:ram)?`, `l(?:iter)?` and `stuks?` end their patterns, so dropping
    them changes neither where a match starts nor its group. */
module Regex {
  import opened Wrappers
  import opened Text

  datatype Pattern =
    /** `(\d+(?:[.,]\d+)?)\s*unit`, or `(\d+)\s*unit` when `fraction` is false. */
    | Quantity(unit: string, fraction: bool)
    /** `€\s*(\d+[,\.]\d+)`. */
    | Euro
    /** `first\s*second`, a pattern without a capture group. */
    | Words(first: string, second: string)

  /** A successful search: where the match starts, and group 1 if the pattern has one. */
  datatype Match = Match(start: nat, group: Option<string>)

  /** Length of the longest run of characters satisfying `p` from position `i`. */
  function Run(s: string, i: nat, p: char -> bool): (n: nat)
    requires i <= |s|
    ensures i + n <= |s|
    ensures i + n == |s| || !p(s[i + n])
    ensures n > 0 ==> p(s[i]) && p(s[i + n - 1])
    decreases |s| - i
  {
    if i < |s| && p(s[i]) then 1 + Run(s, i + 1, p) else 0
  }

  /** Where `(?:[.,]\d+)?` ends when tried at `j`, right after the integer digits. */
  function FractionEnd(s: string, j: nat, fraction: bool): (e: nat)
    requires j <= |s|
    ensures j <= e <= |s|
  {
    if fraction && j < |s| && IsSeparator(s[j]) && Run(s, j + 1, IsDigit) > 0
    then j + 1 + Run(s, j + 1, IsDigit)
    else j
  }

  /** Where group 1 of `(\d+(?:[.,]\d+)?)` tried at `i` ends. */
  function GroupEnd(s: string, i: nat, fraction: bool): (e: nat)
    requires i <= |s|
    ensures i + Run(s, i, IsDigit) <= e <= |s|
  {
    FractionEnd(s, i + Run(s, i, IsDigit), fraction)
  }

  /** Where the unit must start: after group 1 and the spaces `\s*` take. */
  function UnitStart(s: string, i: nat, fraction: bool): (w: nat)
    requires i <= |s|
    ensures GroupEnd(s, i, fraction) <= w <= |s|
  {
    GroupEnd(s, i, fraction) + Run(s, GroupEnd(s, i, fraction), IsSpace)
  }

  /** `(\d+(?:[.,]\d+)?)\s*unit` tried at `i`. */
  function QuantityAt(s: string, i: nat, unit: string, fraction: bool): Option<Match>
    requires i <= |s|
  {
    if Run(s, i, IsDigit) > 0 && OccursAt(s, unit, UnitStart(s, i, fraction))
    then Some(Match(i, Some(s[i..GroupEnd(s, i, fraction)])))
    else None
  }

  /** Where the digits of `€\s*(\d+[,\.]\d+)` tried at `i` start: after the
      euro sign and the spaces `\s*` takes. */
  function AmountStart(s: string, i: nat): (j: nat)
    requires i < |s|
    ensures i < j <= |s|
  {
    i + 1 + Run(s, i + 1, IsSpace)
  }

  /** Where the separator of the amount must stand: after the integer digits. */
  function AmountSeparator(s: string, i: nat): (k: nat)
    requires i < |s|
    ensures AmountStart(s, i) <= k <= |s|
  {
    AmountStart(s, i) + Run(s, AmountStart(s, i), IsDigit)
  }

  /** Where the amount ends: after the separator at `k` and the fraction digits. */
  function AmountEnd(s: string, k: nat): (e: nat)
    requires k < |s|
    ensures k < e <= |s|
  {
    k + 1 + Run(s, k + 1, IsDigit)
  }

  /** `€\s*(\d+[,\.]\d+)` tried at `i`. */
  function EuroAt(s: string, i: nat): Option<Match>
    requires i <= |s|
  {
    if i < |s| && s[i] == '€' then
      var j, k := AmountStart(s, i), AmountSeparator(s, i);
      if k > j && k < |s| && IsSeparator(s[k]) && AmountEnd(s, k) > k + 1
      then Some(Match(i, Some(s[j..AmountEnd(s, k)])))
      else None
    else None
  }

  /** `first\s*second` tried at `i`. */
  function WordsAt(s: string, i: nat, first: string, second: string): Option<Match>
    requires i <= |s|
  {
    if OccursAt(s, first, i) then
      var w := i + |first| + Run(s, i + |first|, IsSpace);
      if OccursAt(s, second, w) then Some(Match(i, None)) else None
    else None
  }

  /** The match of `pat` that starts exactly at `i`, if any. */
  function MatchAt(s: string, i: nat, pat: Pattern): (m: Option<Match>)
    requires i <= |s|
    ensures m.Some? ==> m.value.start == i
    ensures m.Some? ==> (m.value.group.None? <==> pat.Words?)
  {
    match pat
    case Quantity(unit, fraction) => QuantityAt(s, i, unit, fraction)
    case Euro => EuroAt(s, i)
    case Words(first, second) => WordsAt(s, i, first, second)
  }

  /** The leftmost match starting at `i` or later. */
  function SearchFrom(s: string, i: nat, pat: Pattern): (m: Option<Match>)
    requires i <= |s|
    ensures m.Some? ==> i <= m.value.start <= |s| && MatchAt(s, m.value.start, pat) == m
    decreases |s| - i
  {
    var here := MatchAt(s, i, pat);
    if here.Some? then here
    else if i == |s| then None
    else SearchFrom(s, i + 1, pat)
  }

  /** Python's `re.search(pat, s)`. */
  function Search(s: string, pat: Pattern): Option<Match> {
    SearchFrom(s, 0, pat)
  }

  /** No position in `[i, j)` has a match. */
  predicate NoMatchIn(s: string, i: nat, j: nat, pat: Pattern)
    requires j <= |s| + 1
    decreases j - i
  {
    i >= j || (MatchAt(s, i, pat).None? && NoMatchIn(s, i + 1, j, pat))
  }

  /** A position inside a match-free range has no match. */
  lemma {:induction false} NoMatchInAt(s: string, i: nat, j: nat, pat: Pattern, k: nat)
    requires j <= |s| + 1 && NoMatchIn(s, i, j, pat) && i <= k < j
    ensures MatchAt(s, k, pat).None?
    decreases k - i
  {
    if k > i {
      NoMatchInAt(s, i + 1, j, pat, k);
    }
  }

  /** The match found is the leftmost one, and nothing is found only when no
      position from `i` on has a match. */
  lemma {:induction false} SearchFromLeftmost(s: string, i: nat, pat: Pattern)
    requires i <= |s|
    ensures SearchFrom(s, i, pat).Some? ==> NoMatchIn(s, i, SearchFrom(s, i, pat).value.start, pat)
    ensures SearchFrom(s, i, pat).None? <==> NoMatchIn(s, i, |s| + 1, pat)
    decreases |s| - i
  {
    var here := MatchAt(s, i, pat);
    if here.Some? {
      assert SearchFrom(s, i, pat) == here;
      assert here.value.start == i;
    } else if i < |s| {
      assert SearchFrom(s, i, pat) == SearchFrom(s, i + 1, pat);
      SearchFromLeftmost(s, i + 1, pat);
    } else {
      assert SearchFrom(s, i, pat) == None;
    }
  }

  /** A match at `k` with none before it is the one the search returns. */
  lemma SearchFinds(s: string, pat: Pattern, k: nat)
    requires k <= |s| && MatchAt(s, k, pat).Some? && NoMatchIn(s, 0, k, pat)
    ensures Search(s, pat) == MatchAt(s, k, pat)
  {
    SearchFromLeftmost(s, 0, pat);
    var m := Search(s, pat);
    if m.None? {
      NoMatchInAt(s, 0, |s| + 1, pat, k);
    } else if m.value.start < k {
      NoMatchInAt(s, 0, k, pat, m.value.start);
    } else if m.value.start > k {
      NoMatchInAt(s, 0, m.value.start, pat, k);
    }
  }

  /** The unit of a quantity starts right after a digit or a space. */
  lemma UnitStartAfter(s: string, i: nat, fraction: bool)
    requires i <= |s| && Run(s, i, IsDigit) > 0
    ensures var w := UnitStart(s, i, fraction); i < w && (IsDigit(s[w - 1]) || IsSpace(s[w - 1]))
  {
    var d := Run(s, i, IsDigit);
    var e := GroupEnd(s, i, fraction);
    var w := UnitStart(s, i, fraction);
    if w > e {
      assert IsSpace(s[w - 1]);
    } else if e > i + d {
      assert IsDigit(s[e - 1]);
    } else {
      assert IsDigit(s[i + d - 1]);
    }
  }

  /** A quantity match ends with its unit right after a digit or a space. */
  lemma QuantityUnitFollows(s: string, i: nat, unit: string, fraction: bool)
    requires i <= |s| && unit != ""
    requires QuantityAt(s, i, unit, fraction).Some?
    ensures exists w :: i < w && OccursAt(s, unit, w) && (IsDigit(s[w - 1]) || IsSpace(s[w - 1]))
  {
    assert OccursAt(s, unit, UnitStart(s, i, fraction));
    UnitStartAfter(s, i, fraction);
  }

  /** A unit that never follows a digit or a space cannot be found. */
  lemma QuantityAbsent(s: string, unit: string, fraction: bool)
    requires unit != ""
    requires forall w :: 0 < w && OccursAt(s, unit, w) ==> !IsDigit(s[w - 1]) && !IsSpace(s[w - 1])
    ensures Search(s, Quantity(unit, fraction)).None?
  {
    var m := Search(s, Quantity(unit, fraction));
    if m.Some? {
      QuantityUnitFollows(s, m.value.start, unit, fraction);
    }
  }

  /** A quantity is found only where the text holds a digit. */
  lemma QuantityNeedsDigit(s: string, unit: string, fraction: bool)
    ensures Search(s, Quantity(unit, fraction)).Some? ==> exists c :: c in s && IsDigit(c)
  {
    var m := Search(s, Quantity(unit, fraction));
    if m.Some? {
      assert s[m.value.start] in s;
    }
  }

  /** Every character of a run satisfies the run's test. */
  lemma {:induction false} RunAll(s: string, i: nat, p: char -> bool)
    requires i <= |s|
    ensures forall k :: i <= k < i + Run(s, i, p) ==> p(s[k])
    decreases |s| - i
  {
    if i < |s| && p(s[i]) {
      RunAll(s, i + 1, p);
    }
  }

  /** A stretch of digits is all digits as a string. */
  lemma DigitSlice(s: string, i: nat, j: nat)
    requires i <= j <= |s|
    requires forall k :: i <= k < j ==> IsDigit(s[k])
    ensures AllDigits(s[i..j])
  {
    forall c | c in s[i..j] ensures IsDigit(c) {
      var k :| 0 <= k < j - i && s[i..j][k] == c;
      assert s[i..j][k] == s[i + k];
    }
  }

  /** The integer digits of a quantity tried at `i`. */
  lemma IntegerDigits(s: string, i: nat)
    requires i <= |s|
    ensures AllDigits(s[i..i + Run(s, i, IsDigit)])
  {
    RunAll(s, i, IsDigit);
    DigitSlice(s, i, i + Run(s, i, IsDigit));
  }

  /** A fraction that is taken is a separator and at least one digit. */
  lemma FractionDigits(s: string, j: nat, fraction: bool)
    requires j <= |s| && FractionEnd(s, j, fraction) > j
    ensures fraction && IsSeparator(s[j]) && AllDigits(s[j + 1..FractionEnd(s, j, fraction)])
  {
    RunAll(s, j + 1, IsDigit);
    DigitSlice(s, j + 1, FractionEnd(s, j, fraction));
  }

  /** Group 1 of a quantity match is a number: digits, then a separator and
      more digits only where the pattern allows a fraction. */
  lemma QuantityGroupAt(s: string, i: nat, unit: string, fraction: bool)
    requires i <= |s| && QuantityAt(s, i, unit, fraction).Some?
    ensures exists d, f, sep :: IsNumber(d, f, sep) && (fraction || f == "") &&
              QuantityAt(s, i, unit, fraction).value.group == Some(NumberText(d, f, sep))
  {
    var j := i + Run(s, i, IsDigit);
    var e := GroupEnd(s, i, fraction);
    var d := s[i..j];
    IntegerDigits(s, i);
    if e == j {
      assert NumberText(d, "", '.') == s[i..e];
      assert IsNumber(d, "", '.');
    } else {
      FractionDigits(s, j, fraction);
      var sep, f := s[j], s[j + 1..e];
      assert s[i..e] == d + [sep] + f;
      assert IsNumber(d, f, sep);
    }
  }

  /** Whatever a quantity search finds, its group 1 is a number. */
  lemma QuantityGroupIsNumber(s: string, unit: string, fraction: bool)
    requires Search(s, Quantity(unit, fraction)).Some?
    ensures exists d, f, sep :: IsNumber(d, f, sep) && (fraction || f == "") &&
              Search(s, Quantity(unit, fraction)).value.group == Some(NumberText(d, f, sep))
  {
    var m := Search(s, Quantity(unit, fraction));
    QuantityGroupAt(s, m.value.start, unit, fraction);
  }

  /** Group 1 of a euro match is a number with a fraction, whose separator
      is a character of the text. */
  lemma EuroGroupAt(s: string, i: nat)
    requires i <= |s| && EuroAt(s, i).Some?
    ensures exists d, f, sep :: IsNumber(d, f, sep) && f != "" && sep in s &&
              EuroAt(s, i).value.group == Some(NumberText(d, f, sep))
  {
    var j, k := AmountStart(s, i), AmountSeparator(s, i);
    var e := AmountEnd(s, k);
    RunAll(s, j, IsDigit);
    DigitSlice(s, j, k);
    RunAll(s, k + 1, IsDigit);
    DigitSlice(s, k + 1, e);
    var d, sep, f := s[j..k], s[k], s[k + 1..e];
    assert s[j..e] == d + [sep] + f;
    assert IsNumber(d, f, sep);
  }

  /** Whatever the euro search finds, its group 1 is a number with a fraction. */
  lemma EuroGroupIsNumber(s: string)
    requires Search(s, Euro).Some?
    ensures exists d, f, sep :: IsNumber(d, f, sep) && f != "" && sep in s &&
              Search(s, Euro).value.group == Some(NumberText(d, f, sep))
  {
    EuroGroupAt(s, Search(s, Euro).value.start);
  }

  /** A run whose extent is known. */
  lemma RunIs(s: string, i: nat, j: nat, p: char -> bool)
    requires i <= j <= |s|
    requires forall k :: i <= k < j ==> p(s[k])
    requires j == |s| || !p(s[j])
    ensures Run(s, i, p) == j - i
    decreases j - i
  {
    if i < j {
      RunIs(s, i + 1, j, p);
    }
  }

  /** A run of spaces whose extent is known. */
  lemma SpacesAre(s: string, i: nat, j: nat)
    requires i <= j <= |s|
    requires forall k :: i <= k < j ==> IsSpace(s[k])
    requires j == |s| || !IsSpace(s[j])
    ensures Run(s, i, IsSpace) == j - i
  {
    RunIs(s, i, j, IsSpace);
  }

  /** A run of digits whose extent is known. */
  lemma DigitsAre(s: string, i: nat, j: nat)
    requires i <= j <= |s|
    requires forall k :: i <= k < j ==> IsDigit(s[k])
    requires j == |s| || !IsDigit(s[j])
    ensures Run(s, i, IsDigit) == j - i
  {
    RunIs(s, i, j, IsDigit);
  }

  /** The characters of a number at the start of `s`. */
  lemma NumberChars(s: string, d: string, f: string, sep: char)
    requires IsNumber(d, f, sep)
    requires |NumberText(d, f, sep)| <= |s| && s[..|NumberText(d, f, sep)|] == NumberText(d, f, sep)
    ensures forall k :: 0 <= k < |d| ==> IsDigit(s[k])
    ensures f == "" ==> |NumberText(d, f, sep)| == |d|
    ensures f != "" ==> s[|d|] == sep && |NumberText(d, f, sep)| > |d| + 1
    ensures f != "" ==> forall k :: |d| + 1 <= k < |NumberText(d, f, sep)| ==> IsDigit(s[k])
  {
    var n := NumberText(d, f, sep);
    forall k | 0 <= k < |d| ensures IsDigit(s[k]) {
      assert s[k] == n[k] == d[k] && d[k] in d;
    }
    if f != "" {
      assert s[|d|] == n[|d|];
      forall k | |d| + 1 <= k < |n| ensures IsDigit(s[k]) {
        assert s[k] == n[k] == f[k - |d| - 1] && f[k - |d| - 1] in f;
      }
    }
  }

  /** The runs the quantity pattern takes over `a` digits, an optional
      fraction ending at `b` and spaces up to `c`. */
  lemma QuantityRuns(s: string, a: nat, b: nat, c: nat, fraction: bool)
    requires 0 < a <= b <= c < |s|
    requires forall k :: 0 <= k < a ==> IsDigit(s[k])
    requires b == a || (fraction && IsSeparator(s[a]) && a + 1 < b && forall k :: a + 1 <= k < b ==> IsDigit(s[k]))
    requires forall k :: b <= k < c ==> IsSpace(s[k])
    requires !IsSpace(s[c]) && !IsDigit(s[c]) && !IsSeparator(s[c])
    ensures Run(s, 0, IsDigit) == a && FractionEnd(s, a, fraction) == b && Run(s, b, IsSpace) == c - b
  {
    RunIs(s, 0, a, IsDigit);
    if b > a {
      RunIs(s, a + 1, b, IsDigit);
    }
    RunIs(s, b, c, IsSpace);
  }

  /** The quantity pattern at 0 once its runs are known. */
  lemma QuantityAtZero(s: string, a: nat, b: nat, c: nat, unit: string, fraction: bool)
    requires 0 < a <= b <= c <= |s|
    requires Run(s, 0, IsDigit) == a && FractionEnd(s, a, fraction) == b && Run(s, b, IsSpace) == c - b
    requires OccursAt(s, unit, c)
    ensures QuantityAt(s, 0, unit, fraction) == Some(Match(0, Some(s[0..b])))
  {
    assert GroupEnd(s, 0, fraction) == b;
    assert UnitStart(s, 0, fraction) == c;
  }

  /** A number, spaces and then the unit at the start of `s` is matched there,
      and the number is group 1. */
  lemma QuantityAtStart(s: string, d: string, f: string, sep: char, w: string, unit: string, fraction: bool)
    requires IsNumber(d, f, sep) && (fraction || f == "")
    requires forall c :: c in w ==> IsSpace(c)
    requires unit != "" && !IsSpace(unit[0]) && !IsDigit(unit[0]) && !IsSeparator(unit[0])
    requires NumberText(d, f, sep) + w + unit <= s
    ensures Search(s, Quantity(unit, fraction)) == Some(Match(0, Some(NumberText(d, f, sep))))
  {
    var n := NumberText(d, f, sep);
    var t := n + w + unit;
    var b, c := |n|, |n| + |w|;
    assert s[..b] == t[..b] == n;
    NumberChars(s, d, f, sep);
    forall k | b <= k < c ensures IsSpace(s[k]) {
      assert s[k] == t[k] == w[k - b] && w[k - b] in w;
    }
    assert s[c..c + |unit|] == t[c..];
    assert s[c] == unit[0];
    QuantityRuns(s, |d|, b, c, fraction);
    QuantityAtZero(s, |d|, b, c, unit, fraction);
    assert s[0..b] == n;
  }

  // ---------------------------------------------------------------- the euro amount

  /** Positions before the first euro sign hold no match of the euro pattern. */
  lemma {:induction false} NoEuroBefore(s: string, a: nat, i: nat)
    requires a <= i <= |s|
    requires forall m :: a <= m < i ==> s[m] != '€'
    ensures NoMatchIn(s, a, i, Euro)
    decreases i - a
  {
    if a < i {
      NoEuroBefore(s, a + 1, i);
    }
  }

  /** A text with a euro sign, spaces, a number and whatever does not
      continue the number, after text without a euro sign: the amount is found
      at the sign, and it is the number. */
  lemma EuroAmount(x: string, w: string, d: string, sep: char, f: string, tail: string)
    requires '€' !in x && forall c :: c in w ==> IsSpace(c)
    requires d != "" && AllDigits(d) && IsSeparator(sep) && f != "" && AllDigits(f)
    requires tail == "" || !IsDigit(tail[0])
    ensures Search(x + ("€" + w + d + [sep] + f) + tail, Euro) == Some(Match(|x|, Some(d + [sep] + f)))
  {
    var p := "€" + w + d + [sep] + f;
    var s := x + p + tail;
    OccursInside(x, p, tail);
    assert s[..|x|] == x;
    if tail != "" {
      assert s[|x| + |p|] == tail[0];
    }
    EuroAmountAt(s, |x|, w, d, sep, f);
  }

  /** A piece inside a text occurs where it stands. */
  lemma OccursInside(a: string, b: string, c: string)
    ensures OccursAt(a + b + c, b, |a|)
  {
    assert (a + b + c)[|a|..|a| + |b|] == b;
  }

  /** The euro amount at the first euro sign of a text. */
  lemma EuroAmountAt(s: string, i: nat, w: string, d: string, sep: char, f: string)
    requires i <= |s| && '€' !in s[..i]
    requires OccursAt(s, "€" + w + d + [sep] + f, i)
    requires forall c :: c in w ==> IsSpace(c)
    requires d != "" && AllDigits(d) && IsSeparator(sep) && f != "" && AllDigits(f)
    requires i + |"€" + w + d + [sep] + f| == |s| || !IsDigit(s[i + |"€" + w + d + [sep] + f|])
    ensures Search(s, Euro) == Some(Match(i, Some(d + [sep] + f)))
  {
    var p := "€" + w + d + [sep] + f;
    var j := i + 1 + |w|;
    var k := j + |d|;
    var e := k + 1 + |f|;
    AmountPieces(w, d, sep, f);
    forall m | 0 <= m < i ensures s[m] != '€' {
      assert s[m] == s[..i][m];
    }
    forall m | i <= m < e ensures s[m] == p[m - i] {
      assert s[m] == s[i..i + |p|][m - i];
    }
    assert s[i] == '€';
    forall m | i < m < j ensures IsSpace(s[m]) {
      assert w[m - i - 1] in w;
    }
    forall m | j <= m < k ensures IsDigit(s[m]) {
      assert d[m - j] in d;
    }
    assert s[k] == sep;
    forall m | k < m < e ensures IsDigit(s[m]) {
      assert f[m - k - 1] in f;
    }
    assert s[j..e] == p[1 + |w|..] == d + [sep] + f;
    EuroFound(s, i, j, k, e);
  }

  /** Where each piece of a euro sign, spaces and a number stands. */
  lemma AmountPieces(w: string, d: string, sep: char, f: string)
    ensures var p := "€" + w + d + [sep] + f;
      && |p| == 2 + |w| + |d| + |f| && p[0] == '€'
      && (forall m :: 0 <= m < |w| ==> p[1 + m] == w[m])
      && (forall m :: 0 <= m < |d| ==> p[1 + |w| + m] == d[m])
      && p[1 + |w| + |d|] == sep
      && (forall m :: 0 <= m < |f| ==> p[2 + |w| + |d| + m] == f[m])
      && p[1 + |w|..] == d + [sep] + f
  {
    var p := "€" + w + d + [sep] + f;
    var g := d + [sep] + f;
    forall m | 0 <= m < |g| ensures p[1 + |w|..][m] == g[m] {
      assert p[1 + |w|..][m] == p[1 + |w| + m];
    }
  }

  /** The first euro sign, followed by spaces, digits, a separator and digits
      that nothing continues, is where the euro pattern matches, and its group
      is the number. */
  lemma EuroFound(s: string, i: nat, j: nat, k: nat, e: nat)
    requires i < j < k < e <= |s| && k + 1 < e
    requires forall m :: 0 <= m < i ==> s[m] != '€'
    requires s[i] == '€' && forall m :: i < m < j ==> IsSpace(s[m])
    requires !IsSpace(s[j]) && forall m :: j <= m < k ==> IsDigit(s[m])
    requires IsSeparator(s[k]) && forall m :: k < m < e ==> IsDigit(s[m])
    requires e == |s| || !IsDigit(s[e])
    ensures Search(s, Euro) == Some(Match(i, Some(s[j..e])))
  {
    AmountStartIs(s, i, j);
    AmountSeparatorIs(s, i, j, k);
    AmountEndIs(s, k, e);
    EuroAtIs(s, i, j, k, e);
    NoEuroBefore(s, 0, i);
    SearchFinds(s, Euro, i);
  }

  /** Where the digits start after a euro sign followed by spaces. */
  lemma AmountStartIs(s: string, i: nat, j: nat)
    requires i < j <= |s| && forall m :: i < m < j ==> IsSpace(s[m])
    requires j == |s| || !IsSpace(s[j])
    ensures AmountStart(s, i) == j
  {
    SpacesAre(s, i + 1, j);
  }

  /** Where the separator stands after the digits. */
  lemma AmountSeparatorIs(s: string, i: nat, j: nat, k: nat)
    requires i < j <= k < |s| && AmountStart(s, i) == j
    requires forall m :: j <= m < k ==> IsDigit(s[m])
    requires IsSeparator(s[k])
    ensures AmountSeparator(s, i) == k
  {
    assert !IsDigit(s[k]);
    DigitsAre(s, j, k);
  }

  /** Where the digits after the separator end. */
  lemma AmountEndIs(s: string, k: nat, e: nat)
    requires k < e <= |s| && forall m :: k < m < e ==> IsDigit(s[m])
    requires e == |s| || !IsDigit(s[e])
    ensures AmountEnd(s, k) == e
  {
    DigitsAre(s, k + 1, e);
  }

  /** The euro pattern at `i` once where its pieces end is known. */
  lemma EuroAtIs(s: string, i: nat, j: nat, k: nat, e: nat)
    requires i < j < k < e <= |s| && k + 1 < e && s[i] == '€' && IsSeparator(s[k])
    requires AmountStart(s, i) == j && AmountSeparator(s, i) == k && AmountEnd(s, k) == e
    ensures EuroAt(s, i) == Some(Match(i, Some(s[j..e])))
  {
  }

  /** An amount is found only where the text holds a separator. */
  lemma EuroNeedsSeparator(s: string)
    ensures Search(s, Euro).Some? ==> exists k :: 0 <= k < |s| && IsSeparator(s[k])
  {
    var m := Search(s, Euro);
    if m.Some? {
      var i := m.value.start;
      assert EuroAt(s, i).Some?;
      assert IsSeparator(s[AmountSeparator(s, i)]);
    }
  }
}
