/** String helpers with the meaning of the Python and JavaScript string
    methods the extractors call (`split`, `join`, `replace`, `lower`, `upper`,
    `strip`, `float`, `int`). Letters are mapped and digits read in ASCII only. */
module Text {

  // ---------------------------------------------------------------- characters

  predicate IsDigit(c: char) { '0' <= c <= '9' }

  /** Python's whitespace (`str.isspace`, the `\s` class of `re`, `strip()`). */
  predicate IsSpace(c: char) {
    c == ' ' || ('\t' <= c <= '\r') || ('\U{1C}' <= c <= '\U{1F}')
    || c == '\U{85}' || c == '\U{A0}' || c == '\U{1680}'
    || ('\U{2000}' <= c <= '\U{200A}') || c == '\U{2028}' || c == '\U{2029}'
    || c == '\U{202F}' || c == '\U{205F}' || c == '\U{3000}'
  }

  predicate IsUpper(c: char) { 'A' <= c <= 'Z' }

  predicate IsLowerLetter(c: char) { 'a' <= c <= 'z' }

  function LowerChar(c: char): char {
    if IsUpper(c) then (c as int + 32) as char else c
  }

  function UpperChar(c: char): char {
    if IsLowerLetter(c) then (c as int - 32) as char else c
  }

  /** Python's `str.lower()` on ASCII letters. */
  function Lower(s: string): (r: string)
    ensures |r| == |s|
    ensures forall i :: 0 <= i < |s| ==> r[i] == LowerChar(s[i])
  {
    seq(|s|, i requires 0 <= i < |s| => LowerChar(s[i]))
  }

  /** Python's `str.upper()` on ASCII letters. */
  function Upper(s: string): (r: string)
    ensures |r| == |s|
    ensures forall i :: 0 <= i < |s| ==> r[i] == UpperChar(s[i])
  {
    seq(|s|, i requires 0 <= i < |s| => UpperChar(s[i]))
  }

  lemma LowerAppend(a: string, b: string)
    ensures Lower(a + b) == Lower(a) + Lower(b)
  {
    assert forall i :: 0 <= i < |a + b| ==> Lower(a + b)[i] == (Lower(a) + Lower(b))[i];
  }

  // ---------------------------------------------------------------- split and join

  /** Python's `s.split(sep)` for a one-character separator: the pieces
      between separators, empty pieces included; never an empty list. */
  function Split(s: string, sep: char): (parts: seq<string>)
    ensures |parts| >= 1
    decreases |s|
  {
    if s == [] then [""]
    else
      var rest := Split(s[1..], sep);
      if s[0] == sep then [""] + rest
      else [[s[0]] + rest[0]] + rest[1..]
  }

  /** The string splits into one piece exactly when it holds no separator. */
  lemma {:induction false} SplitOne(s: string, sep: char)
    ensures |Split(s, sep)| == 1 <==> sep !in s
    decreases |s|
  {
    if s != [] {
      SplitOne(s[1..], sep);
      assert s == [s[0]] + s[1..];
    }
  }

  /** No piece holds the separator, and the first piece starts the string. */
  lemma {:induction false} SplitPieces(s: string, sep: char)
    ensures Split(s, sep)[0] <= s
    ensures forall p :: p in Split(s, sep) ==> sep !in p
    decreases |s|
  {
    if s != [] {
      SplitPieces(s[1..], sep);
      var rest := Split(s[1..], sep);
      if s[0] != sep {
        forall p | p in Split(s, sep) ensures sep !in p {
          if p != [s[0]] + rest[0] {
            assert p in rest;
          }
        }
      }
    }
  }

  /** Python's `sep.join(parts)`. */
  function Join(parts: seq<string>, sep: string): string
  {
    if |parts| == 0 then ""
    else if |parts| == 1 then parts[0]
    else parts[0] + sep + Join(parts[1..], sep)
  }

  function Last<T>(s: seq<T>): T
    requires |s| > 0
  {
    s[|s| - 1]
  }

  /** Joining the pieces with the separator gives back the string. */
  lemma {:induction false} JoinSplit(s: string, sep: char)
    ensures Join(Split(s, sep), [sep]) == s
    decreases |s|
  {
    if s != [] {
      var rest := Split(s[1..], sep);
      JoinSplit(s[1..], sep);
      if s[0] == sep {
        assert Split(s, sep) == [""] + rest;
        assert ([""] + rest)[1..] == rest;
      } else {
        var parts := Split(s, sep);
        assert parts == [[s[0]] + rest[0]] + rest[1..];
        if |rest| > 1 {
          assert parts[1..] == rest[1..];
          assert Join(rest, [sep]) == rest[0] + [sep] + Join(rest[1..], [sep]);
        }
      }
    }
  }

  /** The first separator ends the first piece. */
  lemma {:induction false} SplitAtFirst(a: string, b: string, sep: char)
    requires sep !in a
    ensures Split(a + [sep] + b, sep) == [a] + Split(b, sep)
    decreases |a|
  {
    if a == [] {
      SplitCons(sep, b, sep);
      assert a + [sep] + b == [sep] + b;
    } else {
      SplitAtFirst(a[1..], b, sep);
      SplitAtFirstStep(a[0], a[1..], b, sep);
      assert a == [a[0]] + a[1..];
    }
  }

  /** The inductive step of `SplitAtFirst`: a character other than the
      separator joins the first piece. */
  lemma SplitAtFirstStep(c: char, t: string, b: string, sep: char)
    requires c != sep
    requires Split(t + [sep] + b, sep) == [t] + Split(b, sep)
    ensures Split([c] + t + [sep] + b, sep) == [[c] + t] + Split(b, sep)
  {
    assert [c] + t + [sep] + b == [c] + (t + [sep] + b);
    SplitCons(c, t + [sep] + b, sep);
  }

  /** One step of `Split`. */
  lemma SplitCons(c: char, t: string, sep: char)
    ensures Split([c] + t, sep) ==
              if c == sep then [""] + Split(t, sep)
              else [[c] + Split(t, sep)[0]] + Split(t, sep)[1..]
  {
    assert ([c] + t)[1..] == t;
  }

  /** Splitting the joined pieces gives back the pieces, when none holds the separator. */
  lemma {:induction false} SplitJoin(parts: seq<string>, sep: char)
    requires |parts| >= 1
    requires forall p :: p in parts ==> sep !in p
    ensures Split(Join(parts, [sep]), sep) == parts
    decreases |parts|
  {
    if |parts| == 1 {
      SplitNoSeparator(parts[0], sep);
    } else {
      assert forall p :: p in parts[1..] ==> p in parts;
      SplitJoin(parts[1..], sep);
      var tail := Join(parts[1..], [sep]);
      assert Join(parts, [sep]) == parts[0] + [sep] + tail;
      assert parts[0] in parts;
      SplitAtFirst(parts[0], tail, sep);
      assert [parts[0]] + parts[1..] == parts;
    }
  }

  lemma SplitNoSeparator(s: string, sep: char)
    requires sep !in s
    ensures Split(s, sep) == [s]
  {
    var parts := Split(s, sep);
    SplitOne(s, sep);
    JoinSplit(s, sep);
  }

  /** Text in front of a piece that holds the separator leaves the last piece alone. */
  lemma {:induction false} LastSplitAppend(a: string, b: string, sep: char)
    requires sep in b
    ensures Last(Split(a + b, sep)) == Last(Split(b, sep))
    decreases |a|
  {
    if a != [] {
      var t := a[1..] + b;
      LastSplitAppend(a[1..], b, sep);
      var k :| 0 <= k < |b| && b[k] == sep;
      assert t[|a| - 1 + k] == sep;
      assert a + b == [a[0]] + t;
      LastSplitStep(a[0], t, sep);
    } else {
      assert a + b == b;
    }
  }

  /** One character in front of a text that holds the separator leaves the last piece alone. */
  lemma LastSplitStep(c: char, t: string, sep: char)
    requires sep in t
    ensures Last(Split([c] + t, sep)) == Last(Split(t, sep))
  {
    SplitOne(t, sep);
    var rest := Split(t, sep);
    SplitCons(c, t, sep);
    if c != sep {
      assert Split([c] + t, sep) == [[c] + rest[0]] + rest[1..];
    }
  }

  /** The piece after the last separator, when it holds none, is the last piece. */
  lemma LastSplitTail(b: string, sep: char)
    requires sep !in b
    ensures Last(Split([sep] + b, sep)) == b
  {
    SplitCons(sep, b, sep);
    SplitNoSeparator(b, sep);
  }

  // ---------------------------------------------------------------- replace

  predicate OccursAt(s: string, pat: string, i: int) {
    0 <= i && i + |pat| <= |s| && s[i..i + |pat|] == pat
  }

  /** Python's `s.replace(pat, rep)`: every occurrence, left to right, without overlap. */
  function Replace(s: string, pat: string, rep: string): string
    requires pat != ""
    decreases |s|
  {
    if |s| < |pat| then s
    else if s[..|pat|] == pat then rep + Replace(s[|pat|..], pat, rep)
    else [s[0]] + Replace(s[1..], pat, rep)
  }

  /** Replacing one character by another rewrites exactly the positions that held it. */
  lemma {:induction false} ReplaceChar(s: string, c: char, d: char)
    ensures |Replace(s, [c], [d])| == |s|
    ensures forall i :: 0 <= i < |s| ==> Replace(s, [c], [d])[i] == (if s[i] == c then d else s[i])
    decreases |s|
  {
    if s != [] {
      ReplaceChar(s[1..], c, d);
      assert s[..1] == [s[0]];
    }
  }

  /** Replacing one character by another works piece by piece. */
  lemma ReplaceCharAppend(a: string, b: string, c: char, d: char)
    ensures Replace(a + b, [c], [d]) == Replace(a, [c], [d]) + Replace(b, [c], [d])
  {
    ReplaceChar(a + b, c, d);
    ReplaceChar(a, c, d);
    ReplaceChar(b, c, d);
    var r, ra, rb := Replace(a + b, [c], [d]), Replace(a, [c], [d]), Replace(b, [c], [d]);
    forall i | 0 <= i < |r| ensures r[i] == (ra + rb)[i] {
      if i >= |a| {
        assert (a + b)[i] == b[i - |a|];
      }
    }
  }

  /** Text without the replaced character is left as it is. */
  lemma ReplaceAbsent(s: string, c: char, d: char)
    requires c !in s
    ensures Replace(s, [c], [d]) == s
  {
    ReplaceChar(s, c, d);
    var r := Replace(s, [c], [d]);
    forall i | 0 <= i < |s| ensures r[i] == s[i] {
      assert s[i] in s;
    }
  }

  /** After replacing a character with another, none of it is left. */
  lemma ReplaceRemoves(s: string, c: char, d: char)
    requires c != d
    ensures c !in Replace(s, [c], [d])
  {
    ReplaceChar(s, c, d);
    var r := Replace(s, [c], [d]);
    forall k | 0 <= k < |r| ensures r[k] != c {
    }
  }

  /** Replacing keeps out every character other than the replacement that was out already. */
  lemma ReplaceKeepsOut(s: string, c: char, d: char, e: char)
    requires e != d && e !in s
    ensures e !in Replace(s, [c], [d])
  {
    ReplaceChar(s, c, d);
    var r := Replace(s, [c], [d]);
    forall i | 0 <= i < |r| ensures r[i] != e {
      assert s[i] in s;
    }
  }

  /** A pattern whose first character is absent from `s` is only found in the appended copy. */
  lemma {:induction false} ReplaceTrailing(s: string, pat: string)
    requires pat != "" && pat[0] !in s
    ensures Replace(s + pat, pat, "") == s
    decreases |s|
  {
    if s == [] {
      assert (s + pat)[..|pat|] == pat;
      assert (s + pat)[|pat|..] == [];
    } else {
      assert (s + pat)[0] == s[0];
      assert (s + pat)[..|pat|] != pat;
      assert (s + pat)[1..] == s[1..] + pat;
      ReplaceTrailing(s[1..], pat);
    }
  }

  /** JavaScript's `s.replace(pat, rep)` with a string pattern: the first occurrence only. */
  function ReplaceFirst(s: string, pat: string, rep: string): (r: string)
    requires pat != ""
    ensures (forall i :: !OccursAt(s, pat, i)) ==> r == s
    ensures |r| == |s| || |r| == |s| - |pat| + |rep|
    decreases |s|
  {
    if |s| < |pat| then s
    else if s[..|pat|] == pat then
      assert OccursAt(s, pat, 0);
      rep + s[|pat|..]
    else
      assert forall i :: OccursAt(s[1..], pat, i) ==> OccursAt(s, pat, i + 1) by {
        forall i | OccursAt(s[1..], pat, i) ensures OccursAt(s, pat, i + 1) {
          assert s[1..][i..i + |pat|] == s[i + 1..i + 1 + |pat|];
        }
      }
      [s[0]] + ReplaceFirst(s[1..], pat, rep)
  }

  /** `pat` starts at `i` and at no earlier index. */
  predicate FirstOccurrence(s: string, pat: string, i: int) {
    OccursAt(s, pat, i) && forall j :: 0 <= j < i ==> !OccursAt(s, pat, j)
  }

  /** A first occurrence past the start is one of the tail, one place earlier. */
  lemma FirstOccurrenceShift(s: string, pat: string, i: int)
    requires pat != "" && i > 0 && FirstOccurrence(s, pat, i)
    ensures |pat| <= |s| && s[..|pat|] != pat && FirstOccurrence(s[1..], pat, i - 1)
  {
    assert !OccursAt(s, pat, 0);
    var t := s[1..];
    assert t[i - 1..i - 1 + |pat|] == s[i..i + |pat|];
    forall j | 0 <= j < i - 1 ensures !OccursAt(t, pat, j) {
      assert !OccursAt(s, pat, j + 1);
      assert t[j..j + |pat|] == s[j + 1..j + 1 + |pat|];
    }
  }

  /** Where the text does not start with `pat`, its first character is kept. */
  lemma ReplaceFirstStep(s: string, pat: string, rep: string)
    requires pat != "" && |pat| <= |s| && s[..|pat|] != pat
    ensures ReplaceFirst(s, pat, rep) == [s[0]] + ReplaceFirst(s[1..], pat, rep)
  {
  }

  /** Putting the first character back in front of a splice of the tail. */
  lemma SpliceTail(s: string, i: int, k: nat, rep: string)
    requires 0 < i && i + k <= |s|
    ensures [s[0]] + (s[1..][..i - 1] + rep + s[1..][i - 1 + k..]) == s[..i] + rep + s[i + k..]
  {
    assert s[1..][..i - 1] == s[1..i] && s[1..][i - 1 + k..] == s[i + k..];
    assert s[..i] == [s[0]] + s[1..i];
  }

  /** `ReplaceFirst` rewrites exactly the first occurrence and keeps the rest. */
  lemma {:induction false} ReplaceFirstAt(s: string, pat: string, rep: string, i: int)
    requires pat != "" && FirstOccurrence(s, pat, i)
    ensures ReplaceFirst(s, pat, rep) == s[..i] + rep + s[i + |pat|..]
    decreases |s|
  {
    if i == 0 {
      assert s[..|pat|] == pat;
    } else {
      FirstOccurrenceShift(s, pat, i);
      ReplaceFirstStep(s, pat, rep);
      ReplaceFirstAt(s[1..], pat, rep, i - 1);
      SpliceTail(s, i, |pat|, rep);
    }
  }

  // ---------------------------------------------------------------- substrings

  /** Python's `sub in s`. */
  predicate Contains(s: string, sub: string)
    decreases |s|
  {
    sub <= s || (s != [] && Contains(s[1..], sub))
  }

  /** Python's `s[n:]`: empty when `s` is shorter than `n`. */
  function Drop(s: string, n: nat): (r: string)
    ensures |s| >= n ==> s == s[..n] + r
    ensures |s| < n ==> r == ""
  {
    if |s| >= n then s[n..] else ""
  }

  // ---------------------------------------------------------------- strip

  function StripLeft(s: string): (r: string)
    ensures |r| <= |s| && r == s[|s| - |r|..]
    decreases |s|
  {
    if s != [] && IsSpace(s[0]) then StripLeft(s[1..]) else s
  }

  function StripRight(s: string): (r: string)
    ensures r <= s
    decreases |s|
  {
    if s != [] && IsSpace(s[|s| - 1]) then StripRight(s[..|s| - 1]) else s
  }

  /** Python's `str.strip()`. */
  function Strip(s: string): string {
    StripRight(StripLeft(s))
  }

  /** Stripping keeps every character up to the last non-space one. */
  lemma {:induction false} StripRightKeeps(s: string, j: nat)
    requires 0 < j <= |s| && !IsSpace(s[j - 1])
    ensures j <= |StripRight(s)| && StripRight(s)[..j] == s[..j]
    decreases |s|
  {
    if IsSpace(s[|s| - 1]) {
      StripRightKeeps(s[..|s| - 1], j);
    }
  }

  /** A string that starts with a non-space keeps its prefix up to any non-space. */
  lemma StripKeeps(s: string, j: nat)
    requires 0 < j <= |s| && !IsSpace(s[0]) && !IsSpace(s[j - 1])
    ensures j <= |Strip(s)| && Strip(s)[..j] == s[..j]
  {
    assert StripLeft(s) == s;
    StripRightKeeps(s, j);
  }

  // ---------------------------------------------------------------- numbers

  function DigitValue(c: char): nat {
    if IsDigit(c) then c as int - '0' as int else 0
  }

  /** Python's `int(d)` of a string of ASCII digits. */
  function DigitsValue(d: string): nat
    decreases |d|
  {
    if d == [] then 0 else DigitsValue(d[..|d| - 1]) * 10 + DigitValue(d[|d| - 1])
  }

  predicate AllDigits(s: string) {
    forall c :: c in s ==> IsDigit(c)
  }

  predicate IsSeparator(c: char) { c == '.' || c == ',' }

  /** The text of a number the unit and price patterns accept: digits, then
      optionally a separator and more digits (`f` empty means no fraction). */
  function NumberText(d: string, f: string, sep: char): string {
    if f == "" then d else d + [sep] + f
  }

  predicate IsNumber(d: string, f: string, sep: char) {
    d != "" && AllDigits(d) && AllDigits(f) && IsSeparator(sep)
  }

  /** The exact value of the decimal fraction `0.f`, digit by digit. */
  function FractionValue(f: string): real
    decreases |f|
  {
    if f == [] then 0.0 else (DigitValue(f[0]) as real + FractionValue(f[1..])) / 10.0
  }

  /** The exact value of the decimal `d.f`. */
  function NumberValue(d: string, f: string): real {
    DigitsValue(d) as real + FractionValue(f)
  }

  /** Python's `float(x)` for the `d` and `d.f` texts that reach it. */
  function FloatText(x: string): real {
    var parts := Split(x, '.');
    if |parts| == 1 then DigitsValue(x) as real
    else NumberValue(parts[0], parts[1])
  }

  /** `float(x.replace(',', '.'))` reads a number with either separator as its decimal value. */
  lemma FloatOfNumber(d: string, f: string, sep: char)
    requires IsNumber(d, f, sep)
    ensures FloatText(Replace(NumberText(d, f, sep), ",", ".")) == NumberValue(d, f)
  {
    var n := NumberText(d, f, sep);
    var r := Replace(n, ",", ".");
    ReplaceChar(n, ',', '.');
    if f == "" {
      assert forall i :: 0 <= i < |n| ==> r[i] == n[i] by {
        forall i | 0 <= i < |n| ensures r[i] == n[i] { assert n[i] in d; }
      }
      assert r == d;
      SplitNoSeparator(d, '.');
    } else {
      assert forall i :: 0 <= i < |n| ==> r[i] == (d + "." + f)[i] by {
        forall i | 0 <= i < |n| ensures r[i] == (d + "." + f)[i] {
          if i < |d| { assert n[i] in d; }
          else if i > |d| { assert n[i] == f[i - |d| - 1]; assert n[i] in f; }
        }
      }
      assert r == d + "." + f;
      FloatOfDecimal(d, f);
    }
  }

  /** `float(d + "." + f)` is the decimal `d.f`. */
  lemma FloatOfDecimal(d: string, f: string)
    requires '.' !in d && '.' !in f
    ensures FloatText(d + "." + f) == NumberValue(d, f)
  {
    SplitAtFirst(d, f, '.');
    SplitNoSeparator(f, '.');
  }
}
