/** `FormatEquipmentPipe.transform`: a camel-case equipment key turned into
    a label, by a space before every capital, a capital first character and
    one special case for the air fryer. */
module FormatEquipment {
  import opened Text

  /** `.replace(/([A-Z])/g, ' $1')`. */
  function SpaceBeforeCapitals(s: string): string
    decreases |s|
  {
    if s == [] then []
    else (if IsUpper(s[0]) then [' ', s[0]] else [s[0]]) + SpaceBeforeCapitals(s[1..])
  }

  /** The number of capitals A-Z. */
  function CountUpper(s: string): nat
    decreases |s|
  {
    if s == [] then 0 else (if IsUpper(s[0]) then 1 else 0) + CountUpper(s[1..])
  }

  /** The characters JavaScript's `.` does not match. */
  predicate IsLineTerminator(c: char) {
    c == '\n' || c == '\r' || c == '\U{2028}' || c == '\U{2029}'
  }

  /** `.replace(/^./, str => str.toUpperCase())`: the first character in
      capitals, unless the string is empty or starts with a line break. */
  function CapitalizeFirst(s: string): (r: string)
    ensures |r| == |s|
    ensures |s| > 0 ==> r[1..] == s[1..]
  {
    if s != [] && !IsLineTerminator(s[0]) then [UpperChar(s[0])] + s[1..] else s
  }

  /** The pipe: an empty key is returned as it is; otherwise spaced,
      capitalised, and the first " Air Fryer" joined into " AirFryer". */
  function Transform(value: string): (r: string)
    ensures value == "" ==> r == ""
    ensures |r| == |value| + CountUpper(value) || |r| + 1 == |value| + CountUpper(value)
  {
    if value == "" then value
    else
      SpacedLength(value);
      ReplaceFirst(CapitalizeFirst(SpaceBeforeCapitals(value)), " Air Fryer", " AirFryer")
  }

  /** Only the first " Air Fryer" of the capitalised label is joined; the rest
      of the label is kept as it is. */
  lemma TransformJoinsFirst(value: string, i: int)
    requires value != ""
    requires FirstOccurrence(CapitalizeFirst(SpaceBeforeCapitals(value)), " Air Fryer", i)
    ensures var c := CapitalizeFirst(SpaceBeforeCapitals(value));
      Transform(value) == c[..i] + " AirFryer" + c[i + |" Air Fryer"|..]
  {
    ReplaceFirstAt(CapitalizeFirst(SpaceBeforeCapitals(value)), " Air Fryer", " AirFryer", i);
  }

  /** Every capital gains exactly one character. */
  lemma {:induction false} SpacedLength(s: string)
    ensures |SpaceBeforeCapitals(s)| == |s| + CountUpper(s)
    decreases |s|
  {
    if s != [] {
      SpacedLength(s[1..]);
    }
  }

  /** Spacing works character by character: it distributes over concatenation. */
  lemma {:induction false} SpacedAppend(a: string, b: string)
    ensures SpaceBeforeCapitals(a + b) == SpaceBeforeCapitals(a) + SpaceBeforeCapitals(b)
    decreases |a|
  {
    if a == [] {
      assert a + b == b;
    } else {
      assert (a + b)[1..] == a[1..] + b;
      SpacedAppend(a[1..], b);
    }
  }

  /** Every capital of `r` has a space right before it. */
  predicate CapitalsSpaced(r: string) {
    forall i :: 0 <= i < |r| && IsUpper(r[i]) ==> 0 < i && r[i - 1] == ' '
  }

  /** In the spaced string every capital has a space right before it. */
  lemma {:induction false} CapitalsFollowSpace(s: string)
    ensures CapitalsSpaced(SpaceBeforeCapitals(s))
    decreases |s|
  {
    if s != [] {
      CapitalsFollowSpace(s[1..]);
      var head := if IsUpper(s[0]) then [' ', s[0]] else [s[0]];
      var rest := SpaceBeforeCapitals(s[1..]);
      var r := SpaceBeforeCapitals(s);
      assert r == head + rest;
      forall i | 0 <= i < |r| && IsUpper(r[i]) ensures 0 < i && r[i - 1] == ' ' {
        if i < |head| {
          assert r[i] == head[i];
          assert r[0] == head[0];
        } else {
          var j := i - |head|;
          assert r[i] == rest[j];
          assert IsUpper(rest[j]) && CapitalsSpaced(rest);
          assert 0 < j && rest[j - 1] == ' ';
          assert r[i - 1] == rest[j - 1];
        }
      }
    }
  }

  /** Text without capitals is left as it is by the spacing. */
  lemma {:induction false} NoCapitalsUnchanged(s: string)
    requires forall i :: 0 <= i < |s| ==> !IsUpper(s[i])
    ensures SpaceBeforeCapitals(s) == s
    decreases |s|
  {
    if s != [] {
      NoCapitalsUnchanged(s[1..]);
      assert s == [s[0]] + s[1..];
    }
  }

  /** A key that starts with a capital starts with the inserted space, which
      the capitalisation leaves alone. */
  lemma LeadingCapital(s: string)
    requires s != "" && IsUpper(s[0])
    ensures SpaceBeforeCapitals(s)[0] == ' '
    ensures CapitalizeFirst(SpaceBeforeCapitals(s)) == SpaceBeforeCapitals(s)
  {
    var r := SpaceBeforeCapitals(s);
    assert r == [' ', s[0]] + SpaceBeforeCapitals(s[1..]);
    assert [UpperChar(r[0])] + r[1..] == r;
  }

  /** A key without capitals keeps its length and only has its first character capitalised. */
  lemma LowercaseKey(s: string)
    requires s != ""
    requires forall i :: 0 <= i < |s| ==> !IsUpper(s[i])
    ensures Transform(s) == CapitalizeFirst(s)
    ensures |Transform(s)| == |s|
  {
    NoCapitalsUnchanged(s);
    var c := CapitalizeFirst(s);
    var pat := " Air Fryer";
    forall i ensures !OccursAt(c, pat, i) {
      if 0 <= i && i + |pat| <= |c| {
        assert c[i..i + |pat|][5] == c[i + 5];
        assert c[1..][i + 4] == s[1..][i + 4];
      }
    }
  }

  /** Only " Air Fryer" with its leading space is joined: "airFryer" keeps
      the space it gains. */
  lemma AirFryerLowercase(key: string)
    requires key == "airFryer"
    ensures Transform(key) == "Air Fryer"
  {
    var spaced := SpaceBeforeCapitals(key);
    SpacedAirFryer(key, "air", spaced);
    var capitalised := CapitalizeFirst(spaced);
    Capitalised(spaced, capitalised);
    ShorterNotJoined(capitalised);
  }

  /** "AirFryer" is joined back, but keeps the space inserted before its first capital. */
  lemma AirFryerCapitalised(key: string)
    requires key == "AirFryer"
    ensures Transform(key) == " AirFryer"
  {
    var spaced := SpaceBeforeCapitals(key);
    SpacedAirFryer(key, "Air", spaced);
    Capitalised(spaced, CapitalizeFirst(spaced));
  }

  /** The spacing of the two air fryer keys. */
  lemma SpacedAirFryer(key: string, air: string, spaced: string)
    requires air == "air" || air == "Air"
    requires key == air + "Fryer" && spaced == SpaceBeforeCapitals(key)
    ensures air == "air" ==> spaced == "air Fryer"
    ensures air == "Air" ==> spaced == " Air Fryer"
  {
    SpacedAppend(air, "Fryer");
    assert SpaceBeforeCapitals("Fryer") == " Fryer";
  }

  /** The capitalisation of the two spaced keys. */
  lemma Capitalised(spaced: string, capitalised: string)
    requires spaced == "air Fryer" || spaced == " Air Fryer"
    requires capitalised == CapitalizeFirst(spaced)
    ensures spaced == "air Fryer" ==> capitalised == "Air Fryer"
    ensures spaced == " Air Fryer" ==> capitalised == " Air Fryer"
  {
  }

  /** Text shorter than " Air Fryer" is never joined. */
  lemma ShorterNotJoined(s: string)
    requires |s| < |" Air Fryer"|
    ensures ReplaceFirst(s, " Air Fryer", " AirFryer") == s
  {
  }
}
