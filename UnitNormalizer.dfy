/** `JumboDataExtractor._parse_unit_text`: an ordered, first-match regex
    classifier of a unit text into a `(unit_type, unit_value, unit_description)`
    triple, with kilograms and litres scaled to grams and millilitres. */
module UnitNormalizer {
  import opened Wrappers
  import opened Text
  import opened Regex
  import opened Models

  /** What a pattern's converter does with group 1 of its match. */
  type UnitTypeName = t: string | DocumentedUnitType(t) witness "package"

  datatype Converter =
    /** `(unitType, float(x.replace(',', '.')), unit_text)`, times 1000 for
        kilograms and litres */
    | Scaled(unitType: UnitTypeName, thousands: bool)
    /** `('piece', int(x), unit_text)` */
    | Count
    /** `('piece', 1, unit_text)` */
    | PerPiece

  datatype Rule = Rule(pattern: Pattern, convert: Converter)

  /** The `IndexError` of `match.group(1)` on a pattern without a group. */
  datatype UnitError = NoSuchGroup

  const WeightRules: seq<Rule> := [
    Rule(Quantity("kg", true), Scaled("weight", true)),
    Rule(Quantity("g", true), Scaled("weight", false))
  ]

  const VolumeRules: seq<Rule> := [
    Rule(Quantity("l", true), Scaled("volume", true)),
    Rule(Quantity("ml", true), Scaled("volume", false))
  ]

  const PieceRules: seq<Rule> := [
    Rule(Quantity("stuk", false), Count),
    Rule(Words("per", "stuk"), PerPiece)
  ]

  /** The triple an empty or missing unit text stands for. */
  const PerPieceUnit := Unit("piece", 1.0, "per stuk")

  function Convert(c: Converter, x: string, unitText: string): Unit {
    match c
    case Scaled(unitType, thousands) =>
      var v := FloatText(Replace(x, ",", "."));
      Unit(unitType, if thousands then v * 1000.0 else v, unitText)
    case Count => Unit("piece", DigitsValue(x) as real, unitText)
    case PerPiece => Unit("piece", 1.0, unitText)
  }

  /** The searches of one text: `re.search(pattern, lowered)` for each pattern. */
  type Finder = Pattern -> Option<Match>

  function SearchIn(lowered: string): Finder {
    p => Search(lowered, p)
  }

  /** The first rule whose pattern `find` finds, applied to its group 1;
      None when no pattern of `rules` is found. */
  function FirstRule(rules: seq<Rule>, find: Finder, unitText: string): (r: Option<Result<Unit, UnitError>>)
    ensures r.Some? && r.value.Success? ==> r.value.value.description == unitText
    ensures r.Some? && r.value.Success? ==> DocumentedUnitType(r.value.value.unitType)
    decreases |rules|
  {
    if rules == [] then None
    else match find(rules[0].pattern)
      case Some(m) =>
        Some(match m.group
             case None => Failure(NoSuchGroup)
             case Some(x) => Success(Convert(rules[0].convert, x, unitText)))
      case None => FirstRule(rules[1..], find, unitText)
  }

  /** No rule applies exactly when none of the patterns is found. */
  lemma {:induction false} FirstRuleNone(rules: seq<Rule>, find: Finder, unitText: string)
    ensures FirstRule(rules, find, unitText).None? <==>
            forall k :: 0 <= k < |rules| ==> find(rules[k].pattern).None?
    decreases |rules|
  {
    if rules != [] {
      FirstRuleNone(rules[1..], find, unitText);
      assert forall k :: 1 <= k < |rules| ==> rules[k] == rules[1..][k - 1];
    }
  }

  /** A rule application fails only on a match without a group. */
  lemma {:induction false} FirstRuleFailure(rules: seq<Rule>, find: Finder, unitText: string)
    requires FirstRule(rules, find, unitText).Some? && FirstRule(rules, find, unitText).value.Failure?
    ensures exists k :: 0 <= k < |rules| && find(rules[k].pattern).Some? && find(rules[k].pattern).value.group.None?
    decreases |rules|
  {
    if find(rules[0].pattern).None? {
      FirstRuleFailure(rules[1..], find, unitText);
      var k :| 0 <= k < |rules[1..]| && find(rules[1..][k].pattern).Some? && find(rules[1..][k].pattern).value.group.None?;
      assert rules[k + 1] == rules[1..][k];
    }
  }

  /** Matches carry group 1 exactly for the quantity and euro patterns, as
      `re.search` on these patterns does. */
  ghost predicate Grouped(find: Finder) {
    forall p :: find(p).Some? ==> (find(p).value.group.None? <==> p.Words?)
  }

  lemma SearchInGrouped(lowered: string)
    ensures Grouped(SearchIn(lowered))
  {
    forall p | SearchIn(lowered)(p).Some?
      ensures SearchIn(lowered)(p).value.group.None? <==> p.Words?
    {
      var m := Search(lowered, p);
      assert MatchAt(lowered, m.value.start, p) == m;
    }
  }

  /** The three pattern groups tried in order on the lowered text, then the
      package fallback. */
  function Classify(find: Finder, unitText: string): (r: Result<Unit, UnitError>)
    ensures r.Success? ==> DocumentedUnitType(r.value.unitType) && r.value.description == unitText
  {
    match FirstRule(WeightRules, find, unitText)
    case Some(r) => r
    case None =>
      match FirstRule(VolumeRules, find, unitText)
      case Some(r) => r
      case None =>
        match FirstRule(PieceRules, find, unitText)
        case Some(r) => r
        case None => Success(Unit("package", 1.0, unitText))
  }

  /** `_parse_unit_text(unit_text)`; None is Python's None. */
  function ParseUnitText(unitText: Option<string>): (r: Result<Unit, UnitError>)
    ensures r.Success? ==> DocumentedUnitType(r.value.unitType)
    ensures r.Success? && unitText.Some? && unitText.value != "" ==> r.value.description == unitText.value
    ensures r.Failure? ==> unitText.Some? && unitText.value != ""
  {
    if unitText.None? || unitText.value == "" then Success(PerPieceUnit)
    else Classify(SearchIn(Lowered(unitText.value)), unitText.value)
  }

  /** The classification raises exactly when no weight, volume or count is
      found and `per\s*stuk`, the one pattern without a group, is. */
  lemma ClassifyRaises(find: Finder, unitText: string)
    requires Grouped(find)
    ensures Classify(find, unitText).Failure? <==>
              find(Quantity("kg", true)).None? && find(Quantity("g", true)).None? &&
              find(Quantity("l", true)).None? && find(Quantity("ml", true)).None? &&
              find(Quantity("stuk", false)).None? && find(Words("per", "stuk")).Some?
  {
    FirstRuleNone(WeightRules, find, unitText);
    FirstRuleNone(VolumeRules, find, unitText);
    var w := FirstRule(WeightRules, find, unitText);
    var v := FirstRule(VolumeRules, find, unitText);
    if w.Some? && w.value.Failure? {
      FirstRuleFailure(WeightRules, find, unitText);
    } else if w.None? && v.Some? && v.value.Failure? {
      FirstRuleFailure(VolumeRules, find, unitText);
    } else if w.None? && v.None? {
      if find(Quantity("stuk", false)).None? {
        FirstRuleSkip(PieceRules, find, unitText);
      }
    }
  }

  /** The first rule whose pattern is found is the one applied. */
  lemma FirstRuleHead(rules: seq<Rule>, find: Finder, unitText: string, x: string)
    requires rules != [] && find(rules[0].pattern).Some?
    requires find(rules[0].pattern).value.group == Some(x)
    ensures FirstRule(rules, find, unitText) == Some(Success(Convert(rules[0].convert, x, unitText)))
  {
  }

  /** A rule whose pattern is not found passes on to the next. */
  lemma FirstRuleSkip(rules: seq<Rule>, find: Finder, unitText: string)
    requires rules != [] && find(rules[0].pattern).None?
    ensures FirstRule(rules, find, unitText) == FirstRule(rules[1..], find, unitText)
  {
  }

  // ---------------------------------------------------------------- the normalised text

  /** The text the patterns are searched in. */
  function Lowered(unitText: string): string {
    Strip(Lower(unitText))
  }

  /** A descriptor that starts with a number, spaces and a unit keeps that
      start, in lower case, in the text the patterns are searched in. */
  lemma LoweredStart(d: string, f: string, sep: char, w: string, tail: string, unit: string)
    requires IsNumber(d, f, sep)
    requires forall c :: c in w ==> IsSpace(c)
    requires unit != "" && |tail| >= |unit| && Lower(tail[..|unit|]) == unit && !IsSpace(unit[|unit| - 1])
    ensures NumberText(d, f, sep) + w + unit <= Lowered(NumberText(d, f, sep) + w + tail)
  {
    var n := NumberText(d, f, sep);
    var t := n + w + tail;
    LowerAppend(n + w, tail);
    LowerAppend(n, w);
    assert Lower(n) == n by {
      forall i | 0 <= i < |n| ensures Lower(n)[i] == n[i] {
        if i < |d| { assert n[i] == d[i] && d[i] in d; }
        else if i > |d| { assert n[i] == f[i - |d| - 1] && f[i - |d| - 1] in f; }
      }
    }
    assert Lower(w) == w by {
      forall i | 0 <= i < |w| ensures Lower(w)[i] == w[i] { assert w[i] in w; }
    }
    assert Lower(tail)[..|unit|] == Lower(tail[..|unit|]);
    var j := |n| + |w| + |unit|;
    assert Lower(t)[..j] == n + w + unit;
    assert n[0] == d[0] && d[0] in d;
    StripKeeps(Lower(t), j);
  }

  /** Every character of the searched text comes from the unit text, lowered. */
  lemma LoweredChars(unitText: string, c: char)
    requires c in Lowered(unitText)
    ensures c in Lower(unitText)
  {
    var x := StripLeft(Lower(unitText));
    assert Lowered(unitText) <= x;
  }

  /** Without digits no quantity pattern is found. */
  lemma NoDigitsNoQuantity(s: string, unit: string, fraction: bool)
    requires forall c :: c in s ==> !IsDigit(c)
    ensures Search(s, Quantity(unit, fraction)).None?
  {
    QuantityNeedsDigit(s, unit, fraction);
  }

  // ---------------------------------------------------------------- the rules, in order

  /** The weight patterns come first: once the kilogram pattern is found, the
      text is that many kilograms, whatever else it holds. */
  lemma KilogramWins(find: Finder, unitText: string, d: string, f: string, sep: char)
    requires find(Quantity("kg", true)).Some?
    requires find(Quantity("kg", true)).value.group == Some(NumberText(d, f, sep))
    requires IsNumber(d, f, sep)
    ensures Classify(find, unitText) == Success(Unit("weight", NumberValue(d, f) * 1000.0, unitText))
  {
    FloatOfNumber(d, f, sep);
    FirstRuleHead(WeightRules, find, unitText, NumberText(d, f, sep));
  }

  /** Without a kilogram match the gram pattern is next. */
  lemma GramNext(find: Finder, unitText: string, d: string, f: string, sep: char)
    requires find(Quantity("kg", true)).None?
    requires find(Quantity("g", true)).Some?
    requires find(Quantity("g", true)).value.group == Some(NumberText(d, f, sep))
    requires IsNumber(d, f, sep)
    ensures Classify(find, unitText) == Success(Unit("weight", NumberValue(d, f), unitText))
  {
    FloatOfNumber(d, f, sep);
    FirstRuleSkip(WeightRules, find, unitText);
    FirstRuleHead(WeightRules[1..], find, unitText, NumberText(d, f, sep));
  }

  /** No weight pattern found: the volume patterns decide. */
  lemma NoWeight(find: Finder, unitText: string)
    requires find(Quantity("kg", true)).None? && find(Quantity("g", true)).None?
    ensures FirstRule(WeightRules, find, unitText).None?
  {
    FirstRuleSkip(WeightRules, find, unitText);
    FirstRuleSkip(WeightRules[1..], find, unitText);
  }

  /** No volume pattern found: the piece patterns decide. */
  lemma NoVolume(find: Finder, unitText: string)
    requires find(Quantity("l", true)).None? && find(Quantity("ml", true)).None?
    ensures FirstRule(VolumeRules, find, unitText).None?
  {
    FirstRuleSkip(VolumeRules, find, unitText);
    FirstRuleSkip(VolumeRules[1..], find, unitText);
  }

  /** Without a weight match the litre pattern is next. */
  lemma LiterNext(find: Finder, unitText: string, d: string, f: string, sep: char)
    requires find(Quantity("kg", true)).None? && find(Quantity("g", true)).None?
    requires find(Quantity("l", true)).Some?
    requires find(Quantity("l", true)).value.group == Some(NumberText(d, f, sep))
    requires IsNumber(d, f, sep)
    ensures Classify(find, unitText) == Success(Unit("volume", NumberValue(d, f) * 1000.0, unitText))
  {
    FloatOfNumber(d, f, sep);
    NoWeight(find, unitText);
    FirstRuleHead(VolumeRules, find, unitText, NumberText(d, f, sep));
  }

  /** Without a weight or litre match the millilitre pattern is next. */
  lemma MillilitreNext(find: Finder, unitText: string, d: string, f: string, sep: char)
    requires find(Quantity("kg", true)).None? && find(Quantity("g", true)).None?
    requires find(Quantity("l", true)).None?
    requires find(Quantity("ml", true)).Some?
    requires find(Quantity("ml", true)).value.group == Some(NumberText(d, f, sep))
    requires IsNumber(d, f, sep)
    ensures Classify(find, unitText) == Success(Unit("volume", NumberValue(d, f), unitText))
  {
    FloatOfNumber(d, f, sep);
    NoWeight(find, unitText);
    FirstRuleSkip(VolumeRules, find, unitText);
    FirstRuleHead(VolumeRules[1..], find, unitText, NumberText(d, f, sep));
  }

  /** Without a weight or volume match the piece count is next. */
  lemma CountNext(find: Finder, unitText: string, x: string)
    requires find(Quantity("kg", true)).None? && find(Quantity("g", true)).None?
    requires find(Quantity("l", true)).None? && find(Quantity("ml", true)).None?
    requires find(Quantity("stuk", false)).Some?
    requires find(Quantity("stuk", false)).value.group == Some(x)
    ensures Classify(find, unitText) == Success(Unit("piece", DigitsValue(x) as real, unitText))
  {
    NoWeight(find, unitText);
    NoVolume(find, unitText);
    FirstRuleHead(PieceRules, find, unitText, x);
  }

  /** With no quantity found only `per\s*stuk` is left, and finding it
      raises; otherwise the text is a package of one. */
  lemma NoQuantityClassify(find: Finder, unitText: string)
    requires Grouped(find)
    requires find(Quantity("kg", true)).None? && find(Quantity("g", true)).None?
    requires find(Quantity("l", true)).None? && find(Quantity("ml", true)).None?
    requires find(Quantity("stuk", false)).None?
    ensures Classify(find, unitText) ==
              if find(Words("per", "stuk")).Some? then Failure(NoSuchGroup)
              else Success(Unit("package", 1.0, unitText))
  {
    NoWeight(find, unitText);
    NoVolume(find, unitText);
    FirstRuleSkip(PieceRules, find, unitText);
    if find(Words("per", "stuk")).None? {
      FirstRuleSkip(PieceRules[1..], find, unitText);
    }
  }

  // ---------------------------------------------------------------- descriptors

  /** A descriptor that starts with a number, spaces and a unit is matched
      at its start by that unit's quantity pattern. */
  lemma QuantityInDescriptor(d: string, f: string, sep: char, w: string, tail: string, unit: string, fraction: bool)
    requires IsNumber(d, f, sep) && (fraction || f == "") && forall c :: c in w ==> IsSpace(c)
    requires unit != "" && !IsSpace(unit[0]) && !IsDigit(unit[0]) && !IsSeparator(unit[0]) && !IsSpace(unit[|unit| - 1])
    requires |tail| >= |unit| && Lower(tail[..|unit|]) == unit
    ensures Search(Lowered(NumberText(d, f, sep) + w + tail), Quantity(unit, fraction)) == Some(Match(0, Some(NumberText(d, f, sep))))
  {
    LoweredStart(d, f, sep, w, tail, unit);
    QuantityAtStart(Lowered(NumberText(d, f, sep) + w + tail), d, f, sep, w, unit, fraction);
  }

  /** A non-empty unit text is classified by its lowered, stripped form. */
  lemma ParseNonEmpty(unitText: string, r: Result<Unit, UnitError>)
    requires unitText != "" && Classify(SearchIn(Lowered(unitText)), unitText) == r
    ensures ParseUnitText(Some(unitText)) == r
  {
  }

  /** `_parse_unit_text` raises exactly on a non-empty text in which no
      weight, volume or count is found and `per\s*stuk` is. */
  lemma ParseRaises(unitText: string)
    ensures ParseUnitText(Some(unitText)).Failure? <==>
              unitText != "" &&
              var s := Lowered(unitText);
              Search(s, Quantity("kg", true)).None? && Search(s, Quantity("g", true)).None? &&
              Search(s, Quantity("l", true)).None? && Search(s, Quantity("ml", true)).None? &&
              Search(s, Quantity("stuk", false)).None? && Search(s, Words("per", "stuk")).Some?
  {
    if unitText != "" {
      SearchInGrouped(Lowered(unitText));
      ClassifyRaises(SearchIn(Lowered(unitText)), unitText);
    }
  }

  /** Whatever number the kilogram pattern finds anywhere in the text, the
      text weighs that number times 1000 grams. */
  lemma KilogramFound(unitText: string)
    requires unitText != "" && Search(Lowered(unitText), Quantity("kg", true)).Some?
    ensures exists d, f, sep :: IsNumber(d, f, sep) &&
              Search(Lowered(unitText), Quantity("kg", true)).value.group == Some(NumberText(d, f, sep)) &&
              ParseUnitText(Some(unitText)) == Success(Unit("weight", NumberValue(d, f) * 1000.0, unitText))
  {
    var s := Lowered(unitText);
    QuantityGroupIsNumber(s, "kg", true);
    var d, f, sep :| IsNumber(d, f, sep) && Search(s, Quantity("kg", true)).value.group == Some(NumberText(d, f, sep));
    KilogramWins(SearchIn(s), unitText, d, f, sep);
  }

  /** Without a kilogram match, whatever number the gram pattern finds
      anywhere in the text is its weight in grams. */
  lemma GramFound(unitText: string)
    requires unitText != "" && Search(Lowered(unitText), Quantity("kg", true)).None?
    requires Search(Lowered(unitText), Quantity("g", true)).Some?
    ensures exists d, f, sep :: IsNumber(d, f, sep) &&
              Search(Lowered(unitText), Quantity("g", true)).value.group == Some(NumberText(d, f, sep)) &&
              ParseUnitText(Some(unitText)) == Success(Unit("weight", NumberValue(d, f), unitText))
  {
    var s := Lowered(unitText);
    QuantityGroupIsNumber(s, "g", true);
    var d, f, sep :| IsNumber(d, f, sep) && Search(s, Quantity("g", true)).value.group == Some(NumberText(d, f, sep));
    GramNext(SearchIn(s), unitText, d, f, sep);
  }

  /** Without a weight match, whatever number the litre pattern finds
      anywhere in the text is its volume in litres, stored as millilitres. */
  lemma LiterFound(unitText: string)
    requires unitText != "" && Search(Lowered(unitText), Quantity("kg", true)).None?
    requires Search(Lowered(unitText), Quantity("g", true)).None?
    requires Search(Lowered(unitText), Quantity("l", true)).Some?
    ensures exists d, f, sep :: IsNumber(d, f, sep) &&
              Search(Lowered(unitText), Quantity("l", true)).value.group == Some(NumberText(d, f, sep)) &&
              ParseUnitText(Some(unitText)) == Success(Unit("volume", NumberValue(d, f) * 1000.0, unitText))
  {
    var s := Lowered(unitText);
    QuantityGroupIsNumber(s, "l", true);
    var d, f, sep :| IsNumber(d, f, sep) && Search(s, Quantity("l", true)).value.group == Some(NumberText(d, f, sep));
    LiterNext(SearchIn(s), unitText, d, f, sep);
  }

  /** Without a weight or litre match, whatever number the millilitre
      pattern finds anywhere in the text is its volume in millilitres. */
  lemma MillilitreFound(unitText: string)
    requires unitText != "" && Search(Lowered(unitText), Quantity("kg", true)).None?
    requires Search(Lowered(unitText), Quantity("g", true)).None?
    requires Search(Lowered(unitText), Quantity("l", true)).None?
    requires Search(Lowered(unitText), Quantity("ml", true)).Some?
    ensures exists d, f, sep :: IsNumber(d, f, sep) &&
              Search(Lowered(unitText), Quantity("ml", true)).value.group == Some(NumberText(d, f, sep)) &&
              ParseUnitText(Some(unitText)) == Success(Unit("volume", NumberValue(d, f), unitText))
  {
    var s := Lowered(unitText);
    QuantityGroupIsNumber(s, "ml", true);
    var d, f, sep :| IsNumber(d, f, sep) && Search(s, Quantity("ml", true)).value.group == Some(NumberText(d, f, sep));
    MillilitreNext(SearchIn(s), unitText, d, f, sep);
  }

  /** Without a weight or volume match, whatever digits the piece pattern
      finds anywhere in the text are its count of pieces. */
  lemma CountFound(unitText: string)
    requires unitText != "" && Search(Lowered(unitText), Quantity("kg", true)).None?
    requires Search(Lowered(unitText), Quantity("g", true)).None?
    requires Search(Lowered(unitText), Quantity("l", true)).None?
    requires Search(Lowered(unitText), Quantity("ml", true)).None?
    requires Search(Lowered(unitText), Quantity("stuk", false)).Some?
    ensures exists d :: d != "" && AllDigits(d) &&
              Search(Lowered(unitText), Quantity("stuk", false)).value.group == Some(d) &&
              ParseUnitText(Some(unitText)) == Success(Unit("piece", DigitsValue(d) as real, unitText))
  {
    var s := Lowered(unitText);
    QuantityGroupIsNumber(s, "stuk", false);
    var d, f, sep :| IsNumber(d, f, sep) && f == "" && Search(s, Quantity("stuk", false)).value.group == Some(NumberText(d, f, sep));
    CountNext(SearchIn(s), unitText, d);
  }

  /** An empty or missing unit text is one piece, "per stuk". */
  lemma EmptyUnitText()
    ensures ParseUnitText(None) == Success(Unit("piece", 1.0, "per stuk"))
    ensures ParseUnitText(Some("")) == Success(Unit("piece", 1.0, "per stuk"))
  {
  }

  /** A descriptor that starts with a number of kilograms (`1,5 kg`, `1 KG`)
      weighs that number times 1000 grams. */
  lemma KilogramDescriptor(d: string, f: string, sep: char, w: string, tail: string)
    requires IsNumber(d, f, sep) && forall c :: c in w ==> IsSpace(c)
    requires |tail| >= 2 && Lower(tail[..2]) == "kg"
    ensures var t := NumberText(d, f, sep) + w + tail;
            ParseUnitText(Some(t)) == Success(Unit("weight", NumberValue(d, f) * 1000.0, t))
  {
    var t := NumberText(d, f, sep) + w + tail;
    QuantityInDescriptor(d, f, sep, w, tail, "kg", true);
    KilogramWins(SearchIn(Lowered(t)), t, d, f, sep);
    ParseNonEmpty(t, Success(Unit("weight", NumberValue(d, f) * 1000.0, t)));
  }

  /** Without a kilogram match, a descriptor that starts with a number of grams
      (`500 gram`, `250 g`) weighs that number of grams. */
  lemma GramDescriptor(d: string, f: string, sep: char, w: string, tail: string)
    requires IsNumber(d, f, sep) && forall c :: c in w ==> IsSpace(c)
    requires |tail| >= 1 && Lower(tail[..1]) == "g"
    requires Search(Lowered(NumberText(d, f, sep) + w + tail), Quantity("kg", true)).None?
    ensures var t := NumberText(d, f, sep) + w + tail;
            ParseUnitText(Some(t)) == Success(Unit("weight", NumberValue(d, f), t))
  {
    var t := NumberText(d, f, sep) + w + tail;
    QuantityInDescriptor(d, f, sep, w, tail, "g", true);
    GramNext(SearchIn(Lowered(t)), t, d, f, sep);
    ParseNonEmpty(t, Success(Unit("weight", NumberValue(d, f), t)));
  }

  /** Without a weight match, a descriptor that starts with a number of litres
      (`1,5 l`, `1 liter`) holds that number times 1000 millilitres. */
  lemma LiterDescriptor(d: string, f: string, sep: char, w: string, tail: string)
    requires IsNumber(d, f, sep) && forall c :: c in w ==> IsSpace(c)
    requires |tail| >= 1 && Lower(tail[..1]) == "l"
    requires Search(Lowered(NumberText(d, f, sep) + w + tail), Quantity("kg", true)).None?
    requires Search(Lowered(NumberText(d, f, sep) + w + tail), Quantity("g", true)).None?
    ensures var t := NumberText(d, f, sep) + w + tail;
            ParseUnitText(Some(t)) == Success(Unit("volume", NumberValue(d, f) * 1000.0, t))
  {
    var t := NumberText(d, f, sep) + w + tail;
    QuantityInDescriptor(d, f, sep, w, tail, "l", true);
    LiterNext(SearchIn(Lowered(t)), t, d, f, sep);
    ParseNonEmpty(t, Success(Unit("volume", NumberValue(d, f) * 1000.0, t)));
  }

  /** Without a weight or litre match, a descriptor that starts with a number
      of millilitres (`500 ml`) holds that many millilitres. */
  lemma MillilitreDescriptor(d: string, f: string, sep: char, w: string, tail: string)
    requires IsNumber(d, f, sep) && forall c :: c in w ==> IsSpace(c)
    requires |tail| >= 2 && Lower(tail[..2]) == "ml"
    requires Search(Lowered(NumberText(d, f, sep) + w + tail), Quantity("kg", true)).None?
    requires Search(Lowered(NumberText(d, f, sep) + w + tail), Quantity("g", true)).None?
    requires Search(Lowered(NumberText(d, f, sep) + w + tail), Quantity("l", true)).None?
    ensures var t := NumberText(d, f, sep) + w + tail;
            ParseUnitText(Some(t)) == Success(Unit("volume", NumberValue(d, f), t))
  {
    var t := NumberText(d, f, sep) + w + tail;
    QuantityInDescriptor(d, f, sep, w, tail, "ml", true);
    MillilitreNext(SearchIn(Lowered(t)), t, d, f, sep);
    ParseNonEmpty(t, Success(Unit("volume", NumberValue(d, f), t)));
  }

  /** Without a weight or volume match, a count of pieces (`6 stuks`) is that count. */
  lemma CountDescriptor(d: string, w: string, tail: string)
    requires d != "" && AllDigits(d) && forall c :: c in w ==> IsSpace(c)
    requires |tail| >= 4 && Lower(tail[..4]) == "stuk"
    requires Search(Lowered(d + w + tail), Quantity("kg", true)).None?
    requires Search(Lowered(d + w + tail), Quantity("g", true)).None?
    requires Search(Lowered(d + w + tail), Quantity("l", true)).None?
    requires Search(Lowered(d + w + tail), Quantity("ml", true)).None?
    ensures ParseUnitText(Some(d + w + tail)) == Success(Unit("piece", DigitsValue(d) as real, d + w + tail))
  {
    var t := d + w + tail;
    assert Search(Lowered(t), Quantity("stuk", false)) == Some(Match(0, Some(d))) by {
      assert NumberText(d, "", '.') == d;
      QuantityInDescriptor(d, "", '.', w, tail, "stuk", false);
    }
    assert Classify(SearchIn(Lowered(t)), t) == Success(Unit("piece", DigitsValue(d) as real, t)) by {
      CountNext(SearchIn(Lowered(t)), t, d);
    }
    ParseNonEmpty(t, Success(Unit("piece", DigitsValue(d) as real, t)));
  }

  /** Text without digits that reaches the `per\s*stuk` pattern raises
      instead of giving one piece; text without digits that does not is a
      package of one, described by the text itself. */
  lemma NoDigitsDescriptor(unitText: string)
    requires unitText != "" && forall c :: c in unitText ==> !IsDigit(c)
    ensures ParseUnitText(Some(unitText)) ==
              if Search(Lowered(unitText), Words("per", "stuk")).Some? then Failure(NoSuchGroup)
              else Success(Unit("package", 1.0, unitText))
  {
    var s := Lowered(unitText);
    forall c | c in s ensures !IsDigit(c) {
      LoweredChars(unitText, c);
      var i :| 0 <= i < |Lower(unitText)| && Lower(unitText)[i] == c;
      assert unitText[i] in unitText;
    }
    NoDigitsNoQuantity(s, "kg", true);
    NoDigitsNoQuantity(s, "g", true);
    NoDigitsNoQuantity(s, "l", true);
    NoDigitsNoQuantity(s, "ml", true);
    NoDigitsNoQuantity(s, "stuk", false);
    SearchInGrouped(s);
    NoQuantityClassify(SearchIn(s), unitText);
  }

  // ---------------------------------------------------------------- a text with two weights

  /** A text in lower case without surrounding spaces is searched as it is. */
  lemma LoweredPlain(t: string)
    requires t != "" && !IsSpace(t[0]) && !IsSpace(t[|t| - 1])
    requires forall i :: 0 <= i < |t| ==> !IsUpper(t[i])
    ensures Lowered(t) == t
  {
    assert Lower(t) == t;
    StripKeeps(t, |t|);
    assert |StripLeft(t)| <= |t|;
  }

  /** In "250 g, 1 kg" the kilogram pattern matches at the "1". */
  lemma KilogramAtSeven(s: string)
    requires s == "250 g, 1 kg"
    ensures MatchAt(s, 7, Quantity("kg", true)) == Some(Match(7, Some("1")))
  {
    DigitsAre(s, 7, 8);
    assert FractionEnd(s, 8, true) == 8;
    SpacesAre(s, 8, 9);
    assert s[9..11] == "kg";
    assert s[7..8] == "1";
  }

  /** In "250 g, 1 kg" the "250" is followed by "g", not "kg". */
  lemma NoKilogramAtNumber(s: string, k: nat)
    requires s == "250 g, 1 kg" && k < 3
    ensures MatchAt(s, k, Quantity("kg", true)).None?
  {
    DigitsAre(s, k, 3);
    assert FractionEnd(s, 3, true) == 3;
    SpacesAre(s, 3, 4);
    assert s[4] != 'k';
  }

  /** In "250 g, 1 kg" nothing before the "1" matches the kilogram pattern. */
  lemma NoKilogramBefore(s: string)
    requires s == "250 g, 1 kg"
    ensures NoMatchIn(s, 0, 7, Quantity("kg", true))
  {
    var kg := Quantity("kg", true);
    assert NoMatchIn(s, 7, 7, kg);
    assert !IsDigit(s[6]) && !IsDigit(s[5]) && !IsDigit(s[4]) && !IsDigit(s[3]);
    assert NoMatchIn(s, 6, 7, kg);
    assert NoMatchIn(s, 5, 7, kg);
    assert NoMatchIn(s, 4, 7, kg);
    assert NoMatchIn(s, 3, 7, kg);
    NoKilogramAtNumber(s, 2);
    assert NoMatchIn(s, 2, 7, kg);
    NoKilogramAtNumber(s, 1);
    assert NoMatchIn(s, 1, 7, kg);
    NoKilogramAtNumber(s, 0);
  }

  /** "250 g, 1 kg" is searched as it is. */
  lemma TwoWeightsPlain(t: string)
    requires t == "250 g, 1 kg"
    ensures Lowered(t) == t
  {
    assert !IsSpace(t[0]) && !IsSpace(t[|t| - 1]);
    assert forall i :: 0 <= i < |t| ==> !IsUpper(t[i]);
    LoweredPlain(t);
  }

  /** In "250 g, 1 kg" the kilogram search finds the "1". */
  lemma KilogramSearch(t: string)
    requires t == "250 g, 1 kg"
    ensures Search(t, Quantity("kg", true)) == Some(Match(7, Some("1")))
  {
    KilogramAtSeven(t);
    NoKilogramBefore(t);
    SearchFinds(t, Quantity("kg", true), 7);
  }

  /** "250 g, 1 kg" weighs one kilogram: the kilogram pattern is tried
      before the gram pattern, whatever their order in the text. */
  lemma KilogramBeforeGramInText(t: string)
    requires t == "250 g, 1 kg"
    ensures ParseUnitText(Some(t)) == Success(Unit("weight", 1000.0, t))
  {
    TwoWeightsPlain(t);
    KilogramSearch(t);
    assert NumberText("1", "", '.') == "1";
    assert NumberValue("1", "") == 1.0;
    KilogramWins(SearchIn(t), t, "1", "", '.');
  }
}
