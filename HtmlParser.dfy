/** `JumboHTMLParser.parse_html`: the product row read from one stored
    product page and its storage key. The parser reads the SKU and the
    category from the key alone, classifies the unit by keywords of the last
    price-per-unit span, joins the description texts and caps the country of
    origin; it builds no price or nutrition row. */
module HtmlParser {
  import opened Wrappers
  import opened Text
  import opened Models
  import opened Document
  import opened StorageKey

  /** The module constant `Prefix`; its length, not the parser's own
      prefix, is what the category slice drops. */
  const Prefix := "Jumbo/"

  /** A page without a title leaves `title` unbound, and building the row raises. */
  datatype ParseError = TitleUnbound

  // ---------------------------------------------------------------- the key

  /** `key.split("-")[-1].split(".")[0]`: the SKU never holds a dash or a dot. */
  function SkuOf(key: string): (sku: string)
    ensures '-' !in sku && '.' !in sku
  {
    var parts := Split(key, '-');
    SplitPieces(key, '-');
    assert Last(parts) in parts;
    SplitPieces(Last(parts), '.');
    Split(Last(parts), '.')[0]
  }

  /** `key[len(Prefix):].split("/")[0]`: the start of the key past the
      prefix's length, up to the first slash. */
  function CategoryPath(key: string): (path: string)
    ensures '/' !in path && path <= Drop(key, |Prefix|)
  {
    SplitPieces(Drop(key, |Prefix|), '/');
    Split(Drop(key, |Prefix|), '/')[0]
  }

  // ---------------------------------------------------------------- the unit

  /** `''.join(filter(str.isdigit, s))`. */
  function DigitsOf(s: string): (d: string)
    ensures AllDigits(d) && |d| <= |s|
    decreases |s|
  {
    if s == [] then ""
    else if IsDigit(s[0]) then [s[0]] + DigitsOf(s[1..])
    else DigitsOf(s[1..])
  }

  /** `int(digits or 1)`: the number the digits spell, or 1 when there are none. */
  function MillilitreCount(s: string): nat {
    var digits := DigitsOf(s);
    if digits == "" then 1 else DigitsValue(digits)
  }

  /** The keyword chain over the lowercased text of the last span; the
      first test that holds decides. */
  function SpanUnitOf(unitText: string): (u: Unit)
    ensures DocumentedUnitType(u.unitType) && u.unitValue >= 0.0
  {
    if Contains(unitText, "kilo") || Contains(unitText, "kg") then Unit("weight", 1000.0, "1 kilogram")
    else if Contains(unitText, "gram") || Contains(unitText, "grams") then Unit("weight", 1.0, "1 " + Upper(unitText))
    else if Contains(unitText, "liter") || unitText == "l" then Unit("volume", 1000.0, "1 liter")
    else if Contains(unitText, "ml") then Unit("volume", MillilitreCount(unitText) as real, Upper(unitText))
    else if Contains(unitText, "stuk") || Contains(unitText, "stuks") || Contains(unitText, "stukken")
    then Unit("piece", 1.0, "per stuk")
    else Unit("package", 1.0, unitText)
  }

  /** The unit of the price-per-unit block: only with at least three spans,
      from the last one, lowercased. */
  function PageUnitOf(spans: Option<seq<string>>): Option<Unit> {
    if spans.Some? && |spans.value| >= 3 then Some(SpanUnitOf(Lower(Last(spans.value)))) else None
  }

  // ---------------------------------------------------------------- description and origin

  /** The texts that are not empty, in document order. */
  function NonEmptyTexts(texts: seq<string>): seq<string>
    decreases |texts|
  {
    if texts == [] then []
    else (if texts[0] != "" then [texts[0]] else []) + NonEmptyTexts(texts[1..])
  }

  /** The description: the non-empty texts joined by newlines, or None when
      the block is missing or holds no text. */
  function DescriptionOf(descTexts: Option<seq<string>>): (description: Option<string>)
    ensures description.Some? ==> descTexts.Some? && description.value != ""
  {
    if descTexts.Some? && NonEmptyTexts(descTexts.value) != [] then
      var parts := NonEmptyTexts(descTexts.value);
      NonEmptyMembers(descTexts.value);
      assert parts[0] in parts;
      JoinStartsWithFirst(parts, "\n");
      Some(Join(parts, "\n"))
    else None
  }

  /** A join starts with its first part. */
  lemma JoinStartsWithFirst(parts: seq<string>, sep: string)
    requires parts != []
    ensures parts[0] <= Join(parts, sep)
  {
  }

  /** The country of origin: the paragraph at the end of the lookup chain,
      when every step finds its element and the text is non-empty and short. */
  function CountryOf(origin: Option<Option<Option<Option<string>>>>): (country: Option<string>)
    ensures country.Some? ==> origin == Some(Some(Some(Some(country.value)))) && 0 < |country.value| < 30
  {
    match origin
    case Some(Some(Some(Some(text)))) => if text != "" && |text| < 30 then Some(text) else None
    case _ => None
  }

  /** The row `parse_html` returns, or the error it raises. */
  function Parsed(page: Page, key: string): (r: Result<ProductRow, ParseError>)
    ensures r.Success? ==> r.value.storeId == 1 && r.value.name == page.title
    ensures r.Success? ==> '-' !in r.value.externalSku && '.' !in r.value.externalSku
    ensures r.Success? ==> r.value.category.Some? && '/' !in r.value.category.value
    ensures r.Success? && r.value.countryOfOrigin.Some? ==> |r.value.countryOfOrigin.value| < 30
  {
    if page.title.None? then Failure(TitleUnbound)
    else
      var unit := PageUnitOf(page.ppuSpans);
      Success(ProductRow(1, SkuOf(key), Some(page.title.value), Some(CategoryPath(key)),
                         if unit.Some? then Some(unit.value.unitType) else None,
                         if unit.Some? then Some(unit.value.unitValue) else None,
                         if unit.Some? then Some(unit.value.description) else None,
                         DescriptionOf(page.descTexts), CountryOf(page.origin)))
  }

  // ---------------------------------------------------------------- the parser

  /** The description step: the non-empty texts are appended one by one and joined at the end. */
  method CollectDescription(descTexts: Option<seq<string>>) returns (description: Option<string>)
    ensures description == DescriptionOf(descTexts)
  {
    description := None;
    if descTexts.Some? {
      var texts := descTexts.value;
      var parts: seq<string> := [];
      var i := 0;
      while i < |texts|
        invariant 0 <= i <= |texts|
        invariant parts == NonEmptyTexts(texts[..i])
      {
        var text := texts[i];
        if text != "" {
          parts := parts + [text];
        }
        NonEmptyAppend(texts[..i], [text]);
        assert texts[..i + 1] == texts[..i] + [text];
        i := i + 1;
      }
      assert texts[..i] == texts;
      if parts != [] {
        description := Some(Join(parts, "\n"));
      }
    }
  }

  method ParseHtml(page: Page, key: string) returns (r: Result<ProductRow, ParseError>)
    ensures r == Parsed(page, key)
  {
    var sku := Split(Last(Split(key, '-')), '.')[0];
    var withoutPrefix := Drop(key, |Prefix|);
    var categoryPath := Split(withoutPrefix, '/')[0];

    var unitType: Option<string> := None;
    var unitValue: Option<real> := None;
    var unitDesc: Option<string> := None;
    if page.ppuSpans.Some? {
      var spans := page.ppuSpans.value;
      if |spans| >= 3 {
        var unit := SpanUnitOf(Lower(Last(spans)));
        unitType, unitValue, unitDesc := Some(unit.unitType), Some(unit.unitValue), Some(unit.description);
      }
    }

    var description := CollectDescription(page.descTexts);

    var country: Option<string> := None;
    if page.origin.Some? {
      var innerDiv := page.origin.value;
      if innerDiv.Some? {
        var contentDiv := innerDiv.value;
        if contentDiv.Some? {
          var pTag := contentDiv.value;
          if pTag.Some? {
            var originText := pTag.value;
            if originText != "" && |originText| < 30 {
              country := Some(originText);
            }
          }
        }
      }
    }

    if page.title.None? {
      return Failure(TitleUnbound);
    }
    return Success(ProductRow(1, sku, Some(page.title.value), Some(categoryPath),
                              unitType, unitValue, unitDesc, description, country));
  }

  // ---------------------------------------------------------------- the key, read back

  /** The SKU is what follows the last dash of the whole key, up to the next dot. */
  lemma SkuAfterLastDash(a: string, b: string)
    requires '-' !in b
    ensures SkuOf(a + "-" + b) == Split(b, '.')[0]
  {
    assert a + "-" + b == a + ("-" + b);
    assert "-" + b == ['-'] + b;
    LastSplitAppend(a, "-" + b, '-');
    LastSplitTail(b, '-');
  }

  /** A key without a dash gives the text before its first dot. */
  lemma SkuWithoutDash(key: string)
    requires '-' !in key
    ensures SkuOf(key) == Split(key, '.')[0]
  {
    SplitNoSeparator(key, '-');
  }

  /** The key the scraper stores a page under gives back the SKU at the end of the page link. */
  lemma SkuOfScraperKey(category: string, link: string, sku: string)
    requires '-' !in sku && '.' !in sku
    ensures SkuOf(Key(category, link + "-" + sku)) == sku
  {
    KeyLastDash(category, link, sku);
    assert sku + ".html" == sku + ['.'] + "html";
    SplitAtFirst(sku, "html", '.');
  }

  /** The key the scraper stores a page under gives back its category. */
  lemma CategoryOfScraperKey(category: string, file: string)
    requires '/' !in category
    ensures CategoryPath(Key(category, file)) == category
  {
    KeyAfterPrefix(category, file);
    assert |ScraperPrefix| + 1 == |Prefix|;
    assert category + "/" + (file + ".html") == category + ['/'] + (file + ".html");
    SplitAtFirst(category, file + ".html", '/');
  }

  /** The first six characters are dropped whatever they are. */
  lemma CategoryIgnoresPrefix(head: string, rest: string)
    requires |head| == |Prefix|
    ensures CategoryPath(head + rest) == Split(rest, '/')[0]
  {
    assert (head + rest)[|Prefix|..] == rest;
  }

  /** A key shorter than the prefix gives an empty category. */
  lemma ShortKeyCategory(key: string)
    requires |key| < |Prefix|
    ensures CategoryPath(key) == ""
  {
  }

  // ---------------------------------------------------------------- the unit chain

  /** Python's `in` on strings, by position. */
  lemma {:induction false} ContainsAt(s: string, sub: string)
    ensures Contains(s, sub) <==> exists i :: OccursAt(s, sub, i)
    decreases |s|
  {
    if sub <= s {
      assert s[0..|sub|] == sub;
      assert OccursAt(s, sub, 0);
    }
    if s != [] {
      ContainsAt(s[1..], sub);
      if Contains(s[1..], sub) {
        var i :| OccursAt(s[1..], sub, i);
        assert s[1..][i..i + |sub|] == s[i + 1..i + 1 + |sub|];
        assert OccursAt(s, sub, i + 1);
      }
      if exists i :: OccursAt(s, sub, i) {
        var i :| OccursAt(s, sub, i);
        if i == 0 {
          assert sub == s[..|sub|];
        } else {
          assert s[1..][i - 1..i - 1 + |sub|] == s[i..i + |sub|];
          assert OccursAt(s[1..], sub, i - 1);
        }
      }
    } else if exists i :: OccursAt(s, sub, i) {
      var i :| OccursAt(s, sub, i);
      assert sub == [];
    }
  }

  /** A string holds every piece of any text it holds. */
  lemma ContainsLonger(s: string, a: string, b: string)
    requires Contains(s, a + b)
    ensures Contains(s, a)
  {
    ContainsAt(s, a + b);
    var i :| OccursAt(s, a + b, i);
    assert s[i..i + |a|] == (a + b)[..|a|] == a;
    assert OccursAt(s, a, i);
    ContainsAt(s, a);
  }

  /** A string holds only texts made of its own characters. */
  lemma ContainsChars(s: string, sub: string, c: char)
    requires Contains(s, sub) && c in sub
    ensures c in s
  {
    ContainsAt(s, sub);
    var i :| OccursAt(s, sub, i);
    var k :| 0 <= k < |sub| && sub[k] == c;
    assert s[i..i + |sub|][k] == c;
  }

  /** A string lacking one of the characters of a text does not hold the text. */
  lemma Lacks(s: string, sub: string, c: char)
    requires c in sub && c !in s
    ensures !Contains(s, sub)
  {
    if Contains(s, sub) {
      ContainsChars(s, sub, c);
    }
  }

  /** A string holds any text it is built around. */
  lemma ContainsMiddle(a: string, m: string, b: string)
    ensures Contains(a + m + b, m)
  {
    assert (a + m + b)[|a|..|a| + |m|] == m;
    assert OccursAt(a + m + b, m, |a|);
    ContainsAt(a + m + b, m);
  }

  /** The longer alternatives of the gram and piece tests never decide
      anything: a text holding them already holds the shorter keyword. */
  lemma LongerKeywordsRedundant(t: string)
    ensures Contains(t, "grams") ==> Contains(t, "gram")
    ensures Contains(t, "stuks") ==> Contains(t, "stuk")
    ensures Contains(t, "stukken") ==> Contains(t, "stuk")
  {
    if Contains(t, "grams") {
      assert "grams" == "gram" + "s";
      ContainsLonger(t, "gram", "s");
    }
    if Contains(t, "stuks") {
      assert "stuks" == "stuk" + "s";
      ContainsLonger(t, "stuk", "s");
    }
    if Contains(t, "stukken") {
      assert "stukken" == "stuk" + "ken";
      ContainsLonger(t, "stuk", "ken");
    }
  }

  /** Any text holding "kilo" or "kg" is a kilogram, whatever number it
      names, "kilogram" included although it also holds "gram": the kilo
      test comes first. */
  lemma KiloBeforeGram(a: string, b: string)
    ensures SpanUnitOf(a + "kilo" + b) == Unit("weight", 1000.0, "1 kilogram")
    ensures SpanUnitOf(a + "kg" + b) == Unit("weight", 1000.0, "1 kilogram")
  {
    ContainsMiddle(a, "kilo", b);
    ContainsMiddle(a, "kg", b);
  }

  /** "l" on its own is one litre. */
  lemma LitreAlone()
    ensures SpanUnitOf("l") == Unit("volume", 1000.0, "1 liter")
  {
  }

  /** A text holding "gram" and no "k" is that text in capitals after "1 ",
      with the value 1: the gram branch does not read the number. */
  lemma GramSpan(a: string, b: string)
    requires 'k' !in a && 'k' !in b
    ensures var t := a + "gram" + b;
      SpanUnitOf(t) == Unit("weight", 1.0, "1 " + Upper(t))
  {
    var t := a + "gram" + b;
    assert 'k' !in t;
    Lacks(t, "kilo", 'k');
    Lacks(t, "kg", 'k');
    ContainsMiddle(a, "gram", b);
  }

  /** A text holding "stuk" and none of the letters g, i, m is one piece,
      described as "per stuk", whatever count it names. */
  lemma StukSpan(a: string, b: string)
    requires 'g' !in a && 'i' !in a && 'm' !in a
    requires 'g' !in b && 'i' !in b && 'm' !in b
    ensures SpanUnitOf(a + "stuk" + b) == Unit("piece", 1.0, "per stuk")
  {
    var t := a + "stuk" + b;
    assert 'g' !in t && 'i' !in t && 'm' !in t;
    Lacks(t, "kilo", 'i');
    Lacks(t, "kg", 'g');
    Lacks(t, "gram", 'g');
    Lacks(t, "grams", 'g');
    Lacks(t, "liter", 'i');
    Lacks(t, "ml", 'm');
    assert |t| >= 4;
    ContainsMiddle(a, "stuk", b);
  }

  /** A text ending in "liter" is a litre even when it names millilitres:
      the litre test comes before the millilitre one ("milliliter" is one). */
  lemma LiterBeforeMillilitre(a: string)
    requires 'k' !in a && 'g' !in a
    ensures SpanUnitOf(a + "liter") == Unit("volume", 1000.0, "1 liter")
  {
    var t := a + "liter";
    Lacks(t, "kilo", 'k');
    Lacks(t, "kg", 'k');
    Lacks(t, "gram", 'g');
    Lacks(t, "grams", 'g');
    ContainsMiddle(a, "liter", "");
    assert a + "liter" + "" == t;
  }

  /** A text that none of the keyword tests finds is a package described by
      the text itself; "l" counts as a litre only on its own ("per l" is a
      package). */
  lemma NoKeywordIsPackage(t: string)
    requires !Contains(t, "kilo") && !Contains(t, "kg") && !Contains(t, "gram")
    requires !Contains(t, "liter") && t != "l" && !Contains(t, "ml") && !Contains(t, "stuk")
    ensures SpanUnitOf(t) == Unit("package", 1.0, t)
  {
    LongerKeywordsRedundant(t);
  }

  /** The digits of a text are the digits of its pieces, in order. */
  lemma {:induction false} DigitsOfAppend(a: string, b: string)
    ensures DigitsOf(a + b) == DigitsOf(a) + DigitsOf(b)
    decreases |a|
  {
    if a == [] {
      assert a + b == b;
    } else {
      assert (a + b)[1..] == a[1..] + b;
      DigitsOfAppend(a[1..], b);
    }
  }

  /** Filtering keeps a string of digits whole and drops a string without any. */
  lemma {:induction false} DigitsOfDigits(d: string)
    ensures AllDigits(d) ==> DigitsOf(d) == d
    ensures (forall c :: c in d ==> !IsDigit(c)) ==> DigitsOf(d) == ""
    decreases |d|
  {
    if d != [] {
      assert forall c :: c in d[1..] ==> c in d;
      DigitsOfDigits(d[1..]);
      assert d == [d[0]] + d[1..];
    }
  }

  /** "<digits> ml" is a volume of that many millilitres, described in capitals. */
  lemma MillilitreAmount(d: string)
    requires d != "" && AllDigits(d)
    ensures SpanUnitOf(d + " ml") == Unit("volume", DigitsValue(d) as real, Upper(d + " ml"))
  {
    var t := d + " ml";
    assert forall c :: c in t ==> c in d || c in " ml";
    Lacks(t, "kilo", 'k');
    Lacks(t, "kg", 'k');
    Lacks(t, "gram", 'g');
    Lacks(t, "grams", 'g');
    Lacks(t, "liter", 'i');
    ContainsMiddle(d + " ", "ml", "");
    assert d + " " + "ml" + "" == t;
    assert t != "l";
    assert SpanUnitOf(t) == Unit("volume", MillilitreCount(t) as real, Upper(t));
    DigitsOfAppend(d, " ml");
    DigitsOfDigits(d);
    DigitsOfDigits(" ml");
    assert DigitsOf(t) == d;
  }

  /** Without digits the millilitre count falls back to 1. */
  lemma MillilitreWithoutDigits(a: string)
    requires forall c :: c in a ==> !IsDigit(c)
    requires 'k' !in a && 'g' !in a && 'i' !in a
    ensures SpanUnitOf(a + "ml") == Unit("volume", 1.0, Upper(a + "ml"))
  {
    var t := a + "ml";
    Lacks(t, "kilo", 'k');
    Lacks(t, "kg", 'k');
    Lacks(t, "gram", 'g');
    Lacks(t, "grams", 'g');
    Lacks(t, "liter", 'i');
    ContainsMiddle(a, "ml", "");
    assert a + "ml" + "" == t;
    assert t != "l";
    assert SpanUnitOf(t) == Unit("volume", MillilitreCount(t) as real, Upper(t));
    DigitsOfAppend(a, "ml");
    DigitsOfDigits(a);
    DigitsOfDigits("ml");
    assert DigitsOf(t) == "";
  }

  /** The unit is set exactly when the block has at least three spans. */
  lemma PageUnitPresent(spans: Option<seq<string>>)
    ensures PageUnitOf(spans).Some? <==> spans.Some? && |spans.value| >= 3
    ensures PageUnitOf(spans).Some? ==> PageUnitOf(spans).value == SpanUnitOf(Lower(spans.value[|spans.value| - 1]))
  {
  }

  // ---------------------------------------------------------------- description

  /** Keeping the non-empty texts of two runs of texts keeps each run's, in order. */
  lemma {:induction false} NonEmptyAppend(a: seq<string>, b: seq<string>)
    ensures NonEmptyTexts(a + b) == NonEmptyTexts(a) + NonEmptyTexts(b)
    decreases |a|
  {
    if a == [] {
      assert a + b == b;
    } else {
      assert (a + b)[1..] == a[1..] + b;
      NonEmptyAppend(a[1..], b);
    }
  }

  /** The kept texts are exactly the non-empty ones of the input. */
  lemma {:induction false} NonEmptyMembers(texts: seq<string>)
    ensures forall t :: t in NonEmptyTexts(texts) <==> t in texts && t != ""
    decreases |texts|
  {
    if texts != [] {
      NonEmptyMembers(texts[1..]);
      assert texts == [texts[0]] + texts[1..];
    }
  }

  /** No description exactly when the block is missing or all its texts are empty. */
  lemma DescriptionAbsent(descTexts: Option<seq<string>>)
    ensures DescriptionOf(descTexts).None? <==>
              descTexts.None? || forall i :: 0 <= i < |descTexts.value| ==> descTexts.value[i] == ""
  {
    if descTexts.Some? {
      var texts := descTexts.value;
      NonEmptyMembers(texts);
      if NonEmptyTexts(texts) != [] {
        var t := NonEmptyTexts(texts)[0];
        assert t in NonEmptyTexts(texts);
        var i :| 0 <= i < |texts| && texts[i] == t;
      } else {
        forall i | 0 <= i < |texts| ensures texts[i] == "" {
          assert texts[i] in texts;
        }
      }
    }
  }

  /** Texts without line breaks can be read back from the description, line by line. */
  lemma DescriptionLines(texts: seq<string>)
    requires forall t :: t in texts ==> '\n' !in t
    requires exists t :: t in texts && t != ""
    ensures DescriptionOf(Some(texts)).Some?
    ensures Split(DescriptionOf(Some(texts)).value, '\n') == NonEmptyTexts(texts)
  {
    NonEmptyMembers(texts);
    var t :| t in texts && t != "";
    assert t in NonEmptyTexts(texts);
    SplitJoin(NonEmptyTexts(texts), '\n');
  }

  // ---------------------------------------------------------------- origin

  /** A country is read exactly when the whole chain is there and its text
      is non-empty and under 30 characters, and it is then that text. */
  lemma CountryPresent(origin: Option<Option<Option<Option<string>>>>)
    ensures CountryOf(origin).Some? <==>
              origin.Some? && origin.value.Some? && origin.value.value.Some? && origin.value.value.value.Some? &&
              0 < |origin.value.value.value.value| < 30
    ensures CountryOf(origin).Some? ==> CountryOf(origin).value == origin.value.value.value.value
  {
  }

  // ---------------------------------------------------------------- the row

  /** Parsing fails exactly when the page has no title. */
  lemma ParsedFails(page: Page, key: string)
    ensures Parsed(page, key).Failure? <==> page.title.None?
  {
  }

  /** A row is store 1, named by the title, with the category of the key;
      the canonical link, subtitle and price of the page play no part. */
  lemma ParsedIgnoresLink(page: Page, key: string, href: Option<string>, subtitle: Option<string>,
                          price: Option<Option<string>>)
    ensures Parsed(page.(canonicalHref := href, subtitle := subtitle, priceScreenreader := price), key) ==
            Parsed(page, key)
    ensures Parsed(page, key).Success? ==>
              && Parsed(page, key).value.storeId == 1
              && Parsed(page, key).value.externalSku == SkuOf(key)
              && Parsed(page, key).value.name == page.title
              && Parsed(page, key).value.category == Some(CategoryPath(key))
  {
  }

  /** Without at least three spans, all three unit fields are None. */
  lemma ParsedWithoutUnit(page: Page, key: string)
    requires page.title.Some?
    requires page.ppuSpans.None? || |page.ppuSpans.value| < 3
    ensures var row := Parsed(page, key).value;
      row.unitType.None? && row.unitValue.None? && row.unitDescription.None?
  {
  }

  // ---------------------------------------------------------------- the stored fixture

  const FixtureCategory := "ontbijt,-broodbeleg-en-bakproducten"

  const FixtureLink := "amorelli-pistache-creme-190-g"

  const FixtureSku := "666821POT"

  /** The key of the stored test page, "Jumbo/ontbijt,-broodbeleg-en-bakproducten/amorelli-pistache-creme-190-g-666821POT.html",
      as the scraper builds it from the category and the product link. */
  const FixtureKey := Key(FixtureCategory, FixtureLink + "-" + FixtureSku)

  /** The pieces of the key hold none of the separators they are cut at. */
  lemma FixturePieces()
    ensures '/' !in FixtureCategory
    ensures '-' !in FixtureSku && '.' !in FixtureSku
  {
  }

  /** "kilo" is already in lower case, so the fixture's "kilo" span reaches the
      kilogram branch unchanged. */
  lemma LowerKilo()
    ensures Lower("kilo") == "kilo"
  {
  }

  /** The stored test page, as the texts the parser reads from it; the
      elements it does not read are left out. */
  const FixturePage := Page(
    Some("Amorelli Pistache Crème 190 g"),
    None,
    None,
    None,
    Some(["26,26", "/", "kilo"]),
    Some(["Pistache crème"]),
    None)

  /** The stored test page and key give the row the test expects. */
  lemma FixtureRow(page: Page, key: string)
    requires page == FixturePage && key == FixtureKey
    ensures Parsed(page, key) ==
              Success(ProductRow(1, FixtureSku, Some("Amorelli Pistache Crème 190 g"), Some(FixtureCategory),
                                 Some("weight"), Some(1000.0), Some("1 kilogram"), Some("Pistache crème"), None))
  {
    FixturePieces();
    SkuOfScraperKey(FixtureCategory, FixtureLink, FixtureSku);
    CategoryOfScraperKey(FixtureCategory, FixtureLink + "-" + FixtureSku);
    LowerKilo();
    KiloBeforeGram("", "");
    assert "" + "kilo" + "" == "kilo";
    assert NonEmptyTexts(["Pistache crème"]) == ["Pistache crème"];
  }
}
