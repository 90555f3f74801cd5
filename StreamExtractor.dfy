/** `JumboDataExtractor.extract_product_data`: the product, price and
    nutrition dictionaries built from one product page and its storage key. */
module StreamExtractor {
  import opened Wrappers
  import opened Text
  import opened Regex
  import opened Models
  import opened Document
  import opened UnitNormalizer
  import opened StorageKey

  /** The `product` dictionary. */
  datatype ProductDict = ProductDict(
    storeId: int,
    externalSku: Option<string>,
    productId: Option<int>,
    name: Option<string>,
    category: Option<string>,
    unitType: Option<string>,
    unitValue: Option<real>,
    unitDescription: Option<string>,
    description: Option<string>)

  /** The `price` dictionary. */
  datatype PriceDict = PriceDict(
    productId: Option<int>,
    scrapedAt: Option<Timestamp>,
    regularPrice: Option<real>,
    promoPrice: Option<real>,
    onPromotion: bool,
    promoType: Option<string>,
    promoText: Option<string>,
    pricePerKg: Option<real>)

  /** The `nutrition` dictionary; the extractor fills none of its entries. */
  datatype NutritionDict = NutritionDict(
    nutritionId: Option<int>,
    productId: Option<int>,
    scrapedAt: Option<Timestamp>,
    kcalPer100g: Option<real>,
    proteinPer100g: Option<real>,
    fatPer100g: Option<real>,
    carbsPer100g: Option<real>,
    sodiumPer100g: Option<real>,
    fiberPer100g: Option<real>,
    sugarPer100g: Option<real>,
    rawJson: Option<string>)

  /** `{'product': ..., 'price': ..., 'nutrition': ...}`. */
  datatype Extraction = Extraction(product: ProductDict, price: PriceDict, nutrition: NutritionDict)

  const EmptyNutrition := NutritionDict(None, None, None, None, None, None, None, None, None, None, None)

  /** Python truthiness of an optional string: present and not empty. */
  predicate Truthy(s: Option<string>) {
    s.Some? && s.value != ""
  }

  // ---------------------------------------------------------------- the pieces

  /** The category: the second `/`-field of a key that has one. */
  function CategoryOf(s3Key: Option<string>): (category: Option<string>)
    ensures category.Some? ==> '/' !in category.value
  {
    if Truthy(s3Key) && |Split(s3Key.value, '/')| >= 2 then
      SplitPieces(s3Key.value, '/');
      assert Split(s3Key.value, '/')[1] in Split(s3Key.value, '/');
      Some(Split(s3Key.value, '/')[1])
    else None
  }

  /** `re.search(r'€\s*(\d+[,\.]\d+)', text.replace(',', '.'))`, read with `float`. */
  function PriceOf(text: string): (price: Option<real>)
    ensures price.Some? ==> exists d, f :: IsNumber(d, f, '.') && f != "" && price.value == NumberValue(d, f)
  {
    var found := Search(Replace(text, ",", "."), Euro);
    if found.Some? then
      FoundAmount(text);
      Some(FloatText(found.value.group.value))
    else None
  }

  /** The amount found after replacing commas is digits, a dot and digits,
      and `float` reads it as that decimal. */
  lemma FoundAmount(text: string)
    requires Search(Replace(text, ",", "."), Euro).Some?
    ensures exists d, f :: IsNumber(d, f, '.') && f != "" &&
              FloatText(Search(Replace(text, ",", "."), Euro).value.group.value) == NumberValue(d, f)
  {
    var t := Replace(text, ",", ".");
    EuroGroupIsNumber(t);
    var d, f, sep :| IsNumber(d, f, sep) && f != "" && sep in t && Search(t, Euro).value.group == Some(NumberText(d, f, sep));
    ReplaceRemoves(text, ',', '.');
    assert sep == '.';
    assert '.' !in d by {
      forall c | c in d ensures c != '.' { assert IsDigit(c); }
    }
    assert '.' !in f by {
      forall c | c in f ensures c != '.' { assert IsDigit(c); }
    }
    FloatOfDecimal(d, f);
    assert NumberText(d, f, '.') == d + "." + f;
  }

  /** The regular price: read from the screen-reader text when the price
      container and its screen-reader div are both there. */
  function RegularPrice(page: Page): Option<real> {
    if page.priceScreenreader.Some? && page.priceScreenreader.value.Some?
    then PriceOf(page.priceScreenreader.value.value)
    else None
  }

  /** The price of one gram of a product of `grams` grams. */
  function PerGram(price: real, grams: real): real
    requires grams != 0.0
  {
    price / grams
  }

  /** A price per kilogram, when set, is 1000 times the price over the grams. */
  predicate PerKgOf(perKg: Option<real>, grams: Option<real>, price: Option<real>) {
    perKg.Some? ==> price.Some? && grams.Some? && perKg.value * grams.value == price.value * 1000.0
  }

  /** `regular_price / unit_value * 1000` for a weight with a non-zero value
      and a non-zero price; None otherwise. */
  function PricePerKg(unit: Unit, price: Option<real>): (perKg: Option<real>)
    ensures PerKgOf(perKg, Some(unit.unitValue), price)
  {
    if unit.unitType == "weight" && unit.unitValue != 0.0 && price.Some? && price.value != 0.0
    then
      PerThousand(PerGram(price.value, unit.unitValue) * 1000.0, unit.unitValue, price.value);
      Some(PerGram(price.value, unit.unitValue) * 1000.0)
    else None
  }

  /** The SKU of a product link: the last `-`-field before any `?`, when there are at least two. */
  function UrlSku(url: string): (sku: Option<string>)
    ensures sku.Some? ==> '-' !in sku.value
    ensures sku.None? <==> '-' !in Split(url, '?')[0]
  {
    var segments := Split(Split(url, '?')[0], '-');
    SplitOne(Split(url, '?')[0], '-');
    SplitPieces(Split(url, '?')[0], '-');
    if |segments| > 1 then
      assert Last(segments) in segments;
      Some(Last(segments))
    else None
  }

  /** The fallback SKU: `"jumbo_"` and the key's file name without `.html`. */
  function KeySku(s3Key: Option<string>): (sku: Option<string>)
    ensures sku.Some? <==> Truthy(s3Key)
    ensures sku.Some? ==> "jumbo_" <= sku.value
  {
    if Truthy(s3Key) then Some("jumbo_" + Replace(Last(Split(s3Key.value, '/')), ".html", "")) else None
  }

  /** The SKU from the canonical link when that gives one, else the fallback. */
  function ExternalSku(canonicalHref: Option<string>, s3Key: Option<string>): Option<string> {
    if Truthy(canonicalHref) && UrlSku(canonicalHref.value).Some? then UrlSku(canonicalHref.value)
    else KeySku(s3Key)
  }

  /** The unit of the page: the subtitle's, or one piece when the subtitle is missing. */
  function PageUnit(page: Page): Result<Unit, UnitError> {
    if page.subtitle.Some? then ParseUnitText(Some(page.subtitle.value)) else Success(PerPieceUnit)
  }

  /** What `extract_product_data` returns, or the error it raises. */
  function Extracted(page: Page, s3Key: Option<string>): (r: Result<Extraction, UnitError>)
    ensures r.Success? ==> r.value.product.unitType.Some? && DocumentedUnitType(r.value.product.unitType.value)
    ensures r.Success? && r.value.product.category.Some? ==> '/' !in r.value.product.category.value
    ensures r.Success? ==> PerKgOf(r.value.price.pricePerKg, r.value.product.unitValue, r.value.price.regularPrice)
  {
    match PageUnit(page)
    case Failure(e) => Failure(e)
    case Success(u) =>
      var price := RegularPrice(page);
      Success(Extraction(
        ProductDict(1, ExternalSku(page.canonicalHref, s3Key), None, page.title, CategoryOf(s3Key),
                    Some(u.unitType), Some(u.unitValue), Some(u.description), None),
        PriceDict(None, None, price, None, false, None, None, PricePerKg(u, price)),
        EmptyNutrition))
  }

  // ---------------------------------------------------------------- the extractor

  /** The category step: the second `/`-field of the key, when the key is
      not empty and has one. */
  method ReadCategory(s3Key: Option<string>) returns (category: Option<string>)
    ensures category == CategoryOf(s3Key)
  {
    category := None;
    if Truthy(s3Key) {
      var pathParts := Split(s3Key.value, '/');
      if |pathParts| >= 2 {
        category := Some(pathParts[1]);
      }
    }
  }

  /** The regular price step: the euro amount of the screen-reader text. */
  method ReadRegularPrice(page: Page) returns (regular: Option<real>)
    ensures regular == RegularPrice(page)
  {
    regular := None;
    if page.priceScreenreader.Some? {
      if page.priceScreenreader.value.Some? {
        var priceText := page.priceScreenreader.value.value;
        var priceMatch := Search(Replace(priceText, ",", "."), Euro);
        if priceMatch.Some? {
          regular := Some(FloatText(priceMatch.value.group.value));
        }
      }
    }
  }

  /** The price per kilogram step: set only for a weight with a non-zero
      value and a non-zero regular price. */
  method WithPricePerKg(price: PriceDict, unit: Unit) returns (priced: PriceDict)
    ensures priced == price.(pricePerKg := if PricePerKg(unit, price.regularPrice).Some?
                                            then PricePerKg(unit, price.regularPrice) else price.pricePerKg)
  {
    priced := price;
    if unit.unitType == "weight" && unit.unitValue != 0.0 && price.regularPrice.Some? && price.regularPrice.value != 0.0 {
      var pricePerGram := PerGram(price.regularPrice.value, unit.unitValue);
      priced := price.(pricePerKg := Some(pricePerGram * 1000.0));
    }
  }

  /** The SKU step: from the canonical link, else from the storage key. */
  method ReadExternalSku(canonicalHref: Option<string>, s3Key: Option<string>) returns (sku: Option<string>)
    ensures sku == ExternalSku(canonicalHref, s3Key)
  {
    sku := None;
    var productUrl: Option<string> := None;
    if Truthy(canonicalHref) {
      productUrl := canonicalHref;
    }
    if productUrl.Some? {
      var urlParts := Split(productUrl.value, '?')[0];
      var urlSegments := Split(urlParts, '-');
      if |urlSegments| > 1 {
        sku := Some(Last(urlSegments));
      } else if Truthy(s3Key) {
        var filename := Replace(Last(Split(s3Key.value, '/')), ".html", "");
        sku := Some("jumbo_" + filename);
      }
    } else if Truthy(s3Key) {
      var filename := Replace(Last(Split(s3Key.value, '/')), ".html", "");
      sku := Some("jumbo_" + filename);
    }
  }

  /** The dictionaries are created with their defaults and then filled in
      one step at a time, as the page allows; a subtitle the unit parser
      rejects ends the extraction with the parser's error. */
  method ExtractProductData(page: Page, s3Key: Option<string>) returns (r: Result<Extraction, UnitError>)
    ensures r == Extracted(page, s3Key)
  {
    var product := ProductDict(1, None, None, None, None, None, None, None, None);
    var price := PriceDict(None, None, None, None, false, None, None, None);
    var nutrition := EmptyNutrition;

    var category := ReadCategory(s3Key);
    product := product.(category := category);
    if page.title.Some? {
      product := product.(name := Some(page.title.value));
    }
    var regular := ReadRegularPrice(page);
    price := price.(regularPrice := regular);

    if page.subtitle.Some? {
      var parsed := ParseUnitText(Some(page.subtitle.value));
      if parsed.Failure? {
        return Failure(parsed.error);
      }
      var unit := parsed.value;
      product := product.(unitType := Some(unit.unitType), unitValue := Some(unit.unitValue),
                          unitDescription := Some(unit.description));
      price := WithPricePerKg(price, unit);
    } else {
      product := product.(unitType := Some("piece"), unitValue := Some(1.0), unitDescription := Some("per stuk"));
      assert PricePerKg(PerPieceUnit, price.regularPrice).None?;
    }

    var sku := ReadExternalSku(page.canonicalHref, s3Key);
    product := product.(externalSku := sku, storeId := 1);
    return Success(Extraction(product, price, nutrition));
  }

  // ---------------------------------------------------------------- what it promises

  /** Whatever the page, a result is store 1, not on promotion, without
      promotion, identifiers or timestamps, and with an empty nutrition entry. */
  lemma ExtractedConstants(page: Page, s3Key: Option<string>)
    ensures var r := Extracted(page, s3Key);
      r.Success? ==>
        && r.value.product.storeId == 1 && r.value.product.productId.None? && r.value.product.description.None?
        && !r.value.price.onPromotion && r.value.price.promoPrice.None?
        && r.value.price.promoType.None? && r.value.price.promoText.None?
        && r.value.price.productId.None? && r.value.price.scrapedAt.None?
        && r.value.nutrition == EmptyNutrition
  {
  }

  /** The extraction raises exactly when the subtitle is there and its unit
      text raises: it is not empty, no weight, volume or count is found in
      it, and `per\s*stuk` is. */
  lemma ExtractedFails(page: Page, s3Key: Option<string>)
    ensures Extracted(page, s3Key).Failure? <==>
              page.subtitle.Some? && page.subtitle.value != "" &&
              var s := Lowered(page.subtitle.value);
              Search(s, Quantity("kg", true)).None? && Search(s, Quantity("g", true)).None? &&
              Search(s, Quantity("l", true)).None? && Search(s, Quantity("ml", true)).None? &&
              Search(s, Quantity("stuk", false)).None? && Search(s, Words("per", "stuk")).Some?
  {
    if page.subtitle.Some? {
      ParseRaises(page.subtitle.value);
    }
  }

  /** Without a subtitle the product is one piece, "per stuk", and has no price per kilogram. */
  lemma NoSubtitle(page: Page, s3Key: Option<string>)
    requires page.subtitle.None?
    ensures Extracted(page, s3Key).Success?
    ensures var p := Extracted(page, s3Key).value;
      p.product.unitType == Some("piece") && p.product.unitValue == Some(1.0) &&
      p.product.unitDescription == Some("per stuk") && p.price.pricePerKg.None?
  {
  }

  /** The unit columns are the subtitle's unit, and its description is the subtitle itself. */
  lemma SubtitleUnit(page: Page, s3Key: Option<string>)
    requires page.subtitle.Some? && page.subtitle.value != ""
    requires Extracted(page, s3Key).Success?
    ensures var u := ParseUnitText(Some(page.subtitle.value));
      var p := Extracted(page, s3Key).value.product;
      u.Success? && p.unitType == Some(u.value.unitType) && p.unitValue == Some(u.value.unitValue) &&
      p.unitDescription == page.subtitle && DocumentedUnitType(p.unitType.value)
  {
  }

  /** The price per kilogram is set exactly for a weight with a non-zero
      value and a non-zero price, and it is the one the row's own unit and
      price give. */
  lemma PricePerKgSet(page: Page, s3Key: Option<string>)
    requires Extracted(page, s3Key).Success?
    ensures var x := Extracted(page, s3Key).value;
      var value := x.product.unitValue.value;
      var price := x.price.regularPrice;
      && (x.price.pricePerKg.Some? <==>
            x.product.unitType == Some("weight") && value != 0.0 && price.Some? && price.value != 0.0)
      && x.price.pricePerKg == PricePerKg(Unit(x.product.unitType.value, value, x.product.unitDescription.value), price)
  {
    var x := Extracted(page, s3Key).value;
    var u := PageUnit(page).value;
    assert x.price.pricePerKg == PricePerKg(u, RegularPrice(page));
    assert Unit(x.product.unitType.value, x.product.unitValue.value, x.product.unitDescription.value) == u;
    assert x.price.regularPrice == RegularPrice(page);
    PricePerKgOf(u, RegularPrice(page));
  }

  /** `PricePerKg` is set exactly under its condition. */
  lemma PricePerKgOf(unit: Unit, price: Option<real>)
    ensures PricePerKg(unit, price).Some? <==>
              unit.unitType == "weight" && unit.unitValue != 0.0 && price.Some? && price.value != 0.0
  {
  }

  /** Dividing by a non-zero value and multiplying by it again cancel out. */
  lemma PerThousand(perKg: real, v: real, p: real)
    requires v != 0.0 && perKg == p / v * 1000.0
    ensures perKg * v == p * 1000.0
  {
    assert p / v * v == p;
  }

  /** The regular price is set exactly when the price text holds an amount. */
  lemma RegularPriceFound(page: Page, s3Key: Option<string>)
    requires Extracted(page, s3Key).Success?
    ensures var price := Extracted(page, s3Key).value.price.regularPrice;
      price.Some? <==>
        page.priceScreenreader.Some? && page.priceScreenreader.value.Some? &&
        Search(Replace(page.priceScreenreader.value.value, ",", "."), Euro).Some?
  {
  }

  /** A price text with a euro sign, spaces and an amount with either
      separator, after text without a euro sign and before text that does
      not continue the fraction, reads as the amount. */
  lemma PriceOfAmount(x: string, w: string, d: string, sep: char, f: string, tail: string)
    requires '€' !in x && forall c :: c in w ==> IsSpace(c)
    requires d != "" && AllDigits(d) && IsSeparator(sep) && f != "" && AllDigits(f)
    requires tail == "" || !IsDigit(tail[0])
    ensures PriceOf(x + ("€" + w + d + [sep] + f) + tail) == Some(NumberValue(d, f))
  {
    var amount := "€" + w + d + [sep] + f;
    var text := x + amount + tail;
    var rx, rt := Replace(x, ",", "."), Replace(tail, ",", ".");
    ReplaceCharAppend(x + amount, tail, ',', '.');
    ReplaceCharAppend(x, amount, ',', '.');
    ReplaceAmount(w, d, sep, f);
    assert Replace(text, ",", ".") == rx + ("€" + w + d + ['.'] + f) + rt;
    ReplaceKeepsOut(x, ',', '.', '€');
    ReplaceChar(tail, ',', '.');
    EuroAmount(rx, w, d, '.', f, rt);
    assert '.' !in d by {
      forall c | c in d ensures c != '.' { assert IsDigit(c); }
    }
    assert '.' !in f by {
      forall c | c in f ensures c != '.' { assert IsDigit(c); }
    }
    FloatOfDecimal(d, f);
    assert d + ['.'] + f == d + "." + f;
  }

  /** Replacing commas in an amount only turns its separator into a dot. */
  lemma ReplaceAmount(w: string, d: string, sep: char, f: string)
    requires (forall c :: c in w ==> IsSpace(c)) && AllDigits(d) && IsSeparator(sep) && AllDigits(f)
    ensures Replace("€" + w + d + [sep] + f, ",", ".") == "€" + w + d + ['.'] + f
  {
    assert ',' !in w by {
      forall c | c in w ensures c != ',' { assert IsSpace(c); }
    }
    assert ',' !in d by {
      forall c | c in d ensures c != ',' { assert IsDigit(c); }
    }
    assert ',' !in f by {
      forall c | c in f ensures c != ',' { assert IsDigit(c); }
    }
    ReplaceCharAppend("€" + w + d + [sep], f, ',', '.');
    ReplaceCharAppend("€" + w + d, [sep], ',', '.');
    ReplaceCharAppend("€" + w, d, ',', '.');
    ReplaceCharAppend("€", w, ',', '.');
    ReplaceAbsent("€", ',', '.');
    ReplaceAbsent(w, ',', '.');
    ReplaceAbsent(d, ',', '.');
    ReplaceAbsent(f, ',', '.');
    ReplaceChar([sep], ',', '.');
    assert Replace([sep], ",", ".") == ['.'];
  }

  /** A price text without a separator holds no amount: "€2" reads as no price. */
  lemma PriceNeedsSeparator(text: string)
    requires forall c :: c in text ==> !IsSeparator(c)
    ensures PriceOf(text).None?
  {
    assert ',' !in text;
    ReplaceAbsent(text, ',', '.');
    EuroNeedsSeparator(text);
    forall k | 0 <= k < |text| ensures !IsSeparator(text[k]) {
      assert text[k] in text;
    }
  }

  /** The category is the field after the prefix of the scraper's key. */
  lemma CategoryOfKey(category: string, page: string)
    requires '/' !in category && '/' !in page
    ensures CategoryOf(Some(Key(category, page))) == Some(category)
  {
    KeyFields(category, page);
  }

  /** With a product link whose last path segment ends in `-sku` the SKU is `sku`,
      whatever query follows. */
  lemma SkuFromLink(page: Page, s3Key: Option<string>, base: string, sku: string, query: string)
    requires '?' !in base && '?' !in sku && '-' !in sku
    requires query == "" || query[0] == '?'
    requires page.canonicalHref == Some(base + "-" + sku + query)
    requires Extracted(page, s3Key).Success?
    ensures Extracted(page, s3Key).value.product.externalSku == Some(sku)
  {
    var url := base + "-" + sku;
    assert '?' !in url;
    if query == "" {
      assert url + query == url;
      SplitNoSeparator(url, '?');
    } else {
      assert url + query == url + ['?'] + query[1..];
      SplitAtFirst(url, query[1..], '?');
    }
    assert Split(url + query, '?')[0] == url;
    assert url == base + ("-" + sku);
    assert '-' in "-" + sku;
    LastSplitAppend(base, "-" + sku, '-');
    LastSplitTail(sku, '-');
    SplitOne(url, '-');
  }

  /** Without a product link the SKU is `jumbo_` and the file name of the scraper's key. */
  lemma SkuFromKey(page: Page, category: string, file: string)
    requires '/' !in category && '/' !in file && '.' !in file
    requires page.canonicalHref.None?
    requires Extracted(page, Some(Key(category, file))).Success?
    ensures Extracted(page, Some(Key(category, file))).value.product.externalSku == Some("jumbo_" + file)
  {
    KeyFields(category, file);
    ReplaceTrailing(file, ".html");
  }

  /** A product link without a dash gives no SKU of its own, so the SKU
      falls back to `jumbo_` and the file name of the scraper's key. */
  lemma SkuFromKeyPastLink(page: Page, category: string, file: string, url: string)
    requires '/' !in category && '/' !in file && '.' !in file
    requires page.canonicalHref == Some(url) && '-' !in url
    requires Extracted(page, Some(Key(category, file))).Success?
    ensures Extracted(page, Some(Key(category, file))).value.product.externalSku == Some("jumbo_" + file)
  {
    var path := Split(url, '?')[0];
    SplitPieces(url, '?');
    assert '-' !in path by {
      forall k | 0 <= k < |path| ensures path[k] != '-' {
        assert path[k] == url[k];
      }
    }
    KeyFields(category, file);
    ReplaceTrailing(file, ".html");
  }

  /** Without a product link and without a key there is no SKU. */
  lemma NoSku(page: Page)
    requires !Truthy(page.canonicalHref) && Extracted(page, None).Success?
    ensures Extracted(page, None).value.product.externalSku.None?
  {
  }
}
