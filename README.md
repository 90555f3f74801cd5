# Jumbo product-page extraction, modelled in Dafny

This project models the code that turns the texts of an archived Jumbo product
page, plus the storage key it was filed under, into typed product, price and
nutrition rows. The repository has two variants of that code. They disagree in
places, so each is modelled as written. The project also models two small pure
helpers from the Angular frontend.

- **Variant A** is `JumboDataExtractor.extract_product_data` and
  `_parse_unit_text`. The extractor builds `product`, `price` and `nutrition`
  dictionaries and fills them in one step at a time.
  - `ExtractProductData` in `StreamExtractor.dfy` is the imperative method. It
    is proved to return exactly `Extracted`, the function that states the
    result.
  - The unit normaliser (`UnitNormalizer.dfy`) is an ordered, first-match
    classifier.
  - It uses a model of Python's `re.search` (`Regex.dfy`) for the few
    patterns involved. The patterns are modelled without their optional
    tails (`g(?:ram)?`, `l(?:iter)?`, `stuks?`), which end their patterns and
    so change neither where a match starts nor its group. Without the tails,
    each pattern has at most one match at a given start, and the search
    returns the match at the leftmost start.
- **Variant B** is `JumboHTMLParser.parse_html` (`HtmlParser.dfy`).
  - It reads the SKU and the category from the key alone.
  - It classifies the unit with a keyword if-chain over the last
    price-per-unit span.
  - It joins the description texts in a loop, which `CollectDescription`
    models.
  - It reads the country of origin through a nested lookup with a length cap.
  - It builds no price or nutrition row.
  - The end-to-end test of `html_parser_test.py` is stated as the lemma
    `FixtureRow`.
- **Row shapes** of `shared/models.py` are datatypes with `Option` columns
  (`Models.dfy`). `StorageKey.dfy` holds the key the scraper builds, so the
  round trip between that key and what both parsers read back from it can be
  stated.
- **`FormatEquipmentPipe.transform`** turns a camel-case key into a label
  (`FormatEquipment.dfy`).
- **`FoodPreferences.chunkArray`** cuts a list into fixed-size chunks
  (`FoodPreferences.dfy`).

The page is given as the texts the parsers pull out of the HTML (`Document.Page`):
- a missing element is `None`;
- a nested lookup is a nested `Option`.

Numbers are exact reals and integers. Letter case and digits are ASCII.

Where the code does something other than its own comments and docstrings
suggest, the model follows the code:
- The docstring of `_parse_unit_text`
  (`data_processing/Jumbo/s3_stream_processor_simple.py:309-315`) lists
  "per stuk" as an input and promises a tuple. But line 356 calls
  `match.group(1)` on the `per\s*stuk` pattern, which has no group, so a text
  such as "per stuk" raises. The model returns `Failure(NoSuchGroup)`, and
  `ExtractProductData` passes the failure on.
- `parse_html` binds `title` only when the title tag is found
  (`data_processing/ETL/Jumbo/html_parser.py:65-70`). Without the tag, line
  149 reads the unbound name and raises. The model returns
  `Failure(TitleUnbound)`.
- The comment on `external_sku` (`s3_stream_processor_simple.py:150`) says
  it will be extracted from the link or generated. Variant A leaves it
  `None` when there is neither a usable link nor a key.
- `price_per_kg` tests the unit value and the price for truth
  (`s3_stream_processor_simple.py:250`), so a value of zero also leaves it
  unset.

## Model

| member | source | states |
|---|---|---|
| Models.NewProductRow | shared/models.py:7-17 | only the store and the SKU are required; every other column of a new product row is unset |
| Models.NewPriceRow | shared/models.py:23-33 | a new price row is not on promotion, has no prices or promotion texts, and carries the class-definition instant |
| Models.NewNutritionRow | shared/models.py:38-48 | a new nutrition row has no nutrients and no raw blob, and carries the class-definition instant |
| Models.DefaultScrapedAtShared | shared/models.py:27 | price rows built without `scraped_at` share one instant, and so do nutrition rows (line 40), whenever they are built |
| StorageKey.Key | data_processing/scraping/Jumbo/scraper.py:41-42 | the key is the prefix, the category and the file name joined by slashes, and its length is theirs plus the separators and `.html` |
| StorageKey.KeyFields | data_processing/scraping/Jumbo/scraper.py:11-42 | a key split at `/` gives back the prefix, the category and the file name, when neither holds a slash |
| StorageKey.KeyLastDash | data_processing/scraping/Jumbo/scraper.py:41-42 | the text after the last dash of a key for a page ending in `-sku` is `sku.html` |
| Regex.SearchFromLeftmost | data_processing/Jumbo/s3_stream_processor_simple.py:342 | the search returns the leftmost match, and finds nothing exactly when no position matches |
| Regex.SearchFinds | data_processing/Jumbo/s3_stream_processor_simple.py:342 | a match with none before it is the one the search returns |
| Regex.QuantityUnitFollows | data_processing/Jumbo/s3_stream_processor_simple.py:324-336 | a quantity match has its unit right after a digit or a space |
| Regex.QuantityAbsent | data_processing/Jumbo/s3_stream_processor_simple.py:324-336 | a unit that never follows a digit or a space is not found |
| Regex.QuantityNeedsDigit | data_processing/Jumbo/s3_stream_processor_simple.py:324-336 | a quantity pattern is found only in text that holds a digit |
| Regex.QuantityGroupAt | data_processing/Jumbo/s3_stream_processor_simple.py:324-336 | group 1 of a quantity match is a number: digits, then a separator and digits only where the pattern allows a fraction |
| Regex.QuantityGroupIsNumber | data_processing/Jumbo/s3_stream_processor_simple.py:342-344 | whatever a quantity search finds, its group 1 is such a number |
| Regex.EuroGroupIsNumber | data_processing/Jumbo/s3_stream_processor_simple.py:223 | whatever the euro search finds, its group 1 is digits, a separator of the text and digits |
| Regex.QuantityAtStart | data_processing/Jumbo/s3_stream_processor_simple.py:324-336 | a number, spaces and the unit at the start of the text are matched at 0, with group 1 the number |
| Regex.EuroAmount | data_processing/Jumbo/s3_stream_processor_simple.py:223 | the euro pattern matches at the first euro sign, and group 1 is the amount up to where the fraction's digits stop |
| Regex.EuroFound | data_processing/Jumbo/s3_stream_processor_simple.py:223 | the first euro sign followed by spaces, digits, a separator and digits gives the digits to the end of the fraction |
| Regex.EuroNeedsSeparator | data_processing/Jumbo/s3_stream_processor_simple.py:223 | an amount is found only in text that holds a separator |
| Text.FloatOfNumber | data_processing/Jumbo/s3_stream_processor_simple.py:324-331 | `float(x.replace(',', '.'))` reads a number with either separator as its decimal value |
| UnitNormalizer.ParseUnitText | data_processing/Jumbo/s3_stream_processor_simple.py:304-359 | a success has a documented unit type and describes a non-empty text by the text itself; a failure needs a non-empty text |
| UnitNormalizer.Classify | data_processing/Jumbo/s3_stream_processor_simple.py:340-359 | the weight, volume and piece groups are tried in order, then the package fallback; every success is described by the original text |
| UnitNormalizer.FirstRule | data_processing/Jumbo/s3_stream_processor_simple.py:341-344 | the first rule whose pattern is found decides, and its result is described by the original text |
| UnitNormalizer.FirstRuleNone | data_processing/Jumbo/s3_stream_processor_simple.py:341-344 | no rule applies exactly when none of the patterns is found |
| UnitNormalizer.FirstRuleFailure | data_processing/Jumbo/s3_stream_processor_simple.py:353-356 | a rule application fails only on a match without a group |
| UnitNormalizer.ClassifyRaises | data_processing/Jumbo/s3_stream_processor_simple.py:337 | classification raises exactly when no weight, volume or count is found and `per\s*stuk` is |
| UnitNormalizer.FirstRuleHead | data_processing/Jumbo/s3_stream_processor_simple.py:342-344 | the first rule whose pattern is found is applied to its group 1 |
| UnitNormalizer.FirstRuleSkip | data_processing/Jumbo/s3_stream_processor_simple.py:341-343 | a rule whose pattern is not found passes on to the next |
| UnitNormalizer.LoweredStart | data_processing/Jumbo/s3_stream_processor_simple.py:320 | the lowered, stripped text keeps a leading number, its spaces and the unit, in lower case |
| UnitNormalizer.NoDigitsNoQuantity | data_processing/Jumbo/s3_stream_processor_simple.py:324-336 | without digits no quantity pattern is found |
| UnitNormalizer.KilogramWins | data_processing/Jumbo/s3_stream_processor_simple.py:324 | once the kilogram pattern is found, the result is that many kilograms in grams, whatever else the text holds |
| UnitNormalizer.GramNext | data_processing/Jumbo/s3_stream_processor_simple.py:325 | without a kilogram match, a gram match gives that many grams |
| UnitNormalizer.NoWeight | data_processing/Jumbo/s3_stream_processor_simple.py:341-344 | without a weight match the weight group gives nothing |
| UnitNormalizer.NoVolume | data_processing/Jumbo/s3_stream_processor_simple.py:347-350 | without a volume match the volume group gives nothing |
| UnitNormalizer.LiterNext | data_processing/Jumbo/s3_stream_processor_simple.py:330 | without a weight match, a litre match gives 1000 times that many millilitres |
| UnitNormalizer.MillilitreNext | data_processing/Jumbo/s3_stream_processor_simple.py:331 | without a weight or litre match, a millilitre match gives that many millilitres |
| UnitNormalizer.CountNext | data_processing/Jumbo/s3_stream_processor_simple.py:336 | without a weight or volume match, a count of pieces gives that count |
| UnitNormalizer.NoQuantityClassify | data_processing/Jumbo/s3_stream_processor_simple.py:337-359 | with no quantity found, `per\s*stuk` raises and anything else is a package of one |
| UnitNormalizer.QuantityInDescriptor | data_processing/Jumbo/s3_stream_processor_simple.py:320-336 | a descriptor that starts with a number, spaces and a unit is matched at its start by that unit's pattern |
| UnitNormalizer.ParseNonEmpty | data_processing/Jumbo/s3_stream_processor_simple.py:317-320 | a non-empty text is classified by its lowered, stripped form |
| UnitNormalizer.ParseRaises | data_processing/Jumbo/s3_stream_processor_simple.py:337 | `_parse_unit_text` raises exactly on a non-empty text in which no weight, volume or count is found and `per\s*stuk` is |
| UnitNormalizer.KilogramFound | data_processing/Jumbo/s3_stream_processor_simple.py:317-344 | when the kilogram pattern is found anywhere in a non-empty text, its group 1 is a number and the text weighs that number times 1000 grams |
| UnitNormalizer.GramFound | data_processing/Jumbo/s3_stream_processor_simple.py:317-344 | without a kilogram match, a gram match anywhere gives a number, and the text weighs that many grams |
| UnitNormalizer.LiterFound | data_processing/Jumbo/s3_stream_processor_simple.py:317-350 | without a weight match, a litre match anywhere gives a number, and the text holds that many litres, stored as 1000 times as many millilitres |
| UnitNormalizer.MillilitreFound | data_processing/Jumbo/s3_stream_processor_simple.py:317-350 | without a weight or litre match, a millilitre match anywhere gives a number, and the text holds that many millilitres |
| UnitNormalizer.CountFound | data_processing/Jumbo/s3_stream_processor_simple.py:317-356 | without a weight or volume match, a piece match anywhere gives a run of digits, and the text is that many pieces |
| UnitNormalizer.KilogramBeforeGramInText | data_processing/Jumbo/s3_stream_processor_simple.py:317-344 | "250 g, 1 kg" weighs 1000 grams: the kilogram pattern is tried first, although the grams come first in the text |
| UnitNormalizer.EmptyUnitText | data_processing/Jumbo/s3_stream_processor_simple.py:317-318 | an empty or missing text is one piece, "per stuk" |
| UnitNormalizer.KilogramDescriptor | data_processing/Jumbo/s3_stream_processor_simple.py:324 | "1,5 kg" and its kin weigh the number times 1000 grams, with a comma read as the decimal point |
| UnitNormalizer.GramDescriptor | data_processing/Jumbo/s3_stream_processor_simple.py:325 | without a kilogram match, "500 gram" and its kin weigh that many grams |
| UnitNormalizer.LiterDescriptor | data_processing/Jumbo/s3_stream_processor_simple.py:330 | without a weight match, "1,5 l" and its kin hold the number times 1000 millilitres |
| UnitNormalizer.MillilitreDescriptor | data_processing/Jumbo/s3_stream_processor_simple.py:331 | without a weight or litre match, "500 ml" holds that many millilitres |
| UnitNormalizer.CountDescriptor | data_processing/Jumbo/s3_stream_processor_simple.py:336 | without a weight or volume match, "6 stuks" is six pieces |
| UnitNormalizer.NoDigitsDescriptor | data_processing/Jumbo/s3_stream_processor_simple.py:337-359 | text without digits raises when `per\s*stuk` is found in it, and is otherwise a package of one described by the text |
| StreamExtractor.CategoryOf | data_processing/Jumbo/s3_stream_processor_simple.py:189-195 | a category, when there is one, is a whole `/`-field of the key: it holds no slash |
| StreamExtractor.PriceOf | data_processing/Jumbo/s3_stream_processor_simple.py:223-226 | a price, when one is found, is the value of digits, a dot and digits |
| StreamExtractor.FoundAmount | data_processing/Jumbo/s3_stream_processor_simple.py:223-225 | the amount found after replacing commas has a dot as its separator, and `float` reads it as that decimal |
| StreamExtractor.PricePerKg | data_processing/Jumbo/s3_stream_processor_simple.py:250-253 | a price per kilogram, when set, times the grams is 1000 times the price |
| StreamExtractor.UrlSku | data_processing/Jumbo/s3_stream_processor_simple.py:275-278 | a link gives a SKU exactly when its part before any `?` holds a dash, and that SKU holds no dash |
| StreamExtractor.KeySku | data_processing/Jumbo/s3_stream_processor_simple.py:284-292 | a fallback SKU exists exactly for a non-empty key, and starts with `jumbo_` |
| StreamExtractor.Extracted | data_processing/Jumbo/s3_stream_processor_simple.py:129-302 | a result has a documented unit type, a category without a slash, and a price per kilogram that times the grams is 1000 times the regular price |
| StreamExtractor.ReadCategory | data_processing/Jumbo/s3_stream_processor_simple.py:189-195 | the category step returns the second `/`-field of a non-empty key that has one |
| StreamExtractor.ReadRegularPrice | data_processing/Jumbo/s3_stream_processor_simple.py:215-229 | the price step reads the euro amount of the screen-reader text, when the container and the div are both there |
| StreamExtractor.WithPricePerKg | data_processing/Jumbo/s3_stream_processor_simple.py:250-253 | the price per kilogram is set only for a weight with a non-zero value and price, and nothing else changes |
| StreamExtractor.ReadExternalSku | data_processing/Jumbo/s3_stream_processor_simple.py:265-292 | the SKU step takes the link's SKU, else the key's file name after `jumbo_`, else nothing |
| StreamExtractor.ExtractProductData | data_processing/Jumbo/s3_stream_processor_simple.py:129-302 | the dictionaries built step by step are exactly `Extracted`, or the unit parser's error |
| StreamExtractor.ExtractedConstants | data_processing/Jumbo/s3_stream_processor_simple.py:148-185 | every result is store 1 and not on promotion, with no identifiers, timestamps or promotion, and an all-None nutrition entry (line 295) |
| StreamExtractor.ExtractedFails | data_processing/Jumbo/s3_stream_processor_simple.py:238-244 | extraction raises exactly when the subtitle is there and its unit text raises |
| StreamExtractor.NoSubtitle | data_processing/Jumbo/s3_stream_processor_simple.py:256-260 | without a subtitle the product is one piece, "per stuk", with no price per kilogram |
| StreamExtractor.SubtitleUnit | data_processing/Jumbo/s3_stream_processor_simple.py:239-247 | the unit columns are the subtitle's unit, described by the subtitle itself |
| StreamExtractor.PricePerKgSet | data_processing/Jumbo/s3_stream_processor_simple.py:250-253 | the price per kilogram is set exactly for a weight with a non-zero value and price, from the row's own unit and price |
| StreamExtractor.PricePerKgOf | data_processing/Jumbo/s3_stream_processor_simple.py:250-253 | the price per kilogram is set exactly for a weight with a non-zero value and a non-zero price |
| StreamExtractor.RegularPriceFound | data_processing/Jumbo/s3_stream_processor_simple.py:215-229 | the regular price is set exactly when the comma-replaced screen-reader text holds an amount |
| StreamExtractor.PriceOfAmount | data_processing/Jumbo/s3_stream_processor_simple.py:223-226 | "€", spaces and an amount with either separator reads as that decimal; the amount stops where the fraction's digits stop |
| StreamExtractor.ReplaceAmount | data_processing/Jumbo/s3_stream_processor_simple.py:223 | replacing commas in an amount only turns its separator into a dot |
| StreamExtractor.PriceNeedsSeparator | data_processing/Jumbo/s3_stream_processor_simple.py:223-229 | a text without a separator, such as "€2", gives no price |
| StreamExtractor.CategoryOfKey | data_processing/Jumbo/s3_stream_processor_simple.py:189-195 | the category of the scraper's key is the field after its prefix |
| StreamExtractor.SkuFromLink | data_processing/Jumbo/s3_stream_processor_simple.py:272-279 | a link ending in `-sku`, with any query, gives `sku` |
| StreamExtractor.SkuFromKey | data_processing/Jumbo/s3_stream_processor_simple.py:287-292 | without a link, the SKU is `jumbo_` and the key's file name without `.html` |
| StreamExtractor.SkuFromKeyPastLink | data_processing/Jumbo/s3_stream_processor_simple.py:275-286 | a link without a dash gives no SKU, so the SKU is `jumbo_` and the key's file name without `.html` |
| StreamExtractor.NoSku | data_processing/Jumbo/s3_stream_processor_simple.py:284-292 | without a link and without a key there is no SKU |
| HtmlParser.DigitsOf | data_processing/ETL/Jumbo/html_parser.py:101 | the filtered text holds only digits and is no longer than the input |
| HtmlParser.SpanUnitOf | data_processing/ETL/Jumbo/html_parser.py:87-110 | every branch gives a documented unit type and a non-negative value |
| HtmlParser.CollectDescription | data_processing/ETL/Jumbo/html_parser.py:119-128 | the loop that appends the non-empty texts gives exactly `DescriptionOf` |
| HtmlParser.ParseHtml | data_processing/ETL/Jumbo/html_parser.py:58-164 | the method gives exactly `Parsed`: the row, or the error of a missing title |
| HtmlParser.SkuAfterLastDash | data_processing/ETL/Jumbo/html_parser.py:73 | the SKU is what follows the last dash of the whole key, up to the next dot |
| HtmlParser.SkuWithoutDash | data_processing/ETL/Jumbo/html_parser.py:73 | a key without a dash gives its text before the first dot |
| HtmlParser.SkuOf | data_processing/ETL/Jumbo/html_parser.py:73 | the SKU never holds a dash or a dot |
| HtmlParser.CategoryPath | data_processing/ETL/Jumbo/html_parser.py:76-77 | the category is the start of the key past the prefix's length, up to and without the first slash |
| HtmlParser.SkuOfScraperKey | data_processing/ETL/Jumbo/html_parser.py:73 | the scraper's key gives back the SKU at the end of the page link |
| HtmlParser.CategoryOfScraperKey | data_processing/ETL/Jumbo/html_parser.py:76-77 | the scraper's key gives back its category |
| HtmlParser.CategoryIgnoresPrefix | data_processing/ETL/Jumbo/html_parser.py:21-77 | the first `len(Prefix)` characters are dropped whatever they are |
| HtmlParser.ShortKeyCategory | data_processing/ETL/Jumbo/html_parser.py:76-77 | a key shorter than the prefix gives an empty category |
| HtmlParser.ContainsAt | data_processing/ETL/Jumbo/html_parser.py:87-103 | `in` on strings holds exactly when the text occurs at some position |
| HtmlParser.LongerKeywordsRedundant | data_processing/ETL/Jumbo/html_parser.py:91-103 | the tests for "grams", "stuks" and "stukken" never decide anything beyond the shorter keyword |
| HtmlParser.KiloBeforeGram | data_processing/ETL/Jumbo/html_parser.py:87-90 | any text holding "kilo" or "kg", "kilogram" included, is "1 kilogram" |
| HtmlParser.GramSpan | data_processing/ETL/Jumbo/html_parser.py:91-94 | a text holding "gram" and no "k" is a weight of 1 described as "1 " and the text in capitals, whatever number it names |
| HtmlParser.StukSpan | data_processing/ETL/Jumbo/html_parser.py:103-106 | a text holding "stuk" and none of g, i, m is one piece described as "per stuk", whatever count it names |
| HtmlParser.LiterBeforeMillilitre | data_processing/ETL/Jumbo/html_parser.py:87-98 | a text ending in "liter", with no k or g before it, is one litre even when it names millilitres |
| HtmlParser.NoKeywordIsPackage | data_processing/ETL/Jumbo/html_parser.py:87-110 | a text that holds none of "kilo", "kg", "gram", "liter", "ml", "stuk" and is not "l" is a package described by itself ("per zak", "per l") |
| HtmlParser.LitreAlone | data_processing/ETL/Jumbo/html_parser.py:95-98 | the text "l" on its own is one litre |
| HtmlParser.DigitsOfAppend | data_processing/ETL/Jumbo/html_parser.py:101 | the digits of a text are the digits of its pieces, in order |
| HtmlParser.DigitsOfDigits | data_processing/ETL/Jumbo/html_parser.py:101 | filtering keeps a digit string whole and drops a string without digits |
| HtmlParser.MillilitreAmount | data_processing/ETL/Jumbo/html_parser.py:99-102 | "<digits> ml" is that many millilitres, described in capitals |
| HtmlParser.MillilitreWithoutDigits | data_processing/ETL/Jumbo/html_parser.py:101 | without digits the millilitre count falls back to 1 |
| HtmlParser.PageUnitPresent | data_processing/ETL/Jumbo/html_parser.py:80-116 | a unit is read exactly when there are at least three spans, from the last one, lowercased |
| HtmlParser.NonEmptyAppend | data_processing/ETL/Jumbo/html_parser.py:123-126 | keeping the non-empty texts of two runs keeps each run's, in order |
| HtmlParser.NonEmptyMembers | data_processing/ETL/Jumbo/html_parser.py:125-126 | the kept texts are exactly the non-empty ones |
| HtmlParser.DescriptionOf | data_processing/ETL/Jumbo/html_parser.py:119-128 | a description, when there is one, comes from a present block and is not empty |
| HtmlParser.CountryOf | data_processing/ETL/Jumbo/html_parser.py:131-142 | a country, when there is one, is the text at the end of the whole chain, non-empty and under 30 characters |
| HtmlParser.Parsed | data_processing/ETL/Jumbo/html_parser.py:58-164 | a row is store 1, named by the title, with a SKU without dash or dot, a category without a slash, and a country under 30 characters |
| HtmlParser.DescriptionAbsent | data_processing/ETL/Jumbo/html_parser.py:119-128 | there is no description exactly when the block is missing or all its texts are empty |
| HtmlParser.DescriptionLines | data_processing/ETL/Jumbo/html_parser.py:128 | texts without line breaks are read back from the description, line by line |
| HtmlParser.CountryPresent | data_processing/ETL/Jumbo/html_parser.py:131-142 | a country is read exactly when the whole chain is there and the text is non-empty and under 30 characters, and is then that text |
| HtmlParser.ParsedFails | data_processing/ETL/Jumbo/html_parser.py:65-70 | parsing fails exactly when there is no title, because line 149 reads the unbound name |
| HtmlParser.ParsedIgnoresLink | data_processing/ETL/Jumbo/html_parser.py:146-164 | the row is store 1 with the key's SKU and category and the title; the link, subtitle and price play no part |
| HtmlParser.ParsedWithoutUnit | data_processing/ETL/Jumbo/html_parser.py:111-116 | fewer than three spans, or no block, leaves all three unit fields unset |
| HtmlParser.FixtureRow | tests/data_processing/ETL/Jumbo/html_parser_test.py:21-49 | the stored test page and key give exactly the row the test expects |
| FormatEquipment.Transform | frontend/src/app/dossier/general-preferences/format-equipment.pipe.ts:9-15 | an empty key is returned as it is; any other label is one character longer per capital, one less again when " Air Fryer" was joined |
| FormatEquipment.TransformJoinsFirst | frontend/src/app/dossier/general-preferences/format-equipment.pipe.ts:12-14 | only the first " Air Fryer" of the capitalised label becomes " AirFryer"; the rest of the label is kept |
| Text.ReplaceFirst | frontend/src/app/dossier/general-preferences/format-equipment.pipe.ts:14 | with no occurrence the text is unchanged; otherwise the length changes by the difference between pattern and replacement |
| Text.ReplaceFirstAt | frontend/src/app/dossier/general-preferences/format-equipment.pipe.ts:14 | `replace` with a string pattern rewrites exactly the first occurrence and keeps everything before and after it |
| FormatEquipment.CapitalizeFirst | frontend/src/app/dossier/general-preferences/format-equipment.pipe.ts:13 | the capitalisation keeps the length and everything after the first character |
| FormatEquipment.SpacedLength | frontend/src/app/dossier/general-preferences/format-equipment.pipe.ts:12 | the spaced text is as long as the input plus its number of capitals |
| FormatEquipment.SpacedAppend | frontend/src/app/dossier/general-preferences/format-equipment.pipe.ts:12 | spacing works character by character, so it distributes over concatenation |
| FormatEquipment.CapitalsFollowSpace | frontend/src/app/dossier/general-preferences/format-equipment.pipe.ts:12 | in the spaced text every capital has a space right before it |
| FormatEquipment.NoCapitalsUnchanged | frontend/src/app/dossier/general-preferences/format-equipment.pipe.ts:12 | text without capitals is not changed by the spacing |
| FormatEquipment.LeadingCapital | frontend/src/app/dossier/general-preferences/format-equipment.pipe.ts:12-13 | a key that starts with a capital starts with the inserted space, which the capitalisation leaves alone |
| FormatEquipment.LowercaseKey | frontend/src/app/dossier/general-preferences/format-equipment.pipe.ts:9-14 | a key without capitals keeps its length and has only its first character capitalised |
| FormatEquipment.AirFryerLowercase | frontend/src/app/dossier/general-preferences/format-equipment.pipe.ts:14 | "airFryer" ends as "Air Fryer": the join needs a leading space |
| FormatEquipment.AirFryerCapitalised | frontend/src/app/dossier/general-preferences/format-equipment.pipe.ts:12-14 | "AirFryer" is joined back, but keeps the space inserted before its first capital |
| FormatEquipment.ShorterNotJoined | frontend/src/app/dossier/general-preferences/format-equipment.pipe.ts:14 | text shorter than " Air Fryer" is never changed by the join |
| FoodPreferences.ChunkArray | frontend/src/app/dossier/food-preferences/food-preferences.ts:24-28 | there are `ceil(len / size)` chunks, they are the chunks cut one at a time from the front, and laid end to end they give back the list |
| FoodPreferences.CutAtIsChunks | frontend/src/app/dossier/food-preferences/food-preferences.ts:25-26 | the chunks taken by index, `slice(i * size, i * size + size)` for each of the `ceil(len / size)` indices, are those cut one at a time from the front |
| FoodPreferences.FlattenChunks | frontend/src/app/dossier/food-preferences/food-preferences.ts:24-28 | laying the chunks cut from the front end to end gives back the list |
| FoodPreferences.ChunkCount | frontend/src/app/dossier/food-preferences/food-preferences.ts:25 | there are `ceil(len / size)` chunks: the least number whose chunks cover the list |
| FoodPreferences.FullChunks | frontend/src/app/dossier/food-preferences/food-preferences.ts:26 | every chunk but the last holds exactly `size` elements |
| FoodPreferences.LastChunk | frontend/src/app/dossier/food-preferences/food-preferences.ts:26 | the last chunk holds between 1 and `size` elements |
| FoodPreferences.ChunkContents | frontend/src/app/dossier/food-preferences/food-preferences.ts:26 | chunk `i` is the list from `i * size` up to `(i + 1) * size` or the end, and starts inside the list |
| FoodPreferences.EmptyChunks | frontend/src/app/dossier/food-preferences/food-preferences.ts:25 | a list has no chunks exactly when it is empty |
| FoodPreferences.CeilDivBounds | frontend/src/app/dossier/food-preferences/food-preferences.ts:25 | `Math.ceil(n / size)` is the least count of chunks that covers `n` |

## Left out

- Reading the pages is not modelled: S3 listing, streaming, the client singleton and the driver that prints results are I/O.
- HTML parsing is not modelled. BeautifulSoup and lxml are a foreign library, so the page is given as the texts the parsers extract (`Document.Page`).
- Logging is left out: every `logger` call, and `shared/log.py`.
- Floating point is not modelled. `float()`, `/` and `* 1000` are exact reals here, so results are not claimed bit-exact.
- Variant B's integer unit values (1000, 1, the millilitre count) are stored as reals, as the row's `unit_value` column is.
- Letter case is ASCII only. Unicode case mapping in `lower()`, `upper()` and `toUpperCase()` is not modelled.
- Digits are ASCII only. Unicode `str.isdigit` and the Unicode `\d` class are not modelled.
- FormatEquipment.Transform counts characters as code points; JavaScript's `.` and `toUpperCase` work on UTF-16 code units and can change the length of some letters.
- Regex: the optional tails `g(?:ram)?`, `l(?:iter)?` and `stuks?` are not searched for. Nothing follows them in their patterns, so they change neither where a match starts nor its group.
- The scrapers are left out, because they do network and browser I/O. Only the key format of `scraper.py` is kept, as `StorageKey.Key`.
- The agent, the .NET backend and the Angular components and services are left out. They are UI, messaging and web wiring.
- FoodPreferences.ChunkArray: requires a whole `size` of at least 1. With a size of 0, or a size that is not a whole number, JavaScript's division gives Infinity or a fractional length, and that is not modelled.
- HtmlParser.FixtureRow: the stored HTML of the test page is not part of this model. The page's texts are reconstructed from the row the test expects.
- StreamExtractor.ExtractProductData: the steps that read the category, the price, the price per kilogram and the SKU are separate methods that it calls, so each step is proved on its own.
- Models.NutritionRow: `raw_json` may hold any value in Python (shared/models.py:48). The model keeps it as an optional string, the JSON text, because no operation here looks inside it.
