/** The storage key under which the scraper files a product page, and the
    fields both extractors read back out of it. */
module StorageKey {
  import opened Text

  /** `S3_PREFIX` of the scraper. */
  const ScraperPrefix := "Jumbo"

  /** `f"{S3_PREFIX}/{cat_name}/{file_part}"`, where `file_part` is the last
      segment of the product link followed by `.html`. */
  function Key(category: string, page: string): (key: string)
    ensures |key| == |ScraperPrefix| + 1 + |category| + 1 + |page| + 5
  {
    ScraperPrefix + "/" + (category + "/" + (page + ".html"))
  }

  /** A key read back field by field: the prefix, the category and the file name. */
  lemma KeyFields(category: string, page: string)
    requires '/' !in category && '/' !in page
    ensures Split(Key(category, page), '/') == [ScraperPrefix, category, page + ".html"]
  {
    var file := page + ".html";
    assert '/' !in file;
    SplitNoSeparator(file, '/');
    SplitAtFirst(category, file, '/');
    SplitAtFirst(ScraperPrefix, category + "/" + file, '/');
  }

  /** What follows the prefix and its slash: the category, a slash and the file name. */
  lemma KeyAfterPrefix(category: string, page: string)
    ensures Key(category, page)[|ScraperPrefix| + 1..] == category + "/" + (page + ".html")
  {
    var rest := category + "/" + (page + ".html");
    assert Key(category, page) == (ScraperPrefix + "/") + rest;
  }

  /** The text after the last dash of a key whose page ends in `-sku`. */
  lemma KeyLastDash(category: string, page: string, sku: string)
    requires '-' !in sku
    ensures Last(Split(Key(category, page + "-" + sku), '-')) == sku + ".html"
  {
    var tail := "-" + (sku + ".html");
    var file := page + "-" + sku + ".html";
    assert file == page + tail;
    assert '-' in tail;
    LastSplitAppend(page, tail, '-');
    LastSplitAppend(category + "/", file, '-');
    LastSplitAppend(ScraperPrefix + "/", category + "/" + file, '-');
    assert '-' !in sku + ".html";
    LastSplitTail(sku + ".html", '-');
  }
}
