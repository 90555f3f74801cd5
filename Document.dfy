/** A product page after the HTML tree lookups: each field is the stripped
    text of the element the extractors look for, or None where the element
    (or, for nested lookups, one of its ancestors) is missing. */
module Document {
  import opened Wrappers

  datatype Page = Page(
    /** `h1[data-testid=product-title]`. */
    title: Option<string>,
    /** `div[data-testid=product-price]`, then its `div.screenreader-only`. */
    priceScreenreader: Option<Option<string>>,
    /** `span[data-testid=product-subtitle]`. */
    subtitle: Option<string>,
    /** The `href` of `link[rel=canonical]`; None when the link or the attribute is missing. */
    canonicalHref: Option<string>,
    /** The `span[aria-hidden=true]` texts inside `div.price-per-unit`, in document order. */
    ppuSpans: Option<seq<string>>,
    /** The `p` and `li` texts inside `div[data-testid=product-description-text-body]`, in document order. */
    descTexts: Option<seq<string>>,
    /** `div[data-testid=origin-collapsible]`, its first `div`, that one's `div.content`, and its first `p`. */
    origin: Option<Option<Option<Option<string>>>>)
}
