/** The row shapes of shared/models.py and the unit triple both extractors produce. */
module Models {
  import opened Wrappers

  /** A UTC instant; the model reads no clock, instants are supplied. */
  datatype Timestamp = Timestamp(microseconds: int)

  /** `(unit_type, unit_value, unit_description)`: the value is in grams for
      weight, millilitres for volume and a count for piece and package. */
  datatype Unit = Unit(unitType: string, unitValue: real, description: string)

  /** The unit types the schema documents; the row types do not enforce them. */
  predicate DocumentedUnitType(t: string) {
    t == "weight" || t == "volume" || t == "piece" || t == "package"
  }

  /** A row of food.products. */
  datatype ProductRow = ProductRow(
    storeId: int,
    externalSku: string,
    name: Option<string>,
    category: Option<string>,
    unitType: Option<string>,
    unitValue: Option<real>,
    unitDescription: Option<string>,
    description: Option<string>,
    countryOfOrigin: Option<string>)

  /** A price snapshot row. */
  datatype PriceRow = PriceRow(
    productId: int,
    scrapedAt: Timestamp,
    regularPrice: Option<real>,
    promoPrice: Option<real>,
    onPromotion: bool,
    promoType: Option<string>,
    promoText: Option<string>,
    pricePerKg: Option<real>)

  /** A nutrition snapshot row; `rawJson` holds the unparsed structured blob. */
  datatype NutritionRow = NutritionRow(
    productId: int,
    scrapedAt: Timestamp,
    kcalPer100g: Option<real>,
    proteinPer100g: Option<real>,
    fatPer100g: Option<real>,
    carbsPer100g: Option<real>,
    sodiumPer100g: Option<real>,
    fiberPer100g: Option<real>,
    sugarPer100g: Option<real>,
    rawJson: Option<string>)

  /** The instants at which the two class bodies evaluated `datetime.utcnow()`
      for their `scraped_at` default: once each, when models.py was imported. */
  datatype ClassDefinitionTimes = ClassDefinitionTimes(priceRowDefined: Timestamp, nutritionRowDefined: Timestamp)

  /** `ProductRow(store_id, external_sku)`: every optional column unset. */
  function NewProductRow(storeId: int, externalSku: string): (row: ProductRow)
    ensures row.storeId == storeId && row.externalSku == externalSku
    ensures row.name.None? && row.category.None? && row.description.None? && row.countryOfOrigin.None?
    ensures row.unitType.None? && row.unitValue.None? && row.unitDescription.None?
  {
    ProductRow(storeId, externalSku, None, None, None, None, None, None, None)
  }

  /** `PriceRow(product_id)`: not on promotion, no prices, and the class-definition instant. */
  function NewPriceRow(defined: ClassDefinitionTimes, productId: int): (row: PriceRow)
    ensures row.productId == productId && row.scrapedAt == defined.priceRowDefined
    ensures !row.onPromotion
    ensures row.regularPrice.None? && row.promoPrice.None? && row.pricePerKg.None?
    ensures row.promoType.None? && row.promoText.None?
  {
    PriceRow(productId, defined.priceRowDefined, None, None, false, None, None, None)
  }

  /** `NutritionRow(product_id)`: no nutrients, no blob, and the class-definition instant. */
  function NewNutritionRow(defined: ClassDefinitionTimes, productId: int): (row: NutritionRow)
    ensures row.productId == productId && row.scrapedAt == defined.nutritionRowDefined
    ensures row.kcalPer100g.None? && row.proteinPer100g.None? && row.fatPer100g.None?
    ensures row.carbsPer100g.None? && row.sodiumPer100g.None? && row.fiberPer100g.None?
    ensures row.sugarPer100g.None? && row.rawJson.None?
  {
    NutritionRow(productId, defined.nutritionRowDefined, None, None, None, None, None, None, None, None)
  }

  /** Price rows built without `scraped_at` all carry the same instant,
      whenever they are built. */
  lemma DefaultScrapedAtShared(defined: ClassDefinitionTimes, p1: int, p2: int)
    ensures NewPriceRow(defined, p1).scrapedAt == NewPriceRow(defined, p2).scrapedAt
    ensures NewNutritionRow(defined, p1).scrapedAt == NewNutritionRow(defined, p2).scrapedAt
  {
  }
}
