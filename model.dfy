/** The database row types of the catalog service, one field per column. */
module Model {
  import opened Wrappers

  /** A 128-bit identifier, held as its hyphenated lower-case display text
      (the form `format!("{}", id)` produces). */
  datatype Uuid = Uuid(text: string)

  /** A UTC timestamp; only its identity matters to the handlers. */
  datatype Instant = Instant(micros: int)

  /** A row of the `notes` table. Category and published are nullable columns. */
  datatype NoteModel = NoteModel(
    id: Uuid,
    title: string,
    content: string,
    category: Option<string>,
    published: Option<bool>,
    createdAt: Option<Instant>,
    updatedAt: Option<Instant>)

  /** A row of the `products` table: seventeen text columns, all stored as text
      whatever they mean (price and stock included). */
  datatype ProductModel = ProductModel(
    id: Uuid,
    title: string,
    description: string,
    category: string,
    price: string,
    sku: string,
    productType: string,
    stock: string,
    allowBackorders: string,
    lowStockThreshold: string,
    shippingWeight: string,
    productGallery: string,
    attributes: string,
    variations: string,
    shippingDimensions: string,
    shippingClass: string,
    taxStatus: string,
    taxClass: string,
    published: Option<bool>,
    createdAt: Option<Instant>,
    updatedAt: Option<Instant>)
}
