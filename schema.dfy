/** The request bodies and query parameters the handlers receive, already decoded. */
module Schema {
  import opened Wrappers

  /** Rust's `usize` on a 64-bit target. */
  const UsizeModulus: nat := 0x1_0000_0000_0000_0000
  type Usize = n: nat | n < UsizeModulus

  /** The optional `?page=&limit=` query of the list endpoints; absent or undecodable
      query strings arrive as both fields absent. */
  datatype FilterOptions = FilterOptions(page: Option<Usize>, limit: Option<Usize>)

  /** Body of note creation (JSON or HTML form). */
  datatype CreateNoteSchema = CreateNoteSchema(
    title: string,
    content: string,
    category: Option<string>,
    published: Option<bool>)

  /** Body of note editing: every field may be left out. */
  datatype UpdateNoteSchema = UpdateNoteSchema(
    title: Option<string>,
    content: Option<string>,
    category: Option<string>,
    published: Option<bool>)

  /** Body of the product creation form: the seventeen product columns plus `published`. */
  datatype CreateProductSchema = CreateProductSchema(
    title: string,
    description: string,
    category: string,
    price: string,
    sku: string,
    productType: string,
    stock: string,
    allowBackorders: string,
    lowStockThreshold: string,
    shippingWeight: string,
    productGallery: string,
    attributes: string,
    variations: string,
    shippingDimensions: string,
    shippingClass: string,
    taxStatus: string,
    taxClass: string,
    published: Option<bool>)
}
