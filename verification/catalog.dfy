/** Catalogue entities as the remote shop API returns them, reduced to the
    fields the storefront's logic reads. A missing or empty string field is
    the empty string. */
module Catalog {

  /** A product summary: its `_id`, the alias `id`, and its title. */
  datatype Product = Product(uid: string, id: string, title: string)

  /** `p._id || p.id`: the identifier the storefront uses for a product. */
  function Key(p: Product): string {
    if p.uid != "" then p.uid else p.id
  }

  /** What a cart line points at: some endpoints embed the product summary,
      others return the bare product id. */
  datatype ProductRef = Embedded(product: Product) | Bare(productId: string)

  /** The product id of a cart line: the embedded product's key, or the bare
      string itself. */
  function RefId(r: ProductRef): string {
    match r
    case Embedded(p) => Key(p)
    case Bare(s) => s
  }
}
