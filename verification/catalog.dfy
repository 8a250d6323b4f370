/** The product record shared by the catalog, the cart and the product form. */
module Catalog {
  import opened Wrappers

  /** A sweet on sale. `price` is in cents; `isFlagship` and `inventory` are optional fields. */
  datatype Sweet = Sweet(
    id: string,
    name: string,
    description: string,
    price: int,
    image: string,
    isFlagship: Option<bool>,
    inventory: Option<int>)
}
