/**
 * The storefront's records (app/types/index.ts), restricted to the fields the
 * modelled logic reads. Prices and quantities are integers.
 */
module Types {
  import opened Wrappers

  /** A purchasable variant (for example a size) of a product. */
  datatype ProductVariant = ProductVariant(id: string, name: string, price: int)

  /** A catalogue product; `originalPrice` is present for products on sale. */
  datatype Product = Product(
    id: string,
    name: string,
    description: string,
    price: int,
    originalPrice: Option<int>,
    category: string,
    variants: seq<ProductVariant>)

  /** One line of the cart: a product, an optional variant and a quantity. */
  datatype CartItem = CartItem(id: string, product: Product, quantity: int, variant: Option<ProductVariant>)

  /** The cart state: its lines plus the cached money total and unit count. */
  datatype Cart = Cart(items: seq<CartItem>, total: int, itemCount: int)
}
