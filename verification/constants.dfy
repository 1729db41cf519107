/**
 * The catalogue fixture (app/lib/constants.ts): the four sample products, each priced
 * 100, with their size variants. Images, tags, stock and sale flags are not modelled.
 */
module Constants {
  import opened Wrappers
  import opened Types

  /** A size variant at the sample price of 100. */
  function Size(id: string, code: string): ProductVariant
  {
    ProductVariant(id, "Talla " + code, 100)
  }

  const CapSizes: seq<ProductVariant> :=
    [Size("size-s", "S"), Size("size-m", "M"), Size("size-l", "L"), Size("size-xl", "XL")]

  const HoodieSizes: seq<ProductVariant> :=
    [Size("size-xs", "XS"), Size("size-s", "S"), Size("size-m", "M"),
     Size("size-l", "L"), Size("size-xl", "XL"), Size("size-xxl", "XXL")]

  /** `SAMPLE_PRODUCTS`. */
  const SampleProducts: seq<Product> := [
    Product("1", "Gorra Privacy is Freedom",
      "Gorra blanca de béisbol con logo de Ethereum en colores pastel. Diseño exclusivo ETH Cali con mensaje \"Privacy is Freedom\" en la parte posterior.",
      100, Some(200), "Accesorios", CapSizes),
    Product("2", "Gorra Privacy is Normal",
      "Gorra negra de béisbol con logo de Ethereum holográfico. Diseño exclusivo con mensaje \"Privacy is Normal\" en la parte posterior.",
      100, Some(200), "Accesorios", CapSizes),
    Product("3", "Hoodie Privacy Magic",
      "Sudadera crema con diseño místico de Ethereum. Front con emblema ETH-CO L.G.L.T. Back con ilustración de hands holding crystal.",
      100, None, "Ropa", HoodieSizes),
    Product("4", "Hoodie ETH Cali Original",
      "Sudadera negra con logo ETH CO CALI en la manga. Front con hands holding crystal. Back con diseño tribal de 5 figuras alrededor del crystal de Ethereum.",
      100, None, "Ropa", HoodieSizes)
  ]
}
