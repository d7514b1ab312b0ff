/** The demo catalog the store falls back to when nothing usable is saved. */
module MockData {
  import opened ProductTypes

  /** The image URL form every seed product uses: an Unsplash photo at
      width 500 and quality 80. */
  function Unsplash(photo: string): string
  {
    "https://images.unsplash.com/photo-" + photo + "?w=500&q=80"
  }

  // Long descriptions are written in pieces.
  const MockProducts: seq<Product> := [
    Product(1, "Wireless Headphones", 79.99,
      "Premium wireless " + "headphones with " + "active noise " + "cancellation and " + "30-hour battery life",
      Unsplash("1505740420928-5e560c06d30e"), "electronics", 15),
    Product(2, "Smart Watch Pro", 199.99,
      "Advanced smartwatch " + "with health " + "tracking, GPS, and " + "fitness features",
      Unsplash("1523275335684-37898b6baf30"), "electronics", 8),
    Product(3, "Laptop Backpack", 49.99,
      "Durable waterproof " + "backpack with " + "padded laptop " + "compartment up to " + "17 inches",
      Unsplash("1553062407-98eeb64c6a62"), "accessories", 20),
    Product(4, "USB-C Fast Cable", 12.99,
      "Fast charging USB-C " + "cable, braided " + "nylon, 6ft long, " + "supports 100W power " + "delivery",
      Unsplash("1583863788434-e58a36330cf0"), "accessories", 50),
    Product(5, "Bluetooth Speaker", 59.99,
      "Portable waterproof " + "Bluetooth speaker " + "with 360-degree " + "sound and 12-hour " + "playtime",
      Unsplash("1608043152269-423dbba4e7e1"), "electronics", 12),
    Product(6, "Phone Case Premium", 19.99,
      "Protective phone " + "case with " + "military-grade drop " + "protection and " + "kickstand",
      Unsplash("1601784551446-20c9e07cdbdb"), "accessories", 30),
    Product(7, "Wireless Mouse", 34.99,
      "Ergonomic wireless " + "mouse with silent " + "clicks and " + "rechargeable battery",
      Unsplash("1527864550417-7fd91fc51a46"), "electronics", 25),
    Product(8, "Sunglasses Classic", 89.99,
      "UV400 polarized " + "sunglasses with " + "classic design and " + "premium materials",
      Unsplash("1572635196237-14b3f281503f"), "accessories", 18),
    Product(9, "Mechanical Keyboard", 129.99,
      "RGB mechanical " + "keyboard with " + "cherry switches and " + "aluminum frame",
      Unsplash("1595225476474-87563907a212"), "electronics", 10),
    Product(10, "Leather Wallet", 39.99,
      "Genuine leather " + "bifold wallet with " + "RFID blocking " + "technology",
      Unsplash("1627123424574-724758594e93"), "accessories", 35),
    Product(11, "Webcam HD Pro", 74.99,
      "Full HD 1080p " + "webcam with " + "autofocus and " + "built-in dual " + "microphones",
      Unsplash("1587825140708-dfaf72ae4b04"), "electronics", 14),
    Product(12, "Travel Adapter", 24.99,
      "Universal travel " + "adapter with 4 USB " + "ports, works in " + "150+ countries",
      Unsplash("1620221358191-3e8c4a5a1e8e"), "accessories", 40)
  ]

  /** The seed's prices, categories and stocks, column by column. */
  const PriceColumn: seq<real> :=
    [79.99, 199.99, 49.99, 12.99, 59.99, 19.99, 34.99, 89.99, 129.99, 39.99, 74.99, 24.99]
  const CategoryColumn: seq<string> := [
    "electronics", "electronics", "accessories", "accessories", "electronics", "accessories",
    "electronics", "accessories", "electronics", "accessories", "electronics", "accessories"]
  const StockColumn: seq<nat> := [15, 8, 20, 50, 12, 30, 25, 18, 10, 35, 14, 40]

  /** A list that agrees with the seed in every field but the texts: twelve
      products, ids 1..12 in order, with the seed's prices, categories and
      stocks. Facts about the seed that do not read the texts are proved
      for every such list. */
  ghost predicate SeedLike(ps: seq<Product>)
  {
    && |ps| == 12
    && forall i :: 0 <= i < 12 ==>
         && ps[i].id == i + 1
         && ps[i].price == PriceColumn[i]
         && ps[i].category == CategoryColumn[i]
         && ps[i].stock == StockColumn[i]
  }

  /** The seed is such a list. */
  lemma MockProductsSeedLike()
    ensures SeedLike(MockProducts)
  {
  }

  /** Twelve products whose ids are 1..12 in list order. */
  lemma MockProductsIds()
    ensures |MockProducts| == 12
    ensures forall i :: 0 <= i < |MockProducts| ==> MockProducts[i].id == i + 1
    ensures UniqueIds(MockProducts)
  {
    MockProductsSeedLike();
  }

  /** Every seed product has a positive price (stocks are naturals by type). */
  lemma MockProductsPrices()
    ensures forall p :: p in MockProducts ==> p.price > 0.0
  {
    MockProductsSeedLike();
  }
}
