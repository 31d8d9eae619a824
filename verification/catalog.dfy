/** The fixed, ordered table of refurbished Steam Deck packages the monitor polls. */
module Catalog {

  /** One package: its Steam package id, display name, storage label and screen type. */
  datatype Product = Product(id: string, name: string, storage: string, screen: string)

  /** The package table in its declaration (and therefore iteration) order. */
  const Products: seq<Product> := [
    Product("903905", "Steam Deck 64GB LCD", "64GB", "LCD"),
    Product("903906", "Steam Deck 256GB LCD", "256GB", "LCD"),
    Product("903907", "Steam Deck 512GB LCD", "512GB", "LCD"),
    Product("1202542", "Steam Deck 512GB OLED", "512GB", "OLED"),
    Product("1202547", "Steam Deck 1TB OLED", "1TB", "OLED")
  ]

  /** The set of package ids a table holds. */
  function Ids(table: seq<Product>): set<string> {
    set i | 0 <= i < |table| :: table[i].id
  }

  /** No package id occurs twice, as in the keys of a Python dict. */
  predicate DistinctIds(table: seq<Product>) {
    forall i, j :: 0 <= i < j < |table| ==> table[i].id != table[j].id
  }

  /** No display name occurs twice, so a name identifies its package. */
  predicate DistinctNames(table: seq<Product>) {
    forall i, j :: 0 <= i < j < |table| ==> table[i].name != table[j].name
  }

  /** The shipped table is a proper dict: five packages, distinct ids and distinct names. */
  lemma ProductsWellFormed()
    ensures |Products| == 5
    ensures DistinctIds(Products) && DistinctNames(Products)
    ensures Ids(Products) == {"903905", "903906", "903907", "1202542", "1202547"}
  {
    assert Products[0].id in Ids(Products);
    assert Products[1].id in Ids(Products);
    assert Products[2].id in Ids(Products);
    assert Products[3].id in Ids(Products);
    assert Products[4].id in Ids(Products);
  }
}
