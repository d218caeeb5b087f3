/**
 The fixed product catalog and what the products page derives from it:
 the category buttons and the list of products shown for the selected one.
 Prices are integer cents, so that sums are exact.
 */
module Catalog {
  import Seqs

  datatype Product = Product(
    id: int,
    name: string,
    price: nat,
    image: string,
    description: string,
    category: string)

  /** The label of the synthetic category that selects every product. */
  const All: string := "All"

  /** The built-in catalog (image URLs are not modelled). */
  const MockProducts: seq<Product> := [
    Product(1, "Wireless Headphones", 7999, "", "Premium wireless headphones", "Electronics"),
    Product(2, "Smart Watch", 19999, "", "Fitness tracking smartwatch", "Electronics"),
    Product(3, "Running Shoes", 8999, "", "Comfortable running shoes", "Fashion"),
    Product(4, "Coffee Maker", 4999, "", "Automatic coffee maker", "Home"),
    Product(5, "Backpack", 3999, "", "Durable travel backpack", "Fashion"),
    Product(6, "Desk Lamp", 2999, "", "LED desk lamp", "Home"),
    Product(7, "Bluetooth Speaker", 5999, "", "Portable bluetooth speaker", "Electronics"),
    Product(8, "Sunglasses", 2499, "", "UV protection sunglasses", "Fashion")
  ]

  /** The category of every product, in catalog order (duplicates included). */
  function CategoryColumn(catalog: seq<Product>): (cs: seq<string>)
    ensures |cs| == |catalog|
    ensures forall i :: 0 <= i < |catalog| ==> cs[i] == catalog[i].category
  {
    seq(|catalog|, i requires 0 <= i < |catalog| => catalog[i].category)
  }

  /** `"All"` followed by the catalog's categories, each once, in first-seen order. */
  function Categories(catalog: seq<Product>): (r: seq<string>)
    ensures |r| >= 1 && r[0] == All
    ensures Seqs.Distinct(r[1..])
    ensures forall c :: c in r[1..] <==> exists p :: p in catalog && p.category == c
    ensures forall i :: 1 <= i < |r| ==> r[i] in CategoryColumn(catalog)
    ensures forall i, j :: 1 <= i < j < |r| ==>
      Seqs.FirstIndex(CategoryColumn(catalog), r[i]) < Seqs.FirstIndex(CategoryColumn(catalog), r[j])
  {
    var cs := CategoryColumn(catalog);
    var r := [All] + Seqs.Dedup(cs);
    assert r[1..] == Seqs.Dedup(cs);
    Seqs.DedupElements(cs);
    Seqs.DedupFirstSeenOrder(cs);
    forall c
      ensures c in r[1..] <==> exists p :: p in catalog && p.category == c
    {
      if c in cs {
        var i :| 0 <= i < |cs| && cs[i] == c;
        assert catalog[i] in catalog;
      }
    }
    r
  }

  /** The products a category button selects. */
  function InCategory(category: string): Product -> bool
  {
    (p: Product) => p.category == category
  }

  /** The products shown for the selected category. */
  function FilteredProducts(catalog: seq<Product>, selected: string): (r: seq<Product>)
    ensures selected == All ==> r == catalog
    ensures selected != All ==> forall p :: p in r <==> p in catalog && p.category == selected
    ensures forall p :: p in r ==> p in catalog
  {
    if selected == All then catalog else Seqs.Filter(catalog, InCategory(selected))
  }

  /**
   A category other than `"All"` shows exactly the products of that category:
   in catalog order, each as often as it occurs in the catalog.
   */
  lemma FilteredProductsExact(catalog: seq<Product>, selected: string)
    requires selected != All
    ensures Seqs.IsSubsequence(FilteredProducts(catalog, selected), catalog)
    ensures forall p :: multiset(FilteredProducts(catalog, selected))[p] ==
                       (if p.category == selected then multiset(catalog)[p] else 0)
  {
    Seqs.FilterIsSubsequence(catalog, InCategory(selected));
    forall p {
      Seqs.FilterMultiset(catalog, InCategory(selected), p);
    }
  }

  /** The built-in catalog yields the four buttons the products page shows. */
  lemma MockCategories()
    ensures Categories(MockProducts) == [All, "Electronics", "Fashion", "Home"]
  {
    assert CategoryColumn(MockProducts) ==
      ["Electronics", "Electronics", "Fashion", "Home", "Fashion", "Home", "Electronics", "Fashion"];
    MockCategoryColumn("Electronics", "Fashion", "Home");
  }

  /** The catalog's category column de-duplicates to its first three distinct labels. */
  lemma MockCategoryColumn(e: string, f: string, h: string)
    requires e != f && f != h && e != h
    ensures Seqs.Dedup([e, e, f, h, f, h, e, f]) == [e, f, h]
  {
    MockCategoryPrefix(e, f, h);
    Seqs.DedupAbsorbs([e, e, f, h], [f, h, e, f]);
    assert [e, e, f, h] + [f, h, e, f] == [e, e, f, h, f, h, e, f];
  }

  /** The first four labels of the column, de-duplicated one label at a time. */
  lemma MockCategoryPrefix(e: string, f: string, h: string)
    requires e != f && f != h && e != h
    ensures Seqs.Dedup([e, e, f, h]) == [e, f, h]
  {
    assert [e][..0] == [];
    assert Seqs.Dedup([e]) == [e];
    Seqs.DedupSnoc([e], e);
    assert [e] + [e] == [e, e];
    Seqs.DedupSnoc([e, e], f);
    assert [e, e] + [f] == [e, e, f];
    Seqs.DedupSnoc([e, e, f], h);
    assert [e, e, f] + [h] == [e, e, f, h];
  }
}
