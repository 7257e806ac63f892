/**
 * The products index page: one card per product category, in the order the
 * categories first occur in the product list, each with a link, a heading and
 * a one-line description.
 */
module ProductsIndex {
  import opened Strings

  /** A product of the shared product list; the price is display text such as "₹450". */
  datatype Listing = Listing(slug: string, name: string, category: string, price: string, image: string)

  /** The sample product list. */
  function Products(): seq<Listing>
  {
    [ Listing("mig-29", "MiG-29 EDF Jet Plane Kit", "plane-kits", "\U{20B9}450", "/images/mig-29.jpg"),
      Listing("f22-raptor", "F-22 Raptor Jet Plane Kit", "plane-kits", "\U{20B9}550", "/images/f22-raptor.jpg"),
      Listing("fpv-frame-220", "FPV Drone Frame 220mm", "fpv-parts", "\U{20B9}350", "/images/fpv-220.jpg") ]
  }

  // ---- de-duplication ----

  /** The position of the first `x` in `xs`, or -1. */
  function FirstIndex(xs: seq<string>, x: string): (k: int)
    ensures -1 <= k < |xs|
    ensures k == -1 <==> x !in xs
    ensures 0 <= k ==> xs[k] == x && x !in xs[..k]
  {
    if xs == [] then -1
    else if xs[0] == x then 0
    else
      var k := FirstIndex(xs[1..], x);
      assert k != -1 ==> xs[..k + 1] == [xs[0]] + xs[1..][..k];
      if k == -1 then -1 else k + 1
  }

  /**
   * `Array.from(new Set(xs))`: the elements of `xs`, each once, in the order
   * of their first occurrence.
   */
  function Dedup(xs: seq<string>): (r: seq<string>)
    ensures forall x :: x in r <==> x in xs
    ensures forall i, j :: 0 <= i < j < |r| ==> r[i] != r[j]
    ensures |r| <= |xs|
  {
    if xs == [] then []
    else
      var d := Dedup(xs[..|xs| - 1]);
      var x := xs[|xs| - 1];
      assert xs == xs[..|xs| - 1] + [x];
      if x in d then d else d + [x]
  }

  /**
   * Insertion order: an element earlier in the result occurred first earlier
   * in the input.
   */
  lemma {:induction false} DedupOrder(xs: seq<string>, i: int, j: int)
    requires 0 <= i < j < |Dedup(xs)|
    ensures FirstIndex(xs, Dedup(xs)[i]) < FirstIndex(xs, Dedup(xs)[j])
  {
    var init := xs[..|xs| - 1];
    var x := xs[|xs| - 1];
    var d := Dedup(init);
    assert xs == init + [x];
    FirstIndexPrefix(init, x, Dedup(xs)[i]);
    FirstIndexPrefix(init, x, Dedup(xs)[j]);
    if j < |d| {
      DedupOrder(init, i, j);
    } else {
      assert Dedup(xs)[j] == x && x !in d;
      assert Dedup(xs)[i] in init;
    }
  }

  /** Appending an element does not move the first occurrence of anything already present. */
  lemma FirstIndexPrefix(xs: seq<string>, x: string, y: string)
    ensures y in xs ==> FirstIndex(xs + [x], y) == FirstIndex(xs, y)
    ensures y !in xs && y == x ==> FirstIndex(xs + [x], y) == |xs|
  {
    var k := FirstIndex(xs + [x], y);
    if y in xs {
      var m := FirstIndex(xs, y);
      assert (xs + [x])[m] == y;
    } else if y == x {
      assert (xs + [x])[|xs|] == y;
    }
  }

  /** `products.map(p => p.category)`. */
  function CategoryList(products: seq<Listing>): (cats: seq<string>)
    ensures |cats| == |products|
    ensures forall i :: 0 <= i < |products| ==> cats[i] == products[i].category
  {
    if products == [] then [] else [products[0].category] + CategoryList(products[1..])
  }

  /** The product categories, de-duplicated. */
  function Categories(products: seq<Listing>): (cats: seq<string>)
    ensures |cats| <= |products|
    ensures forall i, j :: 0 <= i < j < |cats| ==> cats[i] != cats[j]
  {
    Dedup(CategoryList(products))
  }

  /** Every product's category is listed, nothing else is, and none twice. */
  lemma CategoriesOfProducts(products: seq<Listing>)
    ensures forall p :: p in products ==> p.category in Categories(products)
    ensures forall c :: c in Categories(products) ==> exists p :: p in products && p.category == c
    ensures forall i, j :: 0 <= i < j < |Categories(products)| ==> Categories(products)[i] != Categories(products)[j]
  {
    var cats := CategoryList(products);
    forall p | p in products
      ensures p.category in Categories(products)
    {
      var i :| 0 <= i < |products| && products[i] == p;
      assert cats[i] == p.category;
    }
    forall c | c in Categories(products)
      ensures exists p :: p in products && p.category == c
    {
      var i :| 0 <= i < |cats| && cats[i] == c;
      assert products[i] in products;
    }
  }

  /** The sample list gives the two categories in first-occurrence order. */
  lemma SampleCategories()
    ensures Categories(Products()) == ["plane-kits", "fpv-parts"]
  {
    var cats: seq<string> := ["plane-kits", "plane-kits", "fpv-parts"];
    SampleCategoryList();
    DedupRepeated();
    assert cats[..2] == ["plane-kits", "plane-kits"];
    assert "fpv-parts" !in Dedup(cats[..2]);
  }

  lemma SampleCategoryList()
    ensures CategoryList(Products()) == ["plane-kits", "plane-kits", "fpv-parts"]
  {
    var listed := CategoryList(Products());
    assert listed[0] == "plane-kits" && listed[1] == "plane-kits" && listed[2] == "fpv-parts";
  }

  /** A repeated category is listed once. */
  lemma DedupRepeated()
    ensures Dedup(["plane-kits", "plane-kits"]) == ["plane-kits"]
  {
    var cats: seq<string> := ["plane-kits", "plane-kits"];
    assert cats[..1] == ["plane-kits"];
    assert cats[..1][..0] == [];
    assert Dedup(cats[..1]) == ["plane-kits"];
  }

  // ---- the cards ----

  /** The label table for known categories. */
  function Labels(): map<string, string>
  {
    map["plane-kits" := "Plane Kits", "fpv-parts" := "FPV Parts"]
  }

  /** `labels[cat] ?? fallback`: the table entry when there is one. */
  function LabelOr(cat: string, fallback: string): string
  {
    if cat in Labels() then Labels()[cat] else fallback
  }

  /** `labels[cat] ?? cat.replace(/-/g, " ")`. */
  function Heading(cat: string): (heading: string)
    ensures cat in Labels() ==> heading == Labels()[cat]
    ensures cat !in Labels() ==> |heading| == |cat| && '-' !in heading
  {
    LabelOr(cat, ReplaceAll(cat, '-', ' '))
  }

  /** Without a label, the heading is the category with each hyphen turned into a space and nothing else changed. */
  lemma HeadingFallback(cat: string, i: int)
    requires cat !in Labels() && 0 <= i < |cat|
    ensures Heading(cat)[i] == if cat[i] == '-' then ' ' else cat[i]
  {
  }

  /** `"Explore " + (labels[cat] ?? cat).toLowerCase()`. */
  function Description(cat: string): (text: string)
    ensures |text| == 8 + |LabelOr(cat, cat)|
    ensures text[..8] == "Explore "
  {
    "Explore " + LowerString(LabelOr(cat, cat))
  }

  /**
   * After "Explore " the description is the label, or else the raw category,
   * lower-cased: no capital remains and hyphens survive.
   */
  lemma DescriptionAt(cat: string, i: int)
    requires 0 <= i < |LabelOr(cat, cat)|
    ensures Description(cat)[8 + i] == Lower(LabelOr(cat, cat)[i])
    ensures !('A' <= Description(cat)[8 + i] <= 'Z')
    ensures cat !in Labels() ==> Description(cat)[8 + i] == Lower(cat[i])
    ensures cat !in Labels() && cat[i] == '-' ==> Description(cat)[8 + i] == '-'
  {
  }

  /** The link target of a category card. */
  function Href(cat: string): (href: string)
    ensures |href| == 10 + |cat| && href[..10] == "/products/" && href[10..] == cat
  {
    "/products/" + cat
  }

  /** Distinct categories link to distinct pages. */
  lemma HrefInjective(a: string, b: string)
    ensures Href(a) == Href(b) <==> a == b
  {
    if Href(a) == Href(b) {
      assert a == Href(a)[10..];
    }
  }

  /** What a card shows for one category. */
  datatype Card = Card(href: string, heading: string, description: string)

  function Cards(products: seq<Listing>): (cards: seq<Card>)
    ensures |cards| == |Categories(products)|
  {
    var cats := Categories(products);
    seq(|cats|, i requires 0 <= i < |cats| => Card(Href(cats[i]), Heading(cats[i]), Description(cats[i])))
  }

  /** Card `i` links to, heads and describes category `i`, in category order. */
  lemma CardsFollowCategories(products: seq<Listing>)
    ensures |Cards(products)| == |Categories(products)|
    ensures forall i :: 0 <= i < |Cards(products)| ==>
      Cards(products)[i] == Card(Href(Categories(products)[i]), Heading(Categories(products)[i]), Description(Categories(products)[i]))
  {
  }

  /**
   * The cards' links are pairwise distinct, because their categories are;
   * the list keys, the categories themselves, are distinct by `Categories`.
   */
  lemma CardLinksDistinct(products: seq<Listing>, i: int, j: int)
    requires 0 <= i < j < |Cards(products)|
    ensures Cards(products)[i].href != Cards(products)[j].href
  {
    var cats := Categories(products);
    CategoriesOfProducts(products);
    HrefInjective(cats[i], cats[j]);
  }

  /** The two sample categories are headed by their labels. */
  lemma SampleHeadings()
    ensures Heading("plane-kits") == "Plane Kits" && Heading("fpv-parts") == "FPV Parts"
  {
    assert "plane-kits" in Labels() && "fpv-parts" in Labels();
  }

  /** A labelled category is described by its lower-cased label: "Explore fpv parts". */
  lemma SampleDescription()
    ensures Description("fpv-parts")[..8] == "Explore " && Description("fpv-parts")[8..] == "fpv parts"
  {
    var text := Description("fpv-parts");
    assert LabelOr("fpv-parts", "fpv-parts") == "FPV Parts";
    assert text[8..] == LowerString("FPV Parts");
    LowerLabel();
  }

  lemma LowerLabel()
    ensures LowerString("FPV Parts") == "fpv parts"
  {
    var r := LowerString("FPV Parts");
    assert r[0] == 'f' && r[1] == 'p' && r[2] == 'v' && r[3] == ' ';
    assert r[4] == 'p' && r[5] == 'a' && r[6] == 'r' && r[7] == 't' && r[8] == 's';
  }

  /** An unlabelled category is headed by its hyphens turned to spaces: "rc-cars" becomes "rc cars". */
  lemma UnlabelledHeading()
    ensures Heading("rc-cars") == "rc cars"
  {
    assert "rc-cars" !in Labels();
    var h := Heading("rc-cars");
    assert h[0] == 'r' && h[1] == 'c' && h[2] == ' ' && h[3] == 'c';
  }

  /** An unlabelled category keeps its hyphens in the description: "Explore rc-cars". */
  lemma UnlabelledDescription()
    ensures Description("rc-cars") == "Explore rc-cars"
  {
    assert "rc-cars" !in Labels();
    var l := LowerString("rc-cars");
    assert l[0] == 'r' && l[1] == 'c' && l[2] == '-' && l[3] == 'c';
    assert l == "rc-cars";
  }
}
