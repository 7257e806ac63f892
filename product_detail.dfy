/**
 * The product page: the catalogue lookup by id, the quantity selector (a typed
 * value, a `+` and a `-` button, kept within `[1, stock]`), the add-to-cart
 * button and the category link.
 */
module ProductDetail {
  import opened Wrappers
  import opened Strings
  import CartStore

  /**
   * A catalogue entry; the price is in paise. The description, specifications
   * and features are display text and are not modelled.
   */
  datatype Product = Product(id: string, name: string, price: int, image: string, category: string, stock: int)

  /** The product photos are served by Unsplash, cropped to 500 pixels wide. */
  function Unsplash(photo: string): string
  {
    "https://images.unsplash.com/photo-" + photo + "?q=80&w=500&auto=format&fit=crop"
  }

  /** The two products the page knows. */
  function Catalog(): seq<Product>
  {
    [ Product("1", "3D Printed RC Airplane Wing", 149999, Unsplash("1615554952178-1db132df8656"), "Fixed Wings", 15),
      Product("2", "Custom Drone Frame", 99999, Unsplash("1506947411487-a56738267384"), "Drone Parts", 8) ]
  }

  /** The position `products.find(product => product.id === id)` stops at: the first entry with that id, or -1. */
  function FindIndex(products: seq<Product>, id: string): (k: int)
    ensures -1 <= k < |products|
    ensures k == -1 <==> forall i :: 0 <= i < |products| ==> products[i].id != id
    ensures k != -1 ==> products[k].id == id && forall j :: 0 <= j < k ==> products[j].id != id
  {
    if products == [] then -1
    else if products[0].id == id then 0
    else
      var k := FindIndex(products[1..], id);
      if k == -1 then -1 else k + 1
  }

  /** `getProductById`: the first catalogue entry with that id, or nothing. */
  function GetProductById(id: string): (r: Option<Product>)
    ensures r.None? <==> forall i :: 0 <= i < |Catalog()| ==> Catalog()[i].id != id
    ensures r.Some? ==> r.value in Catalog() && r.value.id == id
  {
    var k := FindIndex(Catalog(), id);
    if k == -1 then None else Some(Catalog()[k])
  }

  /** The lookup finds product "1" and product "2", and nothing else. */
  lemma CatalogLookup(id: string)
    ensures GetProductById("1") == Some(Catalog()[0]) && Catalog()[0].stock == 15
    ensures GetProductById("2") == Some(Catalog()[1]) && Catalog()[1].stock == 8
    ensures id != "1" && id != "2" <==> GetProductById(id) == None
  {
    assert FindIndex(Catalog(), "1") == 0;
    assert FindIndex(Catalog(), "2") == 1;
  }

  /** What the page shows for the route parameter. */
  datatype View = MissingId | NotFound | Found(product: Product)

  /** An absent or empty route parameter shows the missing-id message. */
  function PageFor(productId: Option<string>): (v: View)
    ensures v.MissingId? <==> productId.None? || productId.value == ""
    ensures v.Found? <==> productId.Some? && productId.value != "" && GetProductById(productId.value).Some?
    ensures v.Found? ==> v.product.id == productId.value
  {
    if productId.None? || productId.value == "" then MissingId
    else
      match GetProductById(productId.value)
      case None => NotFound
      case Some(product) => Found(product)
  }

  // ---- parseInt ----

  /** White space skipped by `parseInt`: the ECMAScript white space and line terminators. */
  predicate IsSpace(c: char)
  {
    c == '\t' || c == '\n' || c == '\U{000B}' || c == '\U{000C}' || c == '\r' || c == ' '
    || c == '\U{00A0}' || c == '\U{1680}' || ('\U{2000}' <= c <= '\U{200A}')
    || c == '\U{2028}' || c == '\U{2029}' || c == '\U{202F}' || c == '\U{205F}'
    || c == '\U{3000}' || c == '\U{FEFF}'
  }

  function TrimStart(s: string): (r: string)
    ensures |r| <= |s| && r == s[|s| - |r|..]
    ensures forall i :: 0 <= i < |s| - |r| ==> IsSpace(s[i])
    ensures r == [] || !IsSpace(r[0])
  {
    if s != [] && IsSpace(s[0]) then TrimStart(s[1..]) else s
  }

  /** The value of `c` as a digit in base `radix` (10 or 16), or -1. */
  function DigitValue(c: char, radix: int): (d: int)
    ensures d == -1 || 0 <= d < radix
  {
    if '0' <= c <= '9' && (c as int - '0' as int) < radix then c as int - '0' as int
    else if radix == 16 && 'a' <= c <= 'f' then c as int - 'a' as int + 10
    else if radix == 16 && 'A' <= c <= 'F' then c as int - 'A' as int + 10
    else -1
  }

  /** The length of the leading run of digits. */
  function DigitRun(s: string, radix: int): (n: nat)
    ensures n <= |s|
    ensures forall i :: 0 <= i < n ==> DigitValue(s[i], radix) >= 0
    ensures n < |s| ==> DigitValue(s[n], radix) < 0
  {
    if s != [] && DigitValue(s[0], radix) >= 0 then 1 + DigitRun(s[1..], radix) else 0
  }

  /** The value of a run of digits, most significant first. */
  function Value(digits: string, radix: int): (v: int)
    ensures radix >= 0 && (forall i :: 0 <= i < |digits| ==> DigitValue(digits[i], radix) >= 0) ==> v >= 0
  {
    if digits == [] then 0
    else Value(digits[..|digits| - 1], radix) * radix + DigitValue(digits[|digits| - 1], radix)
  }

  /** The digits at the start of `u`: base 16 after `0x`/`0X`, base 10 otherwise; `None` when there are none. */
  function ReadDigits(u: string): (r: Option<int>)
    ensures r.Some? ==> r.value >= 0
  {
    if |u| >= 2 && u[0] == '0' && (u[1] == 'x' || u[1] == 'X') then ReadRun(u[2..], 16) else ReadRun(u, 10)
  }

  /** The value of the leading run of base-`radix` digits of `body`; `None` when it is empty. */
  function ReadRun(body: string, radix: int): (r: Option<int>)
    requires radix >= 0
    ensures r.None? <==> body == [] || DigitValue(body[0], radix) < 0
    ensures r.Some? ==> r.value >= 0
  {
    var n := DigitRun(body, radix);
    if n == 0 then None else Some(Value(body[..n], radix))
  }

  /**
   * `parseInt(s)`: skip leading white space, take an optional sign, then read
   * digits up to the first non-digit; `None` (NaN) when no digit is read.
   */
  function ParseInt(s: string): (r: Option<int>)
    ensures TrimStart(s) == [] ==> r.None?
    ensures r.Some? && r.value < 0 ==> TrimStart(s)[0] == '-'
    ensures r.Some? && TrimStart(s)[0] == '-' ==> r.value <= 0
  {
    var t := TrimStart(s);
    if t != [] && t[0] == '-' then
      match ReadDigits(t[1..])
      case None => None
      case Some(magnitude) => Some(-magnitude)
    else if t != [] && t[0] == '+' then ReadDigits(t[1..])
    else ReadDigits(t)
  }

  function DecimalDigit(d: int): char
    requires 0 <= d < 10
  {
    ('0' as int + d) as char
  }

  /** The decimal numeral of `n`, as a number input holds it. */
  function Show(n: nat): (s: string)
    ensures |s| >= 1
    ensures forall i :: 0 <= i < |s| ==> '0' <= s[i] <= '9'
    ensures n >= 10 ==> s[0] != '0'
  {
    if n < 10 then [DecimalDigit(n)] else Show(n / 10) + [DecimalDigit(n % 10)]
  }

  lemma {:induction false} ValueShow(n: nat)
    ensures Value(Show(n), 10) == n
  {
    var s := Show(n);
    if n >= 10 {
      ValueShow(n / 10);
      assert s[..|s| - 1] == Show(n / 10);
    } else {
      assert s[..0] == [];
    }
  }

  lemma {:induction false} DigitRunAll(s: string)
    requires forall i :: 0 <= i < |s| ==> '0' <= s[i] <= '9'
    ensures DigitRun(s, 10) == |s|
  {
    if s != [] {
      DigitRunAll(s[1..]);
    }
  }

  /** A numeral's digits read back as its number. */
  lemma ReadShow(n: nat)
    ensures ReadDigits(Show(n)) == Some(n)
  {
    var s := Show(n);
    assert !(|s| >= 2 && s[0] == '0');
    DigitRunAll(s);
    assert s[..|s|] == s;
    ValueShow(n);
  }

  /** Reading back a numeral gives its number. */
  lemma ParseShow(n: nat)
    ensures ParseInt(Show(n)) == Some(n)
  {
    var s := Show(n);
    ReadShow(n);
    assert '0' <= s[0] <= '9';
    ParsePlain(s);
  }

  /** Reading back a negated numeral gives the negated number. */
  lemma ParseShowNegated(n: nat)
    ensures ParseInt("-" + Show(n)) == Some(-(n as int))
  {
    ReadShow(n);
    ParseNegated(Show(n));
  }

  lemma ParsePlain(s: string)
    requires s != [] && '0' <= s[0] <= '9'
    ensures ParseInt(s) == ReadDigits(s)
  {
    assert !IsSpace(s[0]);
    assert TrimStart(s) == s;
  }

  lemma ParseNegated(s: string)
    requires ReadDigits(s).Some?
    ensures ParseInt("-" + s) == Some(-ReadDigits(s).value)
  {
    var m := "-" + s;
    assert m[0] == '-' && m[1..] == s;
    assert TrimStart(m) == m;
  }

  /** Input that holds no digit after white space and sign is NaN. */
  lemma ParseNaN()
    ensures ParseInt("") == None
    ensures ParseInt(" -") == None
  {
    assert " -"[1..] == "-";
    assert "-"[1..] == "";
  }

  // ---- the quantity selector ----

  /** The three events of the selector. */
  datatype Event = Typed(text: string) | Increment | Decrement

  /** The quantity after one event, for a product with `stock` units. */
  function Step(quantity: int, stock: int, e: Event): (q: int)
    ensures 1 <= quantity <= stock ==> 1 <= q <= stock
    ensures q == quantity || (e.Increment? && q == quantity + 1) || (e.Decrement? && q == quantity - 1)
            || (e.Typed? && Some(q) == ParseInt(e.text))
  {
    match e
    case Typed(text) =>
      var v := ParseInt(text);
      if v.Some? && v.value > 0 && v.value <= stock then v.value else quantity
    case Increment => if quantity < stock then quantity + 1 else quantity
    case Decrement => if quantity > 1 then quantity - 1 else quantity
  }

  /** The quantity after a sequence of events. */
  function Steps(quantity: int, stock: int, events: seq<Event>): (q: int)
    ensures 1 <= quantity <= stock && (forall i :: 0 <= i < |events| ==> events[i].Increment?) ==>
              q == if quantity + |events| <= stock then quantity + |events| else stock
    ensures 1 <= quantity <= stock && (forall i :: 0 <= i < |events| ==> events[i].Decrement?) ==>
              q == if quantity - |events| >= 1 then quantity - |events| else 1
    decreases |events|
  {
    if events == [] then quantity else Steps(Step(quantity, stock, events[0]), stock, events[1..])
  }

  /** From any quantity within `[1, stock]`, any sequence of events keeps the quantity within `[1, stock]`. */
  lemma {:induction false} StepsStayInRange(quantity: int, stock: int, events: seq<Event>)
    requires 1 <= quantity <= stock
    ensures 1 <= Steps(quantity, stock, events) <= stock
    decreases |events|
  {
    if events != [] {
      StepsStayInRange(Step(quantity, stock, events[0]), stock, events[1..]);
    }
  }

  /** The cart line a catalogue product becomes: a plain item without print settings. */
  function AsCartItem(p: Product): (item: CartStore.Item)
    ensures item.id == p.id && item.price == p.price && !item.isCustomPrint && item.printSettings.None?
  {
    CartStore.Item(p.id, p.name, p.price, p.image, p.category, false, None)
  }

  /** The product page's state: the product shown and the selected quantity. */
  class ProductPage {
    const product: Product
    var quantity: int

    ghost predicate InRange()
      reads this
    {
      1 <= quantity <= product.stock
    }

    constructor (product: Product)
      ensures this.product == product && quantity == 1
      ensures product.stock >= 1 ==> InRange()
    {
      this.product := product;
      quantity := 1;
    }

    /** A typed value is taken only when it reads as an integer in `[1, stock]`. */
    method HandleQuantityChange(text: string)
      modifies this
      ensures var v := ParseInt(text);
              quantity == if v.Some? && 1 <= v.value <= product.stock then v.value else old(quantity)
      ensures quantity == Step(old(quantity), product.stock, Typed(text))
      ensures old(InRange()) ==> InRange()
    {
      var value := ParseInt(text);
      if value.Some? && value.value > 0 && value.value <= product.stock {
        quantity := value.value;
      }
    }

    /** `+`: one more while below the stock; otherwise reports that the maximum is reached. */
    method IncrementQuantity() returns (maximumReached: bool)
      modifies this
      ensures maximumReached <==> old(quantity) >= product.stock
      ensures quantity == if maximumReached then old(quantity) else old(quantity) + 1
      ensures quantity == Step(old(quantity), product.stock, Increment)
      ensures old(InRange()) ==> InRange()
    {
      if quantity < product.stock {
        quantity := quantity + 1;
        maximumReached := false;
      } else {
        maximumReached := true;
      }
    }

    /** `-`: one fewer while above 1. */
    method DecrementQuantity()
      modifies this
      ensures quantity == if old(quantity) > 1 then old(quantity) - 1 else old(quantity)
      ensures quantity == Step(old(quantity), product.stock, Decrement)
      ensures old(InRange()) ==> InRange()
    {
      if quantity > 1 {
        quantity := quantity - 1;
      }
    }

    /**
     * The add-to-cart button: disabled when the stock is 0, otherwise it adds
     * the product with the selected quantity.
     */
    method ClickAddToCart(store: CartStore.CartProvider) returns (clicked: bool)
      requires store.Valid()
      modifies store
      ensures clicked <==> product.stock != 0
      ensures clicked ==> store.cart == CartStore.Added(old(store.cart), AsCartItem(product), quantity)
      ensures !clicked ==> store.cart == old(store.cart) && store.storage == old(store.storage)
      ensures store.Valid()
    {
      clicked := product.stock != 0;
      if clicked {
        store.AddItem(AsCartItem(product), quantity);
      }
    }
  }

  // ---- the category link ----

  /** `category.toLowerCase().replace(' ', '-')`: only the first space becomes a hyphen. */
  function CategorySlug(category: string): (slug: string)
    ensures |slug| == |category|
    ensures ' ' in category ==> slug[IndexOf(category, ' ')] == '-'
  {
    LowerKeepsSpaces(category);
    ReplaceFirst(LowerString(category), ' ', '-')
  }

  lemma {:induction false} LowerKeepsSpaces(s: string)
    ensures IndexOf(LowerString(s), ' ') == IndexOf(s, ' ')
  {
    if s != [] {
      LowerKeepsSpaces(s[1..]);
      assert LowerString(s)[1..] == LowerString(s[1..]);
    }
  }

  /**
   * The slug has the category's length; the first space becomes `-`, every
   * other character is lower-cased (later spaces stay spaces).
   */
  lemma SlugAt(category: string, i: int)
    requires 0 <= i < |category|
    ensures |CategorySlug(category)| == |category|
    ensures CategorySlug(category)[i] == if i == IndexOf(category, ' ') then '-' else Lower(category[i])
  {
    LowerKeepsSpaces(category);
  }
}
