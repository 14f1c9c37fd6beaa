/**
 * The three tables of the CRM (crm/models.py) and the constraints the
 * database keeps on them.
 *
 * Each table is a sequence of rows in primary-key order: keys come from a
 * per-table counter and are never reused, as with an auto-increment key.
 * Money is held in integer cents, which is exactly a `DecimalField` with two
 * decimal places. Timestamps are abstract clock ticks.
 */
module Models {
  import opened Wrappers
  import opened Text
  import opened Sequences

  /** `Customer`: a required name, a unique email, an optional phone of at most 20 characters. */
  datatype Customer = Customer(
    id: nat,
    name: string,
    email: string,
    phone: Option<string>,
    createdAt: int,
    updatedAt: int)

  /** `Product`: price in cents, stock a count that the database keeps non-negative. */
  datatype Product = Product(id: nat, name: string, price: int, stock: int)

  /**
   * `Order`: the owning customer (foreign key with cascading delete), the set of
   * linked products (many-to-many), the total in cents and the order date.
   */
  datatype Order = Order(
    id: nat,
    customerId: nat,
    productIds: set<nat>,
    totalAmount: int,
    orderDate: int)

  /** The whole store: the three tables and the next primary key of each. */
  datatype Db = Db(
    customers: seq<Customer>,
    products: seq<Product>,
    orders: seq<Order>,
    nextCustomerId: nat,
    nextProductId: nat,
    nextOrderId: nat)

  /** Primary keys start at 1. */
  const EmptyDb := Db([], [], [], 1, 1, 1)

  /** `max_length` of `Customer.phone`. */
  const PhoneMaxLength := 20

  function CustomerId(c: Customer): int { c.id }
  function ProductId(p: Product): int { p.id }
  function OrderId(o: Order): int { o.id }

  /** `Customer.objects.get(id=id)`: the row with that key, or none. */
  function FindCustomer(customers: seq<Customer>, id: nat): (r: Option<Customer>)
    ensures r.Some? ==> r.value in customers && r.value.id == id
    ensures r.None? <==> forall c :: c in customers ==> c.id != id
  {
    if customers == [] then None
    else if customers[0].id == id then Some(customers[0])
    else FindCustomer(customers[1..], id)
  }

  predicate HasProduct(products: seq<Product>, id: nat) {
    exists p :: p in products && p.id == id
  }

  /** The products linked to an order, in table order: `order.products.all()`. */
  function ProductsIn(products: seq<Product>, ids: set<nat>): seq<Product> {
    Where(products, (p: Product) => p.id in ids)
  }

  /** Python's `sum(product.price for product in products)`, in cents. */
  function SumPrices(products: seq<Product>): (total: int)
    ensures (forall p :: p in products ==> p.price >= 0) ==> total >= 0
    ensures products == [] ==> total == 0
  {
    if products == [] then 0 else products[0].price + SumPrices(products[1..])
  }

  /** `unique=True` on `Customer.email`: two rows with the same email are the same row. */
  ghost predicate EmailsUnique(customers: seq<Customer>) {
    forall c1, c2 :: c1 in customers && c2 in customers && c1.email == c2.email ==> c1 == c2
  }

  /** Column constraints of a customer row: name and email not blank, phone within its length. */
  ghost predicate CustomerRowValid(c: Customer) {
    && c.name != ""
    && c.email != ""
    && (c.phone.Some? ==> |c.phone.value| <= PhoneMaxLength)
  }

  /** `MinValueValidator(0.00)` on price and `PositiveIntegerField` for stock. */
  ghost predicate ProductRowValid(p: Product) {
    p.price >= 0 && p.stock >= 0
  }

  /**
   * An order row points at an existing customer and existing products, and its
   * total is the sum of the linked products' prices (prices never change once
   * stored, so this is also the price at the time of ordering).
   */
  ghost predicate OrderRowValid(db: Db, o: Order) {
    && FindCustomer(db.customers, o.customerId).Some?
    && (forall id :: id in o.productIds ==> HasProduct(db.products, id))
    && o.totalAmount == SumPrices(ProductsIn(db.products, o.productIds))
  }

  /** The invariant the store keeps between requests. */
  ghost predicate Valid(db: Db) {
    && StrictlyIncreasing(db.customers, CustomerId)
    && StrictlyIncreasing(db.products, ProductId)
    && StrictlyIncreasing(db.orders, OrderId)
    && (forall c :: c in db.customers ==> c.id < db.nextCustomerId && CustomerRowValid(c))
    && (forall p :: p in db.products ==> p.id < db.nextProductId && ProductRowValid(p))
    && (forall o :: o in db.orders ==> o.id < db.nextOrderId && OrderRowValid(db, o))
    && EmailsUnique(db.customers)
  }

  lemma EmptyDbValid()
    ensures Valid(EmptyDb)
  {
  }

  /** An order's total is never below zero. */
  lemma OrderTotalNonNegative(db: Db, o: Order)
    requires Valid(db) && o in db.orders
    ensures o.totalAmount >= 0
  {
    assert OrderRowValid(db, o);
    var linked := ProductsIn(db.products, o.productIds);
    assert forall p :: p in linked ==> p in db.products;
  }

  /** The names of an order's products, in table order. */
  function ProductNames(products: seq<Product>): (names: seq<string>)
    ensures |names| == |products|
    ensures forall k :: 0 <= k < |products| ==> names[k] == products[k].name
  {
    seq(|products|, k requires 0 <= k < |products| => products[k].name)
  }

  /**
   * `Order.__str__`: "Order {id} for {customer name} - " followed by the names
   * of the linked products joined with ", ".
   */
  function OrderString(db: Db, o: Order): (r: string)
    requires FindCustomer(db.customers, o.customerId).Some?
    ensures var owner := FindCustomer(db.customers, o.customerId).value;
      var head := "Order " + NatToString(o.id) + " for " + owner.name + " - ";
      && |head| <= |r| && r[..|head|] == head
      && r[|head|..] == Join(ProductNames(ProductsIn(db.products, o.productIds)), ", ")
  {
    var owner := FindCustomer(db.customers, o.customerId).value;
    var head := "Order " + NatToString(o.id) + " for " + owner.name + " - ";
    var joined := Join(ProductNames(ProductsIn(db.products, o.productIds)), ", ");
    var r := head + joined;
    assert r[..|head|] == head && r[|head|..] == joined;
    r
  }

  /**
   * After the heading, the string lists the linked products' names in table
   * order: the k-th name sits at its offset and is followed by ", " unless it
   * is the last one.
   */
  lemma OrderStringListsProducts(db: Db, o: Order, k: nat)
    requires FindCustomer(db.customers, o.customerId).Some?
    requires k < |ProductsIn(db.products, o.productIds)|
    ensures var owner := FindCustomer(db.customers, o.customerId).value;
      var head := "Order " + NatToString(o.id) + " for " + owner.name + " - ";
      var linked := ProductsIn(db.products, o.productIds);
      NamesListedAt(OrderString(db, o), |head|, linked, k)
  {
    var owner := FindCustomer(db.customers, o.customerId).value;
    var head := "Order " + NatToString(o.id) + " for " + owner.name + " - ";
    JoinedNamesLayout(OrderString(db, o), |head|, ProductsIn(db.products, o.productIds), k);
  }

  /**
   * From offset `h` on, `r` lists the names of `products` separated by ", ":
   * the k-th name sits at its offset and is followed by ", " unless it is the
   * last one, which ends the string.
   */
  ghost predicate NamesListedAt(r: string, h: nat, products: seq<Product>, k: nat)
    requires k < |products|
  {
    var at := h + Offset(ProductNames(products), ", ", k);
    var n := |products[k].name|;
    && at + n <= |r| && r[at..at + n] == products[k].name
    && (k + 1 < |products| ==> at + n + 2 <= |r| && r[at + n..at + n + 2] == ", ")
    && (k + 1 == |products| ==> at + n == |r|)
  }

  lemma JoinedNamesLayout(r: string, h: nat, products: seq<Product>, k: nat)
    requires h <= |r| && r[h..] == Join(ProductNames(products), ", ") && k < |products|
    ensures NamesListedAt(r, h, products, k)
  {
    var names := ProductNames(products);
    assert names[k] == products[k].name;
    JoinedSuffixPart(r, h, names, ", ", k);
    if k + 1 < |products| {
      JoinedSuffixSeparator(r, h, names, ", ", k);
    } else {
      JoinedSuffixEnd(r, h, names, ", ");
    }
  }

  /** The name of every product linked to the order appears in its string. */
  lemma OrderStringMentionsProducts(db: Db, o: Order)
    requires FindCustomer(db.customers, o.customerId).Some?
    ensures forall p :: p in db.products && p.id in o.productIds ==> OccursIn(p.name, OrderString(db, o))
  {
    var owner := FindCustomer(db.customers, o.customerId).value;
    var head := "Order " + NatToString(o.id) + " for " + owner.name + " - ";
    var linked := ProductsIn(db.products, o.productIds);
    var r := OrderString(db, o);
    forall p | p in db.products && p.id in o.productIds ensures OccursIn(p.name, r) {
      var k :| 0 <= k < |linked| && linked[k] == p;
      OrderStringListsProducts(db, o, k);
      assert NamesListedAt(r, |head|, linked, k);
      assert OccursAt(p.name, r, |head| + Offset(ProductNames(linked), ", ", k));
    }
  }
}
