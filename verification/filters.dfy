/**
 * The filter sets of crm/filters.py as selections over the tables of the
 * store. A filter set applies each of its filters that was given a value to
 * the result of the previous one, so its result is the rows satisfying all of
 * them, in table order. Following django-filter, a filter whose value is
 * missing (or, for a text filter, empty) is skipped. Values arrive as the
 * filter's form has cleaned them: text already stripped of surrounding
 * blanks, bounds already in cents or whole units.
 */
module Filters {
  import opened Wrappers
  import opened Text
  import opened Sequences
  import opened Models

  /** A text filter takes part only when it was given a non-empty value. */
  predicate Given(v: Option<string>) {
    v.Some? && v.value != ""
  }

  /** The meaning of `icontains`: after case folding, `value` occurs in `field`. */
  ghost predicate ContainsFolded(field: string, value: string) {
    OccursIn(LowerString(value), LowerString(field))
  }

  // ===========================================================================
  // CustomerFilter

  /** `CustomerFilter.filter_phone`: the customers whose phone starts with `value`. */
  function FilterPhone(customers: seq<Customer>, value: string): (r: seq<Customer>)
    ensures IsSubsequence(r, customers)
    ensures forall c :: c in r <==>
      c in customers && c.phone.Some? && |value| <= |c.phone.value|
      && (forall i :: 0 <= i < |value| ==> c.phone.value[i] == value[i])
  {
    var r := Where(customers, (c: Customer) => c.phone.Some? && IsPrefix(value, c.phone.value));
    assert forall c :: c in r <==>
      c in customers && c.phone.Some? && |value| <= |c.phone.value|
      && (forall i :: 0 <= i < |value| ==> c.phone.value[i] == value[i]) by {
      forall c | c in customers && c.phone.Some? && |value| <= |c.phone.value|
        ensures IsPrefix(value, c.phone.value)
            <==> (forall i :: 0 <= i < |value| ==> c.phone.value[i] == value[i])
      {
        if forall i :: 0 <= i < |value| ==> c.phone.value[i] == value[i] {
          assert c.phone.value[..|value|] == value;
        }
      }
    }
    r
  }

  /** The parameters of `CustomerFilter`; timestamps are clock ticks. */
  datatype CustomerQuery = CustomerQuery(
    name: Option<string>,
    email: Option<string>,
    phonePattern: Option<string>,
    createdAtGte: Option<int>,
    createdAtLte: Option<int>)

  /** An `icontains` filter on a text field: passes when skipped or when the value occurs. */
  predicate TextPasses(v: Option<string>, field: string)
    ensures TextPasses(v, field) <==> (Given(v) ==> ContainsFolded(field, v.value))
  {
    !Given(v) || ContainsIgnoringCase(field, v.value)
  }

  /** A `gte` filter: passes when skipped or when `x` is at least the bound. */
  predicate AtLeast(bound: Option<int>, x: int) {
    bound.None? || x >= bound.value
  }

  /** An `lte` filter: passes when skipped or when `x` is at most the bound. */
  predicate AtMost(bound: Option<int>, x: int) {
    bound.None? || x <= bound.value
  }

  /** A customer satisfies every filter of the query that takes part. */
  ghost predicate CustomerSelected(q: CustomerQuery, c: Customer) {
    && (Given(q.name) ==> ContainsFolded(c.name, q.name.value))
    && (Given(q.email) ==> ContainsFolded(c.email, q.email.value))
    && (Given(q.phonePattern) ==> c.phone.Some? && IsPrefix(q.phonePattern.value, c.phone.value))
    && (q.createdAtGte.Some? ==> c.createdAt >= q.createdAtGte.value)
    && (q.createdAtLte.Some? ==> c.createdAt <= q.createdAtLte.value)
  }

  /** The fields `name` and `email`. */
  function FilterCustomerText(customers: seq<Customer>, q: CustomerQuery): (r: seq<Customer>)
    ensures IsSubsequence(r, customers)
    ensures forall c :: c in r <==>
      c in customers && (Given(q.name) ==> ContainsFolded(c.name, q.name.value))
      && (Given(q.email) ==> ContainsFolded(c.email, q.email.value))
  {
    var byName := Where(customers, (c: Customer) => TextPasses(q.name, c.name));
    var r := Where(byName, (c: Customer) => TextPasses(q.email, c.email));
    SubsequenceTransitive(r, byName, customers);
    r
  }

  /** The field `phone_pattern`, through `filter_phone`. */
  function FilterCustomerPhone(customers: seq<Customer>, q: CustomerQuery): (r: seq<Customer>)
    ensures IsSubsequence(r, customers)
    ensures forall c :: c in r <==>
      c in customers && (Given(q.phonePattern) ==> c.phone.Some? && IsPrefix(q.phonePattern.value, c.phone.value))
  {
    if Given(q.phonePattern) then
      var r := FilterPhone(customers, q.phonePattern.value);
      assert forall c :: c in r ==> IsPrefix(q.phonePattern.value, c.phone.value) by {
        forall c | c in r ensures IsPrefix(q.phonePattern.value, c.phone.value) {
          assert c.phone.value[..|q.phonePattern.value|] == q.phonePattern.value;
        }
      }
      r
    else
      SubsequenceReflexive(customers);
      customers
  }

  /** `CustomerFilter(query, queryset=customers).qs`, without the ordering. */
  function FilterCustomers(customers: seq<Customer>, q: CustomerQuery): (r: seq<Customer>)
    ensures IsSubsequence(r, customers)
    ensures forall c :: c in r <==> c in customers && CustomerSelected(q, c)
  {
    var byText := FilterCustomerText(customers, q);
    var byPhone := FilterCustomerPhone(byText, q);
    var from := Where(byPhone, (c: Customer) => AtLeast(q.createdAtGte, c.createdAt));
    var r := Where(from, (c: Customer) => AtMost(q.createdAtLte, c.createdAt));
    SubsequenceTransitive(byPhone, byText, customers);
    SubsequenceTransitive(from, byPhone, customers);
    SubsequenceTransitive(r, from, customers);
    r
  }

  // ===========================================================================
  // ProductFilter

  /** The fixed threshold of `stock_lt_10`. */
  const LowStockThreshold := 10

  /** `ProductFilter.filter_stock_lt_10`: ignores its value and keeps the products with stock below 10. */
  function FilterStockLt10(products: seq<Product>, value: int): (r: seq<Product>)
    ensures IsSubsequence(r, products)
    ensures forall p :: p in r <==> p in products && p.stock < LowStockThreshold
  {
    Where(products, (p: Product) => p.stock < LowStockThreshold)
  }

  /** The value given to `stock_lt_10` makes no difference. */
  lemma StockLt10IgnoresValue(products: seq<Product>, v1: int, v2: int)
    ensures FilterStockLt10(products, v1) == FilterStockLt10(products, v2)
  {
  }

  /** The parameters of `ProductFilter`; prices in cents. */
  datatype ProductQuery = ProductQuery(
    name: Option<string>,
    priceGte: Option<int>,
    priceLte: Option<int>,
    stockGte: Option<int>,
    stockLte: Option<int>,
    stockLt10: Option<int>)

  ghost predicate ProductSelected(q: ProductQuery, p: Product) {
    && (Given(q.name) ==> ContainsFolded(p.name, q.name.value))
    && (q.priceGte.Some? ==> p.price >= q.priceGte.value)
    && (q.priceLte.Some? ==> p.price <= q.priceLte.value)
    && (q.stockGte.Some? ==> p.stock >= q.stockGte.value)
    && (q.stockLte.Some? ==> p.stock <= q.stockLte.value)
    && (q.stockLt10.Some? ==> p.stock < LowStockThreshold)
  }

  /** The fields `price__gte`, `price__lte`, `stock__gte` and `stock__lte`. */
  function FilterProductRanges(products: seq<Product>, q: ProductQuery): (r: seq<Product>)
    ensures IsSubsequence(r, products)
    ensures forall p :: p in r <==>
      (p in products && AtLeast(q.priceGte, p.price) && AtMost(q.priceLte, p.price)
       && AtLeast(q.stockGte, p.stock) && AtMost(q.stockLte, p.stock))
  {
    var priceFrom := Where(products, (p: Product) => AtLeast(q.priceGte, p.price));
    var priceTo := Where(priceFrom, (p: Product) => AtMost(q.priceLte, p.price));
    var stockFrom := Where(priceTo, (p: Product) => AtLeast(q.stockGte, p.stock));
    var r := Where(stockFrom, (p: Product) => AtMost(q.stockLte, p.stock));
    SubsequenceTransitive(priceTo, priceFrom, products);
    SubsequenceTransitive(stockFrom, priceTo, products);
    SubsequenceTransitive(r, stockFrom, products);
    r
  }

  /** `ProductFilter(query, queryset=products).qs`, without the ordering. */
  function FilterProducts(products: seq<Product>, q: ProductQuery): (r: seq<Product>)
    ensures IsSubsequence(r, products)
    ensures forall p :: p in r <==> p in products && ProductSelected(q, p)
  {
    var byName := Where(products, (p: Product) => TextPasses(q.name, p.name));
    var ranged := FilterProductRanges(byName, q);
    SubsequenceReflexive(ranged);
    var r := if q.stockLt10.Some? then FilterStockLt10(ranged, q.stockLt10.value) else ranged;
    SubsequenceTransitive(ranged, byName, products);
    SubsequenceTransitive(r, ranged, products);
    r
  }

  // ===========================================================================
  // OrderFilter

  /**
   * `OrderFilter.filter_product_name`: the orders linked to at least one
   * product whose name contains `value`, ignoring case.
   */
  function FilterProductName(orders: seq<Order>, products: seq<Product>, value: string): (r: seq<Order>)
    ensures IsSubsequence(r, orders)
    ensures forall o :: o in r <==>
      o in orders && exists p :: p in products && p.id in o.productIds && ContainsFolded(p.name, value)
  {
    Where(orders, (o: Order) =>
      exists p :: p in products && p.id in o.productIds && ContainsIgnoringCase(p.name, value))
  }

  /** `OrderFilter.filter_product_id`: the orders linked to the product with key `value`. */
  function FilterProductId(orders: seq<Order>, value: int): (r: seq<Order>)
    ensures IsSubsequence(r, orders)
    ensures forall o :: o in r <==> o in orders && value in o.productIds
  {
    Where(orders, (o: Order) => value in o.productIds)
  }

  /** The parameters of `OrderFilter`; totals in cents, dates as clock ticks. */
  datatype OrderQuery = OrderQuery(
    customerName: Option<string>,
    productName: Option<string>,
    totalAmountGte: Option<int>,
    totalAmountLte: Option<int>,
    orderDateGte: Option<int>,
    orderDateLte: Option<int>,
    productId: Option<int>)

  /** `customer__name__icontains`: skipped, or the owning customer's name contains the value. */
  predicate OwnerNamePasses(customers: seq<Customer>, o: Order, v: Option<string>)
    ensures OwnerNamePasses(customers, o, v) <==> (Given(v) ==>
      exists c :: c in customers && c.id == o.customerId && ContainsFolded(c.name, v.value))
  {
    !Given(v) || exists c :: c in customers && c.id == o.customerId && TextPasses(v, c.name)
  }

  ghost predicate OrderSelected(q: OrderQuery, customers: seq<Customer>, products: seq<Product>, o: Order) {
    && (Given(q.customerName) ==> exists c :: c in customers && c.id == o.customerId
                                            && ContainsFolded(c.name, q.customerName.value))
    && (Given(q.productName) ==> exists p :: p in products && p.id in o.productIds
                                           && ContainsFolded(p.name, q.productName.value))
    && (q.totalAmountGte.Some? ==> o.totalAmount >= q.totalAmountGte.value)
    && (q.totalAmountLte.Some? ==> o.totalAmount <= q.totalAmountLte.value)
    && (q.orderDateGte.Some? ==> o.orderDate >= q.orderDateGte.value)
    && (q.orderDateLte.Some? ==> o.orderDate <= q.orderDateLte.value)
    && (q.productId.Some? ==> q.productId.value in o.productIds)
  }

  /** The fields `customer_name` and `product_name`, which look through the order's relations. */
  function FilterOrderRelations(db: Db, orders: seq<Order>, q: OrderQuery): (r: seq<Order>)
    ensures IsSubsequence(r, orders)
    ensures forall o :: o in r <==>
      (&& o in orders
       && (Given(q.customerName) ==> exists c :: c in db.customers && c.id == o.customerId
                                               && ContainsFolded(c.name, q.customerName.value))
       && (Given(q.productName) ==> exists p :: p in db.products && p.id in o.productIds
                                              && ContainsFolded(p.name, q.productName.value)))
  {
    var byCustomer := Where(orders, (o: Order) => OwnerNamePasses(db.customers, o, q.customerName));
    SubsequenceReflexive(byCustomer);
    var r := if Given(q.productName)
      then FilterProductName(byCustomer, db.products, q.productName.value) else byCustomer;
    SubsequenceTransitive(r, byCustomer, orders);
    r
  }

  /** The fields `total_amount__gte`, `total_amount__lte`, `order_date__gte` and `order_date__lte`. */
  function FilterOrderRanges(orders: seq<Order>, q: OrderQuery): (r: seq<Order>)
    ensures IsSubsequence(r, orders)
    ensures forall o :: o in r <==>
      (o in orders && AtLeast(q.totalAmountGte, o.totalAmount) && AtMost(q.totalAmountLte, o.totalAmount)
       && AtLeast(q.orderDateGte, o.orderDate) && AtMost(q.orderDateLte, o.orderDate))
  {
    var totalFrom := Where(orders, (o: Order) => AtLeast(q.totalAmountGte, o.totalAmount));
    var totalTo := Where(totalFrom, (o: Order) => AtMost(q.totalAmountLte, o.totalAmount));
    var dateFrom := Where(totalTo, (o: Order) => AtLeast(q.orderDateGte, o.orderDate));
    var r := Where(dateFrom, (o: Order) => AtMost(q.orderDateLte, o.orderDate));
    SubsequenceTransitive(totalTo, totalFrom, orders);
    SubsequenceTransitive(dateFrom, totalTo, orders);
    SubsequenceTransitive(r, dateFrom, orders);
    r
  }

  /** `OrderFilter(query, queryset=orders).qs`, without the ordering; each order once. */
  function FilterOrders(db: Db, q: OrderQuery): (r: seq<Order>)
    ensures IsSubsequence(r, db.orders)
    ensures forall o :: o in r <==> o in db.orders && OrderSelected(q, db.customers, db.products, o)
  {
    var related := FilterOrderRelations(db, db.orders, q);
    var ranged := FilterOrderRanges(related, q);
    SubsequenceReflexive(ranged);
    var r := if q.productId.Some? then FilterProductId(ranged, q.productId.value) else ranged;
    SubsequenceTransitive(ranged, related, db.orders);
    SubsequenceTransitive(r, ranged, db.orders);
    r
  }

  // ===========================================================================
  // Ordering

  /** One ordering key: a declared field, ascending or (with a leading '-') descending. */
  datatype SortKey = SortKey(field: string, descending: bool)

  const CustomerOrderingFields: seq<string> := ["name", "email", "created_at"]
  const ProductOrderingFields: seq<string> := ["name", "price", "stock"]
  const OrderOrderingFields: seq<string> := ["order_date", "total_amount"]

  /** One term of an `order_by` value, checked against the declared fields. */
  function ParseOrderingTerm(fields: seq<string>, term: string): (r: Option<SortKey>)
    ensures r.Some? <==> term in fields || (|term| > 0 && term[0] == '-' && term[1..] in fields)
    ensures r.Some? ==> r.value.field in fields
    ensures r.Some? ==> term == (if r.value.descending then "-" else "") + r.value.field
  {
    if term in fields then Some(SortKey(term, false))
    else if |term| > 0 && term[0] == '-' && term[1..] in fields then
      assert term == "-" + term[1..];
      Some(SortKey(term[1..], true))
    else None
  }

  /** An `order_by` value is accepted only when every term names a declared field. */
  function ParseOrdering(fields: seq<string>, terms: seq<string>): (r: Option<seq<SortKey>>)
    ensures r.Some? <==> forall t :: t in terms ==> ParseOrderingTerm(fields, t).Some?
    ensures r.Some? ==> |r.value| == |terms|
    ensures r.Some? ==> forall k :: 0 <= k < |terms| ==> r.value[k] == ParseOrderingTerm(fields, terms[k]).value
  {
    if terms == [] then Some([])
    else
      match (ParseOrderingTerm(fields, terms[0]), ParseOrdering(fields, terms[1..]))
      case (Some(key), Some(rest)) => Some([key] + rest)
      case _ =>
        assert forall t :: t in terms[1..] ==> t in terms;
        None
  }

  /** Customers sort only by name, email or creation time. */
  lemma CustomerOrderingFieldsOnly(terms: seq<string>)
    requires ParseOrdering(CustomerOrderingFields, terms).Some?
    ensures forall key :: key in ParseOrdering(CustomerOrderingFields, terms).value ==>
      key.field == "name" || key.field == "email" || key.field == "created_at"
  {
    var keys := ParseOrdering(CustomerOrderingFields, terms).value;
    forall key | key in keys
      ensures key.field == "name" || key.field == "email" || key.field == "created_at"
    {
      var k :| 0 <= k < |keys| && keys[k] == key;
      assert key.field in CustomerOrderingFields;
    }
  }
}
