/**
 * The store as the mutations of crm/schema.py change it: the three tables and
 * their key counters are fields that each mutation updates in place. Every
 * method is proved to leave the store exactly as the matching transition of
 * Schema describes and to keep the store's invariant.
 */
module Store {
  import opened Wrappers
  import opened Sequences
  import opened Models
  import opened Validation
  import opened Schema

  class Database {
    var customers: seq<Customer>
    var products: seq<Product>
    var orders: seq<Order>
    var nextCustomerId: nat
    var nextProductId: nat
    var nextOrderId: nat

    /** The fields as one value of the pure model. */
    function State(): Db
      reads this
    {
      Db(customers, products, orders, nextCustomerId, nextProductId, nextOrderId)
    }

    ghost predicate Valid()
      reads this
    {
      Models.Valid(State())
    }

    /** A fresh, empty database. */
    constructor()
      ensures State() == EmptyDb
      ensures Valid()
    {
      customers, products, orders := [], [], [];
      nextCustomerId, nextProductId, nextOrderId := 1, 1, 1;
      EmptyDbValid();
    }

    /** `Customer.objects.create(...)`: inserts a row under the next key. */
    method InsertCustomer(name: string, email: string, phone: Option<string>, now: int)
      returns (c: Customer)
      modifies this
      ensures c == Customer(old(nextCustomerId), name, email, phone, now, now)
      ensures customers == old(customers) + [c] && nextCustomerId == old(nextCustomerId) + 1
      ensures products == old(products) && orders == old(orders)
      ensures nextProductId == old(nextProductId) && nextOrderId == old(nextOrderId)
    {
      c := Customer(nextCustomerId, name, email, phone, now, now);
      customers := customers + [c];
      nextCustomerId := nextCustomerId + 1;
    }

    /** `CreateCustomer.mutate`: the checks in order, then the insertion. */
    method CreateCustomer(input: CustomerInput, now: int) returns (reply: CustomerReply)
      requires Valid()
      modifies this
      ensures Valid()
      ensures CustomerOutcome(State(), reply) == Schema.CreateCustomer(old(State()), input, now)
    {
      ghost var before := State();
      if input.name == "" || input.email == "" {
        return CustomerReply(None, RequiredFieldsMessage);
      }
      if NameTaken(customers, input.name) {
        return CustomerReply(None, DuplicateNameMessage(input.name));
      }
      if EmailTaken(customers, input.email) {
        return CustomerReply(None, DuplicateEmailMessage(input.email));
      }
      if input.phone.Some? && input.phone.value != "" && !IsValidPhone(input.phone.value) {
        return CustomerReply(None, InvalidPhoneMessage);
      }
      var c := InsertCustomer(input.name, input.email, input.phone, now);
      reply := CustomerReply(Some(c), CustomerCreatedMessage(input.name));
      CreateCustomerKeepsValid(before, input, now);
    }

    /**
     * `BulkCreateCustomers.mutate`: runs CreateCustomer on each input in turn,
     * collecting the created customers and the error messages.
     */
    method BulkCreateCustomers(inputs: seq<CustomerInput>, now: int) returns (reply: BulkReply)
      requires Valid()
      modifies this
      ensures Valid()
      ensures BulkOutcome(State(), reply) == Schema.BulkCreateCustomers(old(State()), inputs, now)
    {
      if |inputs| == 0 {
        return BulkReply([], [NoBulkDataMessage]);
      }
      ghost var before := State();
      var created: seq<Customer> := [];
      var errors: seq<string> := [];
      var i := 0;
      while i < |inputs|
        invariant 0 <= i <= |inputs|
        invariant Valid()
        invariant BulkOutcome(State(), BulkReply(created, errors)) == BulkLoop(before, inputs[..i], now)
      {
        ghost var collected := BulkReply(created, errors);
        var result := CreateCustomer(inputs[i], now);
        if result.customer.Some? {
          created := created + [result.customer.value];
        } else {
          errors := errors + [result.message];
        }
        assert BulkReply(created, errors) == Collect(collected, result);
        BulkLoopStep(before, inputs, now, i);
        i := i + 1;
      }
      assert inputs[..i] == inputs;
      reply := BulkReply(created, errors);
    }

    /** `DeleteCustomer.mutate`: looks the customer up, then deletes it with its orders. */
    method DeleteCustomer(id: nat) returns (reply: DeleteReply)
      requires Valid()
      modifies this
      ensures Valid()
      ensures DeleteOutcome(State(), reply) == Schema.DeleteCustomer(old(State()), id)
    {
      ghost var before := State();
      var found := FindCustomer(customers, id);
      if found.None? {
        return DeleteReply(false, CustomerMissingMessage(id));
      }
      customers := Where(customers, (c: Customer) => c.id != id);
      orders := Where(orders, (o: Order) => o.customerId != id);
      reply := DeleteReply(true, CustomerDeletedMessage);
      DeleteCustomerKeepsValid(before, id);
    }

    /** `CreateProduct.mutate`: quantises the price, checks, then inserts. */
    method CreateProduct(input: ProductInput) returns (reply: ProductReply)
      requires Valid()
      modifies this
      ensures Valid()
      ensures ProductOutcome(State(), reply) == Schema.CreateProduct(old(State()), input)
    {
      ghost var before := State();
      var price := Quantize(input.price);
      CreateProductSteps(before, input, price);
      if input.name == "" || price == 0 {
        return ProductReply(None, ProductRequiredMessage);
      }
      if price < 0 {
        return ProductReply(None, NegativePriceMessage);
      }
      if input.stock < 0 {
        return ProductReply(None, NegativeStockMessage);
      }
      var p := Product(nextProductId, input.name, price, input.stock);
      products := products + [p];
      nextProductId := nextProductId + 1;
      reply := ProductReply(Some(p), ProductCreatedMessage(input.name));
      CreateProductKeepsValid(before, input);
    }

    /**
     * `CreateOrder.mutate`: resolves the customer, selects the products, sums
     * their prices, inserts the order and links the products.
     */
    method CreateOrder(customerId: nat, productIds: seq<nat>, now: int) returns (result: OrderResult)
      requires Valid()
      modifies this
      ensures Valid()
      ensures OrderOutcome(State(), result) == Schema.CreateOrder(old(State()), customerId, productIds, now)
    {
      ghost var before := State();
      var found := FindCustomer(customers, customerId);
      if found.None? {
        return Raised(CustomerMissingMessage(customerId));
      }
      var linked := ProductsIn(products, set x | x in productIds);
      var total := SumPrices(linked);
      var o := Order(nextOrderId, found.value.id, {}, total, now);
      orders := orders + [o];
      nextOrderId := nextOrderId + 1;
      o := o.(productIds := set p | p in linked :: p.id);
      orders := orders[|orders| - 1 := o];
      assert orders == before.orders + [o];
      assert o == Order(before.nextOrderId, customerId, set p | p in linked :: p.id, total, now);
      assert State() == before.(orders := before.orders + [o], nextOrderId := before.nextOrderId + 1);
      result := Created(o);
      CreateOrderForCustomer(before, customerId, productIds, now);
      CreateOrderKeepsValid(before, customerId, productIds, now);
    }
  }
}
