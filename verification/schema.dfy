/**
 * The write path of crm/schema.py as pure transitions of the store: each
 * mutation either rejects its input with a message and leaves the store as it
 * was, or adds (or, for deletion, removes) exactly the rows it names.
 * Store.Database runs the same mutations in place and is proved to agree with
 * these functions; the lemmas below state what the mutations promise.
 */
module Schema {
  import opened Wrappers
  import opened Text
  import opened Sequences
  import opened Models
  import opened Validation

  // ===========================================================================
  // CreateCustomer

  /** `CustomerInput`; an empty name or email stands for a missing one. */
  datatype CustomerInput = CustomerInput(name: string, email: string, phone: Option<string>)

  /** The mutation's payload: the created customer, if any, and a message. */
  datatype CustomerReply = CustomerReply(customer: Option<Customer>, message: string)

  datatype CustomerOutcome = CustomerOutcome(db: Db, reply: CustomerReply)

  const RequiredFieldsMessage := "Name and email are required."
  const InvalidPhoneMessage :=
    "Phone number is not valid. It should be in the format +1234567890 or 123-456-7890."

  function DuplicateNameMessage(name: string): string {
    "Customer with name " + name + " already exists."
  }

  function DuplicateEmailMessage(email: string): string {
    "Customer with email " + email + " already exists."
  }

  function CustomerCreatedMessage(name: string): string {
    "Customer " + name + " created successfully."
  }

  /** `Customer.objects.filter(name=name).exists()`: some stored customer has that name. */
  predicate NameTaken(customers: seq<Customer>, name: string)
    ensures NameTaken(customers, name) <==> exists c :: c in customers && c.name == name
  {
    customers != [] && (customers[0].name == name || NameTaken(customers[1..], name))
  }

  /** `Customer.objects.filter(email=email).exists()`: some stored customer has that email. */
  predicate EmailTaken(customers: seq<Customer>, email: string)
    ensures EmailTaken(customers, email) <==> exists c :: c in customers && c.email == email
  {
    customers != [] && (customers[0].email == email || EmailTaken(customers[1..], email))
  }

  /** `if phone and not re.match(...)`: a missing or empty phone is not checked. */
  predicate PhoneAccepted(phone: Option<string>) {
    phone.None? || phone.value == "" || IsValidPhone(phone.value)
  }

  /**
   * The checks of `CreateCustomer.mutate`, in their order: required fields,
   * then a taken name, then a taken email, then the phone pattern. The result
   * is the message of the first check that fails.
   */
  function CustomerRejection(customers: seq<Customer>, input: CustomerInput): (r: Option<string>)
    ensures r.None? <==>
      && input.name != "" && input.email != ""
      && !NameTaken(customers, input.name)
      && !EmailTaken(customers, input.email)
      && (input.phone.Some? && input.phone.value != "" ==> MatchesPhonePattern(input.phone.value))
    ensures input.name == "" || input.email == "" ==> r == Some(RequiredFieldsMessage)
    ensures input.name != "" && input.email != "" && NameTaken(customers, input.name)
      ==> r == Some(DuplicateNameMessage(input.name))
    ensures input.name != "" && input.email != "" && !NameTaken(customers, input.name)
      && EmailTaken(customers, input.email)
      ==> r == Some(DuplicateEmailMessage(input.email))
    ensures input.name != "" && input.email != "" && !NameTaken(customers, input.name)
      && !EmailTaken(customers, input.email)
      && input.phone.Some? && input.phone.value != "" && !MatchesPhonePattern(input.phone.value)
      ==> r == Some(InvalidPhoneMessage)
  {
    if input.name == "" || input.email == "" then Some(RequiredFieldsMessage)
    else if NameTaken(customers, input.name) then Some(DuplicateNameMessage(input.name))
    else if EmailTaken(customers, input.email) then Some(DuplicateEmailMessage(input.email))
    else if !PhoneAccepted(input.phone) then Some(InvalidPhoneMessage)
    else None
  }

  /**
   * `CreateCustomer.mutate`: on a rejection the store is unchanged and no
   * customer is returned; otherwise the store gains exactly one customer row,
   * carrying the input's fields under a fresh key, and nothing else changes.
   */
  function CreateCustomer(db: Db, input: CustomerInput, now: int): (out: CustomerOutcome)
    ensures out.reply.customer.Some? <==> CustomerRejection(db.customers, input).None?
    ensures out.reply.customer.None?
      ==> out.db == db && out.reply.message == CustomerRejection(db.customers, input).value
    ensures out.reply.customer.Some? ==>
      var c := out.reply.customer.value;
      && c.name == input.name && c.email == input.email && c.phone == input.phone
      && c.createdAt == now && c.updatedAt == now
      && c.id == db.nextCustomerId && out.db.nextCustomerId == db.nextCustomerId + 1
      && out.db.customers == db.customers + [c]
      && out.db.products == db.products && out.db.orders == db.orders
      && out.db.nextProductId == db.nextProductId && out.db.nextOrderId == db.nextOrderId
      && out.reply.message == CustomerCreatedMessage(input.name)
  {
    match CustomerRejection(db.customers, input)
    case Some(message) => CustomerOutcome(db, CustomerReply(None, message))
    case None =>
      var c := Customer(db.nextCustomerId, input.name, input.email, input.phone, now, now);
      var db' := db.(customers := db.customers + [c], nextCustomerId := db.nextCustomerId + 1);
      CustomerOutcome(db', CustomerReply(Some(c), CustomerCreatedMessage(input.name)))
  }

  /** A customer accepted by CreateCustomer keeps the store's invariant. */
  lemma CreateCustomerKeepsValid(db: Db, input: CustomerInput, now: int)
    requires Valid(db)
    ensures Valid(CreateCustomer(db, input, now).db)
  {
    var out := CreateCustomer(db, input, now);
    if out.reply.customer.Some? {
      var c := out.reply.customer.value;
      assert CustomerRejection(db.customers, input).None?;
      if c.phone.Some? && c.phone.value != "" {
        ValidPhoneLength(c.phone.value);
      }
      AppendCustomerKeepsValid(db, c);
    }
  }

  /** Appending a well-formed row under the next key, with an email not yet stored. */
  lemma AppendCustomerKeepsValid(db: Db, c: Customer)
    requires Valid(db) && CustomerRowValid(c) && c.id == db.nextCustomerId
    requires forall d :: d in db.customers ==> d.email != c.email
    ensures Valid(db.(customers := db.customers + [c], nextCustomerId := db.nextCustomerId + 1))
  {
    var db' := db.(customers := db.customers + [c], nextCustomerId := db.nextCustomerId + 1);
    forall o | o in db'.orders ensures OrderRowValid(db', o) {
      assert OrderRowValid(db, o);
      var owner := FindCustomer(db.customers, o.customerId).value;
      assert owner in db'.customers;
    }
  }

  /**
   * The customer rows after CreateCustomer: either the same rows, or the same
   * rows plus one whose name and email no earlier row has.
   */
  lemma CreateCustomerAddsFreshRow(db: Db, input: CustomerInput, now: int)
    ensures var out := CreateCustomer(db, input, now);
      out.reply.customer.Some? ==>
        forall c :: c in db.customers ==>
          c.name != out.reply.customer.value.name && c.email != out.reply.customer.value.email
  {
  }

  // ===========================================================================
  // BulkCreateCustomers

  /** The payload: the created customers and the collected error messages. */
  datatype BulkReply = BulkReply(customers: seq<Customer>, errors: seq<string>)

  datatype BulkOutcome = BulkOutcome(db: Db, reply: BulkReply)

  const NoBulkDataMessage := "No customer data provided for bulk creation."

  /**
   * The loop of `BulkCreateCustomers.mutate` over a prefix of its input: every
   * input goes through CreateCustomer on the store as the earlier inputs left
   * it; a created customer is appended to `customers`, a rejection's message
   * to `errors`.
   */
  function BulkLoop(db: Db, inputs: seq<CustomerInput>, now: int): (out: BulkOutcome)
    ensures |out.reply.customers| + |out.reply.errors| == |inputs|
    ensures out.db.customers == db.customers + out.reply.customers
    ensures out.db.nextCustomerId == db.nextCustomerId + |out.reply.customers|
    ensures out.db.products == db.products && out.db.orders == db.orders
    ensures out.db.nextProductId == db.nextProductId && out.db.nextOrderId == db.nextOrderId
    decreases |inputs|
  {
    if inputs == [] then BulkOutcome(db, BulkReply([], []))
    else
      var prev := BulkLoop(db, inputs[..|inputs| - 1], now);
      var step := CreateCustomer(prev.db, inputs[|inputs| - 1], now);
      BulkOutcome(step.db, Collect(prev.reply, step.reply))
  }

  /** A created customer joins `customers`; a rejection's message joins `errors`. */
  function Collect(acc: BulkReply, reply: CustomerReply): (r: BulkReply)
    ensures reply.customer.Some? ==> r == BulkReply(acc.customers + [reply.customer.value], acc.errors)
    ensures reply.customer.None? ==> r == BulkReply(acc.customers, acc.errors + [reply.message])
  {
    match reply.customer
    case Some(c) => acc.(customers := acc.customers + [c])
    case None => acc.(errors := acc.errors + [reply.message])
  }

  /** One more turn of the loop: input `i` goes through CreateCustomer after the first `i`. */
  lemma BulkLoopStep(db: Db, inputs: seq<CustomerInput>, now: int, i: nat)
    requires i < |inputs|
    ensures var prev := BulkLoop(db, inputs[..i], now);
      var step := CreateCustomer(prev.db, inputs[i], now);
      BulkLoop(db, inputs[..i + 1], now) == BulkOutcome(step.db, Collect(prev.reply, step.reply))
  {
    assert inputs[..i + 1][..i] == inputs[..i];
  }

  /**
   * `BulkCreateCustomers.mutate`: an empty input yields no customers and one
   * error; otherwise every input yields either a customer or an error, and the
   * created customers are appended to the table in the order they were
   * created.
   */
  function BulkCreateCustomers(db: Db, inputs: seq<CustomerInput>, now: int): (out: BulkOutcome)
    ensures inputs == [] ==>
      out.db == db && out.reply.customers == [] && out.reply.errors == [NoBulkDataMessage]
    ensures inputs != [] ==> |out.reply.customers| + |out.reply.errors| == |inputs|
    ensures out.db.customers == db.customers + out.reply.customers
    ensures out.db.products == db.products && out.db.orders == db.orders
  {
    if inputs == [] then BulkOutcome(db, BulkReply([], [NoBulkDataMessage]))
    else BulkLoop(db, inputs, now)
  }

  lemma {:induction false} BulkLoopKeepsValid(db: Db, inputs: seq<CustomerInput>, now: int)
    requires Valid(db)
    ensures Valid(BulkLoop(db, inputs, now).db)
    decreases |inputs|
  {
    if inputs != [] {
      var prev := BulkLoop(db, inputs[..|inputs| - 1], now);
      BulkLoopKeepsValid(db, inputs[..|inputs| - 1], now);
      CreateCustomerKeepsValid(prev.db, inputs[|inputs| - 1], now);
    }
  }

  lemma BulkCreateKeepsValid(db: Db, inputs: seq<CustomerInput>, now: int)
    requires Valid(db)
    ensures Valid(BulkCreateCustomers(db, inputs, now).db)
  {
    if inputs != [] {
      BulkLoopKeepsValid(db, inputs, now);
    }
  }

  /** Rows from position `from` on have a name and an email that no earlier row has. */
  ghost predicate FreshFrom(customers: seq<Customer>, from: nat) {
    forall i, j :: 0 <= i < j < |customers| && from <= j ==>
      customers[i].name != customers[j].name && customers[i].email != customers[j].email
  }

  /**
   * Within one batch, and against the rows already stored, no two created
   * customers share a name or an email.
   */
  lemma {:induction false} BulkCreatesDistinct(db: Db, inputs: seq<CustomerInput>, now: int)
    ensures FreshFrom(BulkLoop(db, inputs, now).db.customers, |db.customers|)
    decreases |inputs|
  {
    if inputs != [] {
      var prev := BulkLoop(db, inputs[..|inputs| - 1], now);
      BulkCreatesDistinct(db, inputs[..|inputs| - 1], now);
      var step := CreateCustomer(prev.db, inputs[|inputs| - 1], now);
      CreateCustomerAddsFreshRow(prev.db, inputs[|inputs| - 1], now);
      var cs := step.db.customers;
      if step.reply.customer.Some? {
        var n := |prev.db.customers|;
        assert cs == prev.db.customers + [step.reply.customer.value];
        forall i, j | 0 <= i < j < |cs| && |db.customers| <= j
          ensures cs[i].name != cs[j].name && cs[i].email != cs[j].email
        {
          if j == n {
            assert cs[i] in prev.db.customers;
          } else {
            assert cs[i] == prev.db.customers[i] && cs[j] == prev.db.customers[j];
          }
        }
      }
    }
  }

  /** The positions of the inputs that created a customer, in increasing order. */
  ghost function Accepted(db: Db, inputs: seq<CustomerInput>, now: int): seq<nat>
    decreases |inputs|
  {
    if inputs == [] then []
    else
      var prev := BulkLoop(db, inputs[..|inputs| - 1], now);
      var step := CreateCustomer(prev.db, inputs[|inputs| - 1], now);
      Accepted(db, inputs[..|inputs| - 1], now)
        + (if step.reply.customer.Some? then [|inputs| - 1] else [])
  }

  /**
   * Successes keep input order: the k-th created customer comes from the
   * k-th accepted input, and accepted positions increase.
   */
  lemma {:induction false} BulkKeepsInputOrder(db: Db, inputs: seq<CustomerInput>, now: int)
    ensures var acc := Accepted(db, inputs, now);
      var created := BulkLoop(db, inputs, now).reply.customers;
      && |acc| == |created|
      && (forall k :: 0 <= k < |acc| ==> acc[k] < |inputs|)
      && (forall k1, k2 :: 0 <= k1 < k2 < |acc| ==> acc[k1] < acc[k2])
      && (forall k :: 0 <= k < |acc| ==>
            created[k].name == inputs[acc[k]].name
            && created[k].email == inputs[acc[k]].email
            && created[k].phone == inputs[acc[k]].phone)
    decreases |inputs|
  {
    if inputs != [] {
      var n := |inputs| - 1;
      var init := inputs[..n];
      BulkKeepsInputOrder(db, init, now);
      var prev := BulkLoop(db, init, now);
      var step := CreateCustomer(prev.db, inputs[n], now);
      var accInit := Accepted(db, init, now);
      var acc := Accepted(db, inputs, now);
      var created := BulkLoop(db, inputs, now).reply.customers;
      assert acc[..|accInit|] == accInit;
      assert created[..|accInit|] == prev.reply.customers;
      forall k | 0 <= k < |accInit|
        ensures created[k].name == inputs[acc[k]].name && created[k].email == inputs[acc[k]].email
        ensures created[k].phone == inputs[acc[k]].phone
      {
        assert acc[k] == accInit[k] && created[k] == prev.reply.customers[k];
        assert init[accInit[k]] == inputs[accInit[k]];
      }
      if step.reply.customer.Some? {
        assert acc[|accInit|] == n;
        assert created[|accInit|] == step.reply.customer.value;
      }
    }
  }

  /** The positions of the inputs that were rejected, in increasing order. */
  ghost function Rejected(db: Db, inputs: seq<CustomerInput>, now: int): seq<nat>
    decreases |inputs|
  {
    if inputs == [] then []
    else
      var prev := BulkLoop(db, inputs[..|inputs| - 1], now);
      var step := CreateCustomer(prev.db, inputs[|inputs| - 1], now);
      Rejected(db, inputs[..|inputs| - 1], now)
        + (if step.reply.customer.None? then [|inputs| - 1] else [])
  }

  /**
   * Input `j` of the batch is refused with `message`: the message CreateCustomer
   * gives it against the customers stored when its turn comes, including those
   * the earlier inputs of the batch created.
   */
  ghost predicate RefusedWith(db: Db, inputs: seq<CustomerInput>, now: int, j: nat, message: string) {
    j < |inputs| && CustomerRejection(BulkLoop(db, inputs[..j], now).db.customers, inputs[j]) == Some(message)
  }

  /** A refusal within the first `n` inputs stays a refusal once more inputs follow. */
  lemma RefusedWithinPrefix(db: Db, inputs: seq<CustomerInput>, n: nat, now: int, j: nat, message: string)
    requires n <= |inputs| && RefusedWith(db, inputs[..n], now, j, message)
    ensures RefusedWith(db, inputs, now, j, message)
  {
    assert inputs[..n][..j] == inputs[..j];
    assert inputs[..n][j] == inputs[j];
  }

  /** The errors are the rejected inputs' messages, in input order. */
  lemma {:induction false} BulkErrorsFollowInputs(db: Db, inputs: seq<CustomerInput>, now: int)
    ensures var rej := Rejected(db, inputs, now);
      var errors := BulkLoop(db, inputs, now).reply.errors;
      && |rej| == |errors|
      && (forall m1, m2 :: 0 <= m1 < m2 < |rej| ==> rej[m1] < rej[m2])
      && (forall m :: 0 <= m < |rej| ==> RefusedWith(db, inputs, now, rej[m], errors[m]))
    decreases |inputs|
  {
    if inputs != [] {
      var n := |inputs| - 1;
      var init := inputs[..n];
      BulkErrorsFollowInputs(db, init, now);
      var prev := BulkLoop(db, init, now);
      var step := CreateCustomer(prev.db, inputs[n], now);
      var rejInit := Rejected(db, init, now);
      var rej := Rejected(db, inputs, now);
      var errors := BulkLoop(db, inputs, now).reply.errors;
      assert rej[..|rejInit|] == rejInit;
      assert errors[..|rejInit|] == prev.reply.errors;
      forall m | 0 <= m < |rejInit| ensures RefusedWith(db, inputs, now, rej[m], errors[m]) {
        assert rej[m] == rejInit[m] && errors[m] == prev.reply.errors[m];
        RefusedWithinPrefix(db, inputs, n, now, rejInit[m], errors[m]);
      }
      if step.reply.customer.None? {
        assert rej[|rejInit|] == n;
        assert errors[|rejInit|] == step.reply.message;
      }
    }
  }

  /** Two created rows that differ in name and email come from inputs that differ in both. */
  lemma DistinctCreatedInputs(inputs: seq<CustomerInput>, a: nat, b: nat, first: Customer, second: Customer)
    requires a < |inputs| && b < |inputs|
    requires first.name == inputs[a].name && first.email == inputs[a].email
    requires second.name == inputs[b].name && second.email == inputs[b].email
    requires first.name != second.name && first.email != second.email
    ensures inputs[a].name != inputs[b].name && inputs[a].email != inputs[b].email
  {
  }

  /**
   * An input that repeats the name or the email of an earlier input of the
   * same batch that created a customer is rejected.
   */
  lemma BulkRejectsRepeats(db: Db, inputs: seq<CustomerInput>, now: int, k: nat, j: nat)
    requires k < |Accepted(db, inputs, now)|
    requires Accepted(db, inputs, now)[k] < j < |inputs|
    requires inputs[j].name == inputs[Accepted(db, inputs, now)[k]].name
          || inputs[j].email == inputs[Accepted(db, inputs, now)[k]].email
    ensures j !in Accepted(db, inputs, now)
  {
    var acc := Accepted(db, inputs, now);
    var out := BulkLoop(db, inputs, now);
    BulkKeepsInputOrder(db, inputs, now);
    BulkCreatesDistinct(db, inputs, now);
    var n := |db.customers|;
    forall k2 | 0 <= k2 < |acc| ensures acc[k2] != j {
      if k < k2 {
        var first := out.reply.customers[k];
        var second := out.reply.customers[k2];
        assert out.db.customers[n + k] == first && out.db.customers[n + k2] == second;
        DistinctCreatedInputs(inputs, acc[k], acc[k2], first, second);
      } else {
        assert acc[k2] <= acc[k];
      }
    }
  }

  // ===========================================================================
  // DeleteCustomer

  datatype DeleteReply = DeleteReply(success: bool, message: string)

  datatype DeleteOutcome = DeleteOutcome(db: Db, reply: DeleteReply)

  const CustomerDeletedMessage := "Customer deleted successfully."

  function CustomerMissingMessage(id: nat): string {
    "Customer with ID " + NatToString(id) + " does not exist."
  }

  /**
   * `DeleteCustomer.mutate`: an unknown key reports failure and changes
   * nothing; a known key removes that customer and, by the cascade on
   * `Order.customer`, every order of that customer, and nothing else.
   */
  function DeleteCustomer(db: Db, id: nat): (out: DeleteOutcome)
    ensures out.reply.success <==> exists c :: c in db.customers && c.id == id
    ensures !out.reply.success ==> out.db == db && out.reply.message == CustomerMissingMessage(id)
    ensures out.reply.success ==>
      && out.reply.message == CustomerDeletedMessage
      && (forall c :: c in out.db.customers <==> c in db.customers && c.id != id)
      && (forall o :: o in out.db.orders <==> o in db.orders && o.customerId != id)
      && IsSubsequence(out.db.customers, db.customers)
      && IsSubsequence(out.db.orders, db.orders)
      && out.db.products == db.products
      && out.db.nextCustomerId == db.nextCustomerId && out.db.nextProductId == db.nextProductId
      && out.db.nextOrderId == db.nextOrderId
  {
    match FindCustomer(db.customers, id)
    case None => DeleteOutcome(db, DeleteReply(false, CustomerMissingMessage(id)))
    case Some(_) =>
      var customers := Where(db.customers, (c: Customer) => c.id != id);
      var orders := Where(db.orders, (o: Order) => o.customerId != id);
      DeleteOutcome(db.(customers := customers, orders := orders),
                    DeleteReply(true, CustomerDeletedMessage))
  }

  lemma DeleteCustomerKeepsValid(db: Db, id: nat)
    requires Valid(db)
    ensures Valid(DeleteCustomer(db, id).db)
  {
    var out := DeleteCustomer(db, id);
    if out.reply.success {
      var db' := out.db;
      WhereKeepsIncreasing(db.customers, (c: Customer) => c.id != id, CustomerId);
      WhereKeepsIncreasing(db.orders, (o: Order) => o.customerId != id, OrderId);
      CascadeKeepsOrderRows(db, id, db');
      RemovingRowsKeepsValid(db, db');
    }
  }

  /**
   * Dropping customer and order rows keeps the invariant, provided what is
   * left stays in key order and every remaining order still resolves.
   */
  lemma RemovingRowsKeepsValid(db: Db, db': Db)
    requires Valid(db)
    requires db'.products == db.products
    requires db'.nextCustomerId == db.nextCustomerId && db'.nextProductId == db.nextProductId
    requires db'.nextOrderId == db.nextOrderId
    requires forall c :: c in db'.customers ==> c in db.customers
    requires forall o :: o in db'.orders ==> o in db.orders
    requires StrictlyIncreasing(db'.customers, CustomerId) && StrictlyIncreasing(db'.orders, OrderId)
    requires forall o :: o in db'.orders ==> OrderRowValid(db', o)
    ensures Valid(db')
  {
  }

  /**
   * Removing a customer together with its orders leaves every remaining order
   * pointing at a remaining customer, with its links and total unchanged.
   */
  lemma CascadeKeepsOrderRows(db: Db, id: nat, db': Db)
    requires Valid(db) && db'.products == db.products
    requires forall c :: c in db'.customers <==> c in db.customers && c.id != id
    requires forall o :: o in db'.orders <==> o in db.orders && o.customerId != id
    ensures forall o :: o in db'.orders ==> OrderRowValid(db', o)
  {
    forall o | o in db'.orders ensures OrderRowValid(db', o) {
      assert OrderRowValid(db, o);
      var owner := FindCustomer(db.customers, o.customerId).value;
      assert owner in db'.customers;
    }
  }

  /**
   * After a deletion the key no longer resolves, so deleting it again reports
   * failure, and no remaining order belongs to it.
   */
  lemma DeleteCustomerIsFinal(db: Db, id: nat)
    requires Valid(db)
    ensures var db' := DeleteCustomer(db, id).db;
      && FindCustomer(db'.customers, id).None?
      && (forall o :: o in db'.orders ==> o.customerId != id)
      && !DeleteCustomer(db', id).reply.success
  {
    if FindCustomer(db.customers, id).None? {
      forall o | o in db.orders ensures o.customerId != id {
        assert OrderRowValid(db, o);
      }
    }
  }

  // ===========================================================================
  // CreateProduct

  /** `ProductInput`: the price as the decimal `Decimal(str(price))`; stock defaults to 0. */
  datatype ProductInput = ProductInput(name: string, price: DecimalValue, stock: int)

  datatype ProductReply = ProductReply(product: Option<Product>, message: string)

  datatype ProductOutcome = ProductOutcome(db: Db, reply: ProductReply)

  const ProductRequiredMessage := "Name and price are required."
  const NegativePriceMessage := "Price cannot be negative."
  const NegativeStockMessage := "Stock cannot be negative."

  function ProductCreatedMessage(name: string): string {
    "Product " + name + " created successfully."
  }

  /**
   * The checks of `CreateProduct.mutate` on the quantised price, in order: a
   * missing name or a price that is zero (`not price` is true of 0.00), then a
   * negative price, then a negative stock. Product names are not checked for
   * duplicates.
   */
  function ProductRejection(input: ProductInput): (r: Option<string>)
    ensures r.None? <==> input.name != "" && Quantize(input.price) > 0 && input.stock >= 0
    ensures input.name == "" || Quantize(input.price) == 0 ==> r == Some(ProductRequiredMessage)
    ensures input.name != "" && Quantize(input.price) < 0 ==> r == Some(NegativePriceMessage)
    ensures input.name != "" && Quantize(input.price) > 0 && input.stock < 0
      ==> r == Some(NegativeStockMessage)
  {
    var price := Quantize(input.price);
    if input.name == "" || price == 0 then Some(ProductRequiredMessage)
    else if price < 0 then Some(NegativePriceMessage)
    else if input.stock < 0 then Some(NegativeStockMessage)
    else None
  }

  /**
   * `CreateProduct.mutate`: on a rejection the store is unchanged; otherwise
   * it gains exactly one product row with the quantised price, and nothing
   * else changes.
   */
  function CreateProduct(db: Db, input: ProductInput): (out: ProductOutcome)
    ensures out.reply.product.Some? <==> ProductRejection(input).None?
    ensures out.reply.product.None?
      ==> out.db == db && out.reply.message == ProductRejection(input).value
    ensures out.reply.product.Some? ==>
      var p := out.reply.product.value;
      && p.id == db.nextProductId && p.name == input.name
      && p.price == Quantize(input.price) && p.stock == input.stock
      && out.db.products == db.products + [p]
      && out.db.nextProductId == db.nextProductId + 1
      && out.db.customers == db.customers && out.db.orders == db.orders
      && out.db.nextCustomerId == db.nextCustomerId && out.db.nextOrderId == db.nextOrderId
      && out.reply.message == ProductCreatedMessage(input.name)
  {
    match ProductRejection(input)
    case Some(message) => ProductOutcome(db, ProductReply(None, message))
    case None =>
      var p := Product(db.nextProductId, input.name, Quantize(input.price), input.stock);
      ProductOutcome(db.(products := db.products + [p], nextProductId := db.nextProductId + 1),
                     ProductReply(Some(p), ProductCreatedMessage(input.name)))
  }

  /** CreateProduct as its steps run: the price is quantised once, then checked. */
  lemma CreateProductSteps(db: Db, input: ProductInput, price: int)
    requires price == Quantize(input.price)
    ensures CreateProduct(db, input)
      == if input.name == "" || price == 0 then ProductOutcome(db, ProductReply(None, ProductRequiredMessage))
         else if price < 0 then ProductOutcome(db, ProductReply(None, NegativePriceMessage))
         else if input.stock < 0 then ProductOutcome(db, ProductReply(None, NegativeStockMessage))
         else
           var p := Product(db.nextProductId, input.name, price, input.stock);
           ProductOutcome(db.(products := db.products + [p], nextProductId := db.nextProductId + 1),
                          ProductReply(Some(p), ProductCreatedMessage(input.name)))
  {
  }

  /** A product whose key the table already has is not among an order's products. */
  lemma ProductsInAppendFresh(products: seq<Product>, p: Product, ids: set<nat>)
    requires p.id !in ids
    ensures ProductsIn(products + [p], ids) == ProductsIn(products, ids)
  {
    WhereAppend(products, p, (q: Product) => q.id in ids);
  }

  lemma CreateProductKeepsValid(db: Db, input: ProductInput)
    requires Valid(db)
    ensures Valid(CreateProduct(db, input).db)
  {
    var out := CreateProduct(db, input);
    if out.reply.product.Some? {
      var p := out.reply.product.value;
      var db' := out.db;
      forall o | o in db'.orders ensures OrderRowValid(db', o) {
        assert OrderRowValid(db, o);
        forall id | id in o.productIds ensures id < p.id && HasProduct(db'.products, id) {
          assert HasProduct(db.products, id);
          var q :| q in db.products && q.id == id;
          assert q in db'.products;
        }
        ProductsInAppendFresh(db.products, p, o.productIds);
      }
    }
  }

  /** Product names need not be unique: a name already in the table is accepted again. */
  lemma DuplicateProductNameAccepted(db: Db, input: ProductInput)
    requires exists p :: p in db.products && p.name == input.name
    requires input.name != "" && Quantize(input.price) > 0 && input.stock >= 0
    ensures CreateProduct(db, input).reply.product.Some?
  {
  }

  /** A price of 0.00 is refused as missing, and so is any price that rounds to it. */
  lemma ZeroPriceRefusedAsMissing(db: Db, name: string, stock: int)
    ensures CreateProduct(db, ProductInput(name, DecimalValue(0, 2), stock)).reply
      == ProductReply(None, ProductRequiredMessage)
    ensures CreateProduct(db, ProductInput(name, DecimalValue(-4, 3), stock)).reply
      == ProductReply(None, ProductRequiredMessage)
    ensures name != "" ==>
      (CreateProduct(db, ProductInput(name, DecimalValue(-1, 2), stock)).reply
        == ProductReply(None, NegativePriceMessage))
  {
    assert Pow10(1) == 10;
  }

  // ===========================================================================
  // CreateOrder

  /** The payload on success, or the message of the `ValueError` raised. */
  datatype OrderResult = Created(order: Order) | Raised(message: string)

  datatype OrderOutcome = OrderOutcome(db: Db, result: OrderResult)

  /**
   * `CreateOrder.mutate`: an unknown customer raises and creates nothing;
   * otherwise a new order for that customer is linked to exactly the existing
   * products whose keys were given (unknown keys are ignored, repeated keys
   * count once) and its total is the sum of their prices.
   */
  function CreateOrder(db: Db, customerId: nat, productIds: seq<nat>, now: int): (out: OrderOutcome)
    ensures out.result.Created? <==> exists c :: c in db.customers && c.id == customerId
    ensures out.result.Raised?
      ==> out.db == db && out.result.message == CustomerMissingMessage(customerId)
    ensures out.result.Created? ==>
      var o := out.result.order;
      && o.id == db.nextOrderId && o.customerId == customerId && o.orderDate == now
      && (forall x :: x in o.productIds <==> x in productIds && HasProduct(db.products, x))
      && o.totalAmount == SumPrices(ProductsIn(db.products, o.productIds))
      && out.db.orders == db.orders + [o]
      && out.db.nextOrderId == db.nextOrderId + 1
      && out.db.customers == db.customers && out.db.products == db.products
      && out.db.nextCustomerId == db.nextCustomerId && out.db.nextProductId == db.nextProductId
  {
    match FindCustomer(db.customers, customerId)
    case None => OrderOutcome(db, Raised(CustomerMissingMessage(customerId)))
    case Some(owner) =>
      var wanted := set x | x in productIds;
      var linked := ProductsIn(db.products, wanted);
      var total := SumPrices(linked);
      var o := Order(db.nextOrderId, owner.id, set p | p in linked :: p.id, total, now);
      assert linked == ProductsIn(db.products, o.productIds) by {
        ProductsInSameKeys(db.products, wanted, o.productIds);
      }
      OrderOutcome(db.(orders := db.orders + [o], nextOrderId := db.nextOrderId + 1), Created(o))
  }

  /** The order CreateOrder inserts for a known customer, as its steps build it. */
  lemma CreateOrderForCustomer(db: Db, customerId: nat, productIds: seq<nat>, now: int)
    requires FindCustomer(db.customers, customerId).Some?
    ensures var linked := ProductsIn(db.products, set x | x in productIds);
      var o := Order(db.nextOrderId, customerId, set p | p in linked :: p.id, SumPrices(linked), now);
      CreateOrder(db, customerId, productIds, now)
        == OrderOutcome(db.(orders := db.orders + [o], nextOrderId := db.nextOrderId + 1), Created(o))
  {
  }

  /** Two key sets that agree on the table's keys select the same products. */
  lemma {:induction false} ProductsInSameKeys(products: seq<Product>, a: set<nat>, b: set<nat>)
    requires forall p :: p in products ==> (p.id in a <==> p.id in b)
    ensures ProductsIn(products, a) == ProductsIn(products, b)
  {
    if products != [] {
      ProductsInSameKeys(products[1..], a, b);
    }
  }

  lemma CreateOrderKeepsValid(db: Db, customerId: nat, productIds: seq<nat>, now: int)
    requires Valid(db)
    ensures Valid(CreateOrder(db, customerId, productIds, now).db)
  {
    var out := CreateOrder(db, customerId, productIds, now);
    if out.result.Created? {
      var o := out.result.order;
      var db' := out.db;
      assert db'.customers == db.customers && db'.products == db.products;
      assert db'.orders == db.orders + [o];
      assert OrderRowValid(db', o);
      forall o' | o' in db'.orders ensures o'.id < db'.nextOrderId && OrderRowValid(db', o') {
        if o' != o {
          assert OrderRowValid(db, o');
        }
      }
      assert StrictlyIncreasing(db'.orders, OrderId) by {
        forall i, j | 0 <= i < j < |db'.orders| ensures OrderId(db'.orders[i]) < OrderId(db'.orders[j]) {
          if j == |db.orders| {
            assert db'.orders[i] in db.orders;
          }
        }
      }
    }
  }

  /**
   * Only the set of given keys matters: repeating a key, reordering the keys
   * or adding keys of no product gives the same order.
   */
  lemma CreateOrderDependsOnKeySet(db: Db, customerId: nat, ids1: seq<nat>, ids2: seq<nat>, now: int)
    requires forall x :: HasProduct(db.products, x) ==> (x in ids1 <==> x in ids2)
    ensures CreateOrder(db, customerId, ids1, now) == CreateOrder(db, customerId, ids2, now)
  {
    var a := set x | x in ids1;
    var b := set x | x in ids2;
    forall p | p in db.products ensures p.id in a <==> p.id in b {
      assert HasProduct(db.products, p.id);
    }
    ProductsInSameKeys(db.products, a, b);
  }

  /** When no given key names a product, the order has no products and a zero total. */
  lemma OrderWithoutProducts(db: Db, customerId: nat, productIds: seq<nat>, now: int)
    requires forall x :: x in productIds ==> !HasProduct(db.products, x)
    requires exists c :: c in db.customers && c.id == customerId
    ensures var o := CreateOrder(db, customerId, productIds, now).result.order;
      o.productIds == {} && o.totalAmount == 0
  {
    var o := CreateOrder(db, customerId, productIds, now).result.order;
    assert o.productIds == {};
    WhereNone(db.products, (p: Product) => p.id in o.productIds);
  }
}
