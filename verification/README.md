# CRM write path, modelled in Dafny

This project models the core of a small Django + GraphQL CRM: the three
tables of `crm/models.py` (customers, products, orders), the five mutations
of `crm/schema.py` that change them (`CreateCustomer`, `BulkCreateCustomers`,
`DeleteCustomer`, `CreateProduct`, `CreateOrder`), `Order.__str__`, and the
three filter sets of `crm/filters.py`.

Layout:

- `support.dfy` — `Wrappers` (an `Option` type), `Text` (ASCII case folding,
  substring search, digit strings, `", ".join`) and `Sequences` (subsequences
  and `Where`, the model of `queryset.filter`).
- `models.dfy` — `Models`: the rows, the store `Db` (each table a sequence in
  primary-key order plus the next key of each table), the store invariant
  `Valid` (unique emails, non-negative prices and stock, orders pointing at
  existing rows, each order's total equal to its products' prices) and
  `OrderString`.
- `validation.dfy` — `Validation`: the phone check of `CreateCustomer`,
  proved equal to the language of its regular expression, and the
  quantisation of a price to cents with round-half-even.
- `schema.dfy` — `Schema`: every mutation as a pure transition from a store
  to a store plus the mutation's payload, with the lemmas about them.
- `store.dfy` — `Store.Database`: a class whose fields are the tables and key
  counters; its methods perform the mutations in place, in the source's order
  of steps, and each is proved to end in exactly the state the `Schema`
  transition describes while keeping `Valid`.
- `filters.dfy` — `Filters`: each filter set as a chain of selections, each
  proved to keep exactly the rows satisfying an independent statement of the
  filters, in table order; and the validation of `order_by` terms.

Money is held as integer cents (a `DecimalField` with two decimal places).
Timestamps are clock ticks passed in by the caller as `now`. An empty string
for a customer's name or email stands for a missing value, as Python's
`not name` treats both alike.

## Model

| member | source | states |
|---|---|---|
| Models.FindCustomer | crm/schema.py:100 | the lookup by key returns a stored row with that key, and returns nothing exactly when no row has that key |
| Models.SumPrices | crm/schema.py:245 | the sum of prices is 0 for no products and never negative when no price is |
| Models.EmptyDbValid | crm/models.py:16-64 | the empty store satisfies every table constraint |
| Models.OrderTotalNonNegative | crm/models.py:59-64 | in a valid store every order's total is at least 0 |
| Models.ProductNames | crm/models.py:69 | the list of names has one entry per linked product, in order |
| Models.OrderString | crm/models.py:68-70 | the text is exactly "Order {id} for {customer name} - " followed by the linked products' names joined by ", ", in table order |
| Models.OrderStringListsProducts | crm/models.py:69-70 | after the heading, the k-th linked product's name sits at the sum of the earlier names' lengths plus two per separator, followed by ", " unless it is the last name, which ends the text |
| Models.OrderStringMentionsProducts | crm/models.py:68-70 | the name of every product linked to the order occurs in the text |
| Text.NatToString | crm/models.py:70 | the decimal digits of the key, without a leading zero, whose value is the key |
| Text.JoinPartAt | crm/models.py:69 | in `sep.join(parts)` the k-th part starts at the total length of the earlier parts and separators |
| Text.JoinSeparatorAt | crm/models.py:69 | in `sep.join(parts)` exactly one separator lies between neighbouring parts |
| Validation.PhoneCheckMatchesPattern | crm/schema.py:69 | each of the two alternatives of the check, `\+?\d{7,15}` and `\d{3}-\d{3}-\d{4}`, accepts exactly its part of the pattern's language, and together they accept exactly that language |
| Validation.IsValidPhone | crm/schema.py:69 | a phone is accepted exactly when the whole string matches the pattern: an optional '+' and 7 to 15 digits, or ddd-ddd-dddd |
| Validation.ValidPhoneLength | crm/schema.py:69 | every accepted phone has 7 to 16 characters, so it fits the 20-character column |
| Validation.Quantize | crm/schema.py:185 | the cents are within half a cent of the decimal, and on an exact tie they are even |
| Validation.QuantizeUnique | crm/schema.py:185 | any amount of cents that is nearest with ties to even is the one Quantize returns |
| Validation.QuantizeWholeCents | crm/schema.py:185 | a price already in whole cents is kept unchanged |
| Schema.NameTaken | crm/schema.py:59 | true exactly when some stored customer has the given name |
| Schema.EmailTaken | crm/schema.py:64 | true exactly when some stored customer has the given email |
| Schema.CustomerRejection | crm/schema.py:56-73 | no message exactly when name and email are present, neither is taken, and a non-empty phone matches the pattern; otherwise the message of the first failing check in source order |
| Schema.CreateCustomer | crm/schema.py:49-79 | on rejection the store is unchanged and the reply carries the message; otherwise exactly one customer with the input's name, email and phone is appended under the next key and nothing else changes |
| Schema.CreateCustomerKeepsValid | crm/models.py:16-18 | creating a customer keeps every table constraint, including unique emails and the phone length |
| Schema.CreateCustomerAddsFreshRow | crm/schema.py:59-67 | a created customer's name and email differ from those of every earlier row |
| Schema.BulkLoop | crm/schema.py:136-146 | every input yields a customer or an error; the created customers are appended to the table; products and orders do not change |
| Schema.BulkCreateCustomers | crm/schema.py:126-148 | an empty input yields no customers and exactly one error; otherwise customers plus errors number the inputs, and only the customer table grows |
| Schema.BulkLoopKeepsValid | crm/schema.py:136-146 | the loop keeps every table constraint |
| Schema.BulkCreateKeepsValid | crm/schema.py:126-148 | the whole bulk mutation keeps every table constraint |
| Schema.BulkCreatesDistinct | crm/schema.py:136-146 | no created customer shares a name or an email with an earlier row, stored before the batch or created in it |
| Schema.BulkKeepsInputOrder | crm/schema.py:136-146 | the k-th created customer carries the fields of the k-th accepted input, and accepted positions increase |
| Schema.BulkErrorsFollowInputs | crm/schema.py:136-146 | the m-th error is the message CreateCustomer gives the m-th rejected input against the customers stored when its turn comes, and rejected positions increase |
| Schema.BulkRejectsRepeats | crm/schema.py:136-146 | an input repeating the name or email of an earlier accepted input of the batch is rejected |
| Schema.DeleteCustomer | crm/schema.py:97-108 | success exactly when the key exists; an unknown key changes nothing and reports "Customer with ID {id} does not exist."; a known key removes exactly that customer and exactly that customer's orders, keeping the order of the rest |
| Schema.DeleteCustomerKeepsValid | crm/models.py:51-53 | deletion with its cascade keeps every table constraint, so no order is left without its customer |
| Schema.DeleteCustomerIsFinal | crm/schema.py:97-108 | after a deletion the key no longer resolves, no order refers to it, and deleting it again fails |
| Schema.ProductRejection | crm/schema.py:185-195 | no message exactly when the name is present, the quantised price is above 0 and the stock is at least 0; otherwise the first failing check's message, a zero price counting as missing |
| Schema.CreateProduct | crm/schema.py:182-206 | on rejection the store is unchanged; otherwise exactly one product with the quantised price is appended under the next key and nothing else changes |
| Schema.CreateProductKeepsValid | crm/models.py:34-40 | creating a product keeps every table constraint, including non-negative price and stock |
| Schema.DuplicateProductNameAccepted | crm/schema.py:197-200 | a product whose name is already in the table is still created |
| Schema.ZeroPriceRefusedAsMissing | crm/schema.py:185-192 | 0.00 and -0.004 are refused as a missing price, -0.01 as a negative one |
| Schema.CreateOrder | crm/schema.py:237-255 | an unknown customer raises "Customer with ID {id} does not exist." and changes nothing; otherwise one order is appended whose products are exactly the given keys that name a product and whose total is the sum of their prices |
| Schema.CreateOrderKeepsValid | crm/models.py:51-64 | creating an order keeps every table constraint, including the order's total and links |
| Schema.CreateOrderDependsOnKeySet | crm/schema.py:243 | repeating, reordering or adding unknown keys yields the same order |
| Schema.OrderWithoutProducts | crm/schema.py:243-246 | when no given key names a product the order has no products and a total of 0 |
| Store.Database.constructor | crm/models.py:9-66 | a new store is empty and valid |
| Store.Database.InsertCustomer | crm/schema.py:76 | one customer row is appended under the next key, with both timestamps set to now |
| Store.Database.CreateCustomer | crm/schema.py:49-79 | the in-place mutation keeps the invariant and ends in exactly the state and reply of Schema.CreateCustomer |
| Store.Database.BulkCreateCustomers | crm/schema.py:126-148 | the loop keeps the invariant and ends in exactly the state and reply of Schema.BulkCreateCustomers |
| Store.Database.DeleteCustomer | crm/schema.py:97-108 | the in-place deletion keeps the invariant and ends in exactly the state and reply of Schema.DeleteCustomer |
| Store.Database.CreateProduct | crm/schema.py:182-206 | the in-place mutation keeps the invariant and ends in exactly the state and reply of Schema.CreateProduct |
| Store.Database.CreateOrder | crm/schema.py:237-255 | inserting the order and then linking its products keeps the invariant and ends in exactly the state and result of Schema.CreateOrder |
| Filters.FilterPhone | crm/filters.py:21-26 | keeps, in order, exactly the customers whose phone starts with the value, character by character |
| Filters.TextPasses | crm/filters.py:11-12 | an `icontains` filter passes when its value is missing or empty, or when the value occurs in the field after case folding |
| Filters.FilterCustomerText | crm/filters.py:11-12 | keeps, in order, exactly the customers whose name and email contain the given values ignoring case |
| Filters.FilterCustomerPhone | crm/filters.py:13 | keeps, in order, exactly the customers with a phone starting with the given pattern, or all when no pattern is given |
| Filters.FilterCustomers | crm/filters.py:5-46 | keeps, in order, exactly the customers satisfying every given filter, with inclusive creation-time bounds |
| Filters.FilterStockLt10 | crm/filters.py:61-63 | keeps, in order, exactly the products with stock below 10 |
| Filters.StockLt10IgnoresValue | crm/filters.py:57-63 | the value given to `stock_lt_10` makes no difference |
| Filters.FilterProductRanges | crm/filters.py:53-56 | keeps, in order, exactly the products whose price and stock lie within the given inclusive bounds |
| Filters.FilterProducts | crm/filters.py:49-84 | keeps, in order, exactly the products satisfying every given filter |
| Filters.FilterProductName | crm/filters.py:114-119 | keeps, in order, exactly the orders linked to a product whose name contains the value ignoring case |
| Filters.FilterProductId | crm/filters.py:121-126 | keeps, in order, exactly the orders linked to the product with that key |
| Filters.OwnerNamePasses | crm/filters.py:90-92 | the `customer_name` filter passes when skipped or when the owning customer's name contains the value ignoring case |
| Filters.FilterOrderRelations | crm/filters.py:90-96 | keeps, in order, exactly the orders passing the customer-name and product-name filters |
| Filters.FilterOrderRanges | crm/filters.py:97-108 | keeps, in order, exactly the orders whose total and date lie within the given inclusive bounds |
| Filters.FilterOrders | crm/filters.py:87-147 | keeps, in order, exactly the orders satisfying every given filter |
| Filters.ParseOrderingTerm | crm/filters.py:28-34 | a term is accepted exactly when it names a declared field, optionally after '-'; an accepted key's field is that name and it is descending exactly when the term starts with '-' |
| Filters.ParseOrdering | crm/filters.py:28-34 | an ordering is accepted exactly when every term is, and then yields one key per term in order |
| Filters.CustomerOrderingFieldsOnly | crm/filters.py:28-34 | customers sort only by name, email or creation time |

## Left out

- The conversion of the GraphQL float price to a decimal (`Decimal(str(float))`): `CreateProduct` takes the price as the decimal it produces.
- Validation.Quantize: does not model the decimal context's precision limit (28 digits), beyond which quantisation raises.
- The catch-all `except Exception` branches of the single-row mutations, which report errors the model has no cause for (database failures, malformed keys); the per-item `except` of the bulk loop is covered by the next line.
- Schema.BulkCreateCustomers: the input list may hold an explicit null element (the argument is `[CustomerInput]!`); for it `CreateCustomer.mutate` fails on `input.get`, the loop's per-item `except` appends "'NoneType' object has no attribute 'get'" to the errors and the loop goes on; the model's batch holds only non-null inputs, so that message and its position among the errors are not modelled.
- The 10-digit bound of `price` and `total_amount` and the 255-character bound of `name`, which only the database backend could enforce, and only inside those catch-all branches.
- `EmailField` format validation, which `objects.create` does not run; emails are arbitrary non-empty strings.
- Keys given as strings: `DeleteCustomer` and `CreateOrder` take natural numbers; a non-numeric key only reaches a catch-all branch.
- Schema.DeleteCustomer and Schema.CreateOrder: a numeric key written in a non-canonical way ("007", "-1") resolves as its integer value, as the model's natural-number key does; only when no customer has that key does the message differ, since it repeats the string as given ("Customer with ID 007 does not exist.") where the model prints the key in canonical decimal, and a negative key, which never resolves, is not represented.
- Filters: `CharFilter` values reach the filter methods stripped of surrounding blanks by the filter form (a value of only blanks is skipped), and `NumberFilter` values are decimals; the model takes the cleaned text, bounds already in cents or whole units, and the `product_id` value already converted to the integer key.
- Models.OrderString: `self.products.all()` has no declared ordering, so the database may list the names in any order; the model lists them in table (key) order.
- Validation.IsValidPhone: Python's `\d` also matches non-ASCII digits and `$` also matches before a final newline; the model uses ASCII digits and the end of the string.
- Filters.TextPasses: the store is taken to be SQLite, Django's default backend, whose LIKE folds ASCII letters only, and the model folds the same way; a backend with Unicode folding is not modelled.
- Filters.FilterPhone: on SQLite `phone__startswith` also compiles to a LIKE that ignores ASCII case, while the model compares characters exactly; the two agree on every phone CreateCustomer admits (digits, '+' and '-').
- Filters.FilterOrders: each order is kept at most once; the SQL join behind `product_name` can return an order once per matching product.
- The execution of `order_by` (sorting the rows); only which terms are accepted is modelled.
- Time: `auto_now` timestamps are the caller's `now`, and a bulk batch uses one tick for all its rows.
- The read-only `Query` resolvers, the GraphQL type classes and the framework wiring.
- The seed script, cron jobs, Celery tasks and reminder scripts, and the superseded copies of the schema and models.
- `Customer.__str__` and `Product.__str__`, which nothing in the core uses.
- Schema.CreateProduct: the default of 0 for `stock` applies only when the field is absent; an explicit `stock: null` arrives as None, the comparison `stock < 0` raises a TypeError outside the `try`, no product is created and the request fails with that error. The model's `ProductInput` always carries an integer stock, so this failure is not modelled.
- Schema.CreateOrder: the payload's `total_amount` field is never filled in, so it is null on every success; only the stored order carries the sum, and `Created` holds just the order.

Where the source shows an intent its code does not carry out, the model
follows the code:
`CreateProduct` refuses a price of 0 with "Name and price are required."
(crm/schema.py:189), because the check tests the decimal for falsiness, so a
zero price counts as missing; `CreateProduct` does not refuse a duplicate
product name, because that check is commented out (crm/schema.py:197-200); and
`CreateOrder` creates an order with no products and a total of 0 when none of
the given keys names a product, because `filter(id__in=...)` never raises
`Product.DoesNotExist`, so its handler (crm/schema.py:250-253) can never run.
