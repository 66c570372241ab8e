/**
 * The writes of `POST /api/orders` (src/server.js:289-310): the optional
 * user upsert keyed by email and the order insert, over an in-memory stand-in
 * for the User, Order and Product tables.
 */
module ServerStore {
  import opened Wrappers
  import opened JsValues
  import opened Catalog
  import opened ServerOrders

  /** A row of the User table; an account created by ordering has the empty password hash. */
  datatype User = User(id: nat, email: string, name: Option<string>, passwordHash: string)

  /** The User table keyed by its unique email, with the next autoincrement id. */
  datatype Users = Users(byEmail: map<string, User>, nextId: nat)

  /** Each row sits under its own email, has an id already handed out, and no two rows share an id. */
  ghost predicate UsersValid(u: Users) {
    && (forall e :: e in u.byEmail ==> u.byEmail[e].email == e && u.byEmail[e].id < u.nextId)
    && (forall e1, e2 :: e1 in u.byEmail && e2 in u.byEmail && e1 != e2 ==> u.byEmail[e1].id != u.byEmail[e2].id)
  }

  /** The table after an upsert, and the id of the row it found or created. */
  datatype Upserted = Upserted(users: Users, userId: nat)

  /** `name || undefined` / `name || null`: the name when it is a non-empty string. */
  function GivenName(name: Option<string>): Option<string> {
    if Truthy(name) then name else None
  }

  /**
   * `prisma.user.upsert({ where: { email }, update: { name: name || undefined },
   * create: { email, name: name || null, passwordHash: "" } })`
   */
  function Upsert(u: Users, email: string, name: Option<string>): (r: Upserted)
    ensures r.users.byEmail.Keys == u.byEmail.Keys + {email}
    ensures email in r.users.byEmail && r.users.byEmail[email].id == r.userId
    ensures forall e :: e in u.byEmail && e != email ==> r.users.byEmail[e] == u.byEmail[e]
    ensures email in u.byEmail ==>
      (r.userId == u.byEmail[email].id && r.users.nextId == u.nextId
       && r.users.byEmail[email] == u.byEmail[email].(name := if Truthy(name) then name else u.byEmail[email].name))
    ensures email !in u.byEmail ==>
      (r.userId == u.nextId && r.users.nextId == u.nextId + 1
       && r.users.byEmail[email] == User(u.nextId, email, GivenName(name), ""))
  {
    if email in u.byEmail then
      var existing := u.byEmail[email];
      var updated := if Truthy(name) then existing.(name := name) else existing;
      Upserted(Users(u.byEmail[email := updated], u.nextId), existing.id)
    else
      Upserted(Users(u.byEmail[email := User(u.nextId, email, GivenName(name), "")], u.nextId + 1), u.nextId)
  }

  /** An upsert keeps the table consistent. */
  lemma UpsertKeepsValid(u: Users, email: string, name: Option<string>)
    requires UsersValid(u)
    ensures UsersValid(Upsert(u, email, name).users)
  {
  }

  /**
   * Two orders with the same email create at most one user: the second upsert
   * finds the row the first created or updated, and hands out no new id.
   */
  lemma UpsertTwiceSameUser(u: Users, email: string, name1: Option<string>, name2: Option<string>)
    ensures var first := Upsert(u, email, name1);
      var second := Upsert(first.users, email, name2);
      && second.userId == first.userId
      && second.users.byEmail.Keys == first.users.byEmail.Keys
      && second.users.nextId == first.users.nextId
      && |second.users.byEmail| <= |u.byEmail| + 1
  {
    var first := Upsert(u, email, name1);
    assert first.users.byEmail.Keys == u.byEmail.Keys + {email};
    assert |u.byEmail.Keys + {email}| <= |u.byEmail.Keys| + 1;
  }

  /** A row of the Order table: the snapshots and kobo amounts, and the linked user if an email was given. */
  datatype Order = Order(id: nat, userId: Option<nat>, items: seq<OrderItem>,
                         subtotal: int, shipping: int, tax: int, total: int, status: string)

  /** The order row written for a priced order. */
  function OrderRow(id: nat, userId: Option<nat>, o: PricedOrder): (row: Order)
    ensures row.id == id && row.userId == userId
    ensures row.items == o.items && row.status == Pending
    ensures row.total == o.total && row.subtotal == o.subtotal && row.shipping == o.shipping && row.tax == o.tax
  {
    Order(id, userId, o.items, o.subtotal, o.shipping, o.tax, o.total, Pending)
  }

  /** Order ids increase and are below `next`, and every stored total is the sum of its subtotal, shipping and tax. */
  ghost predicate OrdersValid(orders: seq<Order>, next: nat) {
    && (forall k :: 0 <= k < |orders| ==> orders[k].id < next)
    && (forall j, k :: 0 <= j < k < |orders| ==> orders[j].id < orders[k].id)
    && (forall k :: 0 <= k < |orders| ==> orders[k].total == orders[k].subtotal + orders[k].shipping + orders[k].tax)
  }

  /** Appending a priced row under the next id keeps the order table valid. */
  lemma AppendKeepsOrdersValid(orders: seq<Order>, next: nat, userId: Option<nat>, o: PricedOrder)
    requires OrdersValid(orders, next) && PricedBy(o)
    ensures OrdersValid(orders + [OrderRow(next, userId, o)], next + 1)
  {
  }

  /**
   * With unique product ids the lookup inside `map` never misses, so the
   * order path answers with its catch-all failure exactly when some line of
   * `items` is `null`.
   */
  lemma FailsOnlyOnNullLine(items: Option<seq<Line>>, products: seq<Product>)
    requires UniqueIds(products)
    ensures PriceOrder(items, products) == Failure(Failed) <==> items.Some? && !NoNullLines(items.value)
  {
    if items.Some? {
      AcceptedExactly(items.value, products);
    }
  }

  /** The user table, the order table, the next order id and the response after one request. */
  datatype Placement = Placement(users: Users, orders: seq<Order>, nextOrderId: nat, response: Result<Receipt, OrderError>)

  /**
   * `POST /api/orders` with body `{ name, email, items }` over the tables:
   * pricing first, then the upsert when `email` is truthy, then one order row.
   */
  function Place(users: Users, orders: seq<Order>, next: nat, products: seq<Product>,
                 name: Option<string>, email: Option<string>, items: Option<seq<Line>>): Placement
  {
    Record(users, orders, next, name, email, PriceOrder(items, products))
  }

  /** Lines 289-319: what the handler writes and answers once pricing has succeeded or failed. */
  function Record(users: Users, orders: seq<Order>, next: nat,
                  name: Option<string>, email: Option<string>, pricing: Result<PricedOrder, OrderError>): Placement
  {
    match pricing
    case Failure(e) => Placement(users, orders, next, Failure(e))
    case Success(priced) =>
      if Truthy(email) then
        var linked := Upsert(users, email.value, name);
        Placement(linked.users, orders + [OrderRow(next, Some(linked.userId), priced)], next + 1, Success(ToReceipt(next, priced)))
      else
        Placement(users, orders + [OrderRow(next, None, priced)], next + 1, Success(ToReceipt(next, priced)))
  }

  /** A rejected request writes nothing: no upsert and no order row. */
  lemma RejectionWritesNothing(users: Users, orders: seq<Order>, next: nat, products: seq<Product>,
                               name: Option<string>, email: Option<string>, items: Option<seq<Line>>)
    requires PriceOrder(items, products).Failure?
    ensures var p := Place(users, orders, next, products, name, email, items);
            p.users == users && p.orders == orders && p.nextOrderId == next
            && p.response == Failure(PriceOrder(items, products).error)
  {
  }

  /**
   * An accepted request appends exactly one row, under the next id, holding
   * the priced snapshots; the receipt is that row's amounts in naira; the
   * row is linked to a user exactly when an email was given, and that user is
   * the one stored under the email.
   */
  lemma AcceptanceWritesOneOrder(users: Users, orders: seq<Order>, next: nat, products: seq<Product>,
                                 name: Option<string>, email: Option<string>, items: Option<seq<Line>>)
    requires PriceOrder(items, products).Success?
    ensures var p := Place(users, orders, next, products, name, email, items);
            var row := p.orders[|p.orders| - 1];
            |p.orders| == |orders| + 1 && p.orders[..|orders|] == orders && p.nextOrderId == next + 1
            && row.id == next && row.items == PriceOrder(items, products).value.items
            && row.total == row.subtotal + row.shipping + row.tax
            && p.response == Success(ToReceipt(next, PriceOrder(items, products).value))
            && (row.userId.Some? <==> Truthy(email))
            && (Truthy(email) ==> email.value in p.users.byEmail && p.users.byEmail[email.value].id == row.userId.value)
            && (!Truthy(email) ==> p.users == users)
  {
    var o := PriceOrder(items, products).value;
    assert Place(users, orders, next, products, name, email, items) == Record(users, orders, next, name, email, Success(o));
    RecordAppendsOne(users, orders, next, name, email, o);
  }

  /** `AcceptanceWritesOneOrder` for any priced order. */
  lemma RecordAppendsOne(users: Users, orders: seq<Order>, next: nat, name: Option<string>, email: Option<string>, o: PricedOrder)
    requires PricedBy(o)
    ensures var p := Record(users, orders, next, name, email, Success(o));
            var row := p.orders[|p.orders| - 1];
            |p.orders| == |orders| + 1 && p.orders[..|orders|] == orders && p.nextOrderId == next + 1
            && row.id == next && row.items == o.items
            && row.total == row.subtotal + row.shipping + row.tax
            && p.response == Success(ToReceipt(next, o))
            && (row.userId.Some? <==> Truthy(email))
            && (Truthy(email) ==> email.value in p.users.byEmail && p.users.byEmail[email.value].id == row.userId.value)
            && (!Truthy(email) ==> p.users == users)
  {
    var p := Record(users, orders, next, name, email, Success(o));
    assert p.orders[..|orders|] == orders;
  }

  /** Every request keeps the tables valid, and answers with the catch-all failure exactly when a line is `null`. */
  lemma PlaceKeepsValid(users: Users, orders: seq<Order>, next: nat, products: seq<Product>,
                        name: Option<string>, email: Option<string>, items: Option<seq<Line>>)
    requires UniqueIds(products) && UsersValid(users) && OrdersValid(orders, next)
    ensures var p := Place(users, orders, next, products, name, email, items);
            UsersValid(p.users) && OrdersValid(p.orders, p.nextOrderId)
            && (p.response == Failure(Failed) <==> items.Some? && !NoNullLines(items.value))
  {
    FailsOnlyOnNullLine(items, products);
    RecordKeepsValid(users, orders, next, name, email, PriceOrder(items, products));
  }

  /** Recording a failure or a priced order keeps the tables valid and answers a failure exactly as it came. */
  lemma RecordKeepsValid(users: Users, orders: seq<Order>, next: nat,
                         name: Option<string>, email: Option<string>, pricing: Result<PricedOrder, OrderError>)
    requires UsersValid(users) && OrdersValid(orders, next)
    requires pricing.Success? ==> PricedBy(pricing.value)
    ensures var p := Record(users, orders, next, name, email, pricing);
            UsersValid(p.users) && OrdersValid(p.orders, p.nextOrderId)
            && (pricing.Failure? ==> p.response == Failure(pricing.error))
            && (pricing.Success? ==> p.response.Success?)
  {
    if pricing.Success? {
      AppendKeepsOrdersValid(orders, next, if Truthy(email) then Some(Upsert(users, email.value, name).userId) else None, pricing.value);
      if Truthy(email) {
        UpsertKeepsValid(users, email.value, name);
      }
    }
  }

  class Store {
    /** The Product table, read-only for this handler. */
    const products: seq<Product>
    var users: Users
    var orders: seq<Order>
    var nextOrderId: nat

    /** Product ids are a primary key, and the user and order tables are consistent. */
    ghost predicate Valid()
      reads this
    {
      && UniqueIds(products)
      && UsersValid(users)
      && OrdersValid(orders, nextOrderId)
    }

    constructor (products: seq<Product>)
      requires UniqueIds(products)
      ensures Valid()
      ensures this.products == products && users == Users(map[], 1) && orders == [] && nextOrderId == 1
    {
      this.products := products;
      users := Users(map[], 1);
      orders := [];
      nextOrderId := 1;
    }

    /** Lines 253-324: price the request, then record it. */
    method PlaceOrder(name: Option<string>, email: Option<string>, items: Option<seq<Line>>)
      returns (r: Result<Receipt, OrderError>)
      requires Valid()
      modifies this
      ensures Placement(users, orders, nextOrderId, r) ==
              Place(old(users), old(orders), old(nextOrderId), products, name, email, items)
      ensures Valid()
      ensures r == Failure(Failed) <==> items.Some? && !NoNullLines(items.value)
    {
      PlaceKeepsValid(users, orders, nextOrderId, products, name, email, items);
      var priced := PriceOrder(items, products);
      r := RecordOrder(name, email, priced);
    }

    /**
     * Lines 289-319: a failed pricing returns before any write; otherwise
     * `userId` is set by the upsert when `email` is truthy, one order row is
     * created, and the receipt is built from the row.
     */
    method RecordOrder(name: Option<string>, email: Option<string>, priced: Result<PricedOrder, OrderError>)
      returns (r: Result<Receipt, OrderError>)
      modifies this
      ensures Placement(users, orders, nextOrderId, r) == Record(old(users), old(orders), old(nextOrderId), name, email, priced)
    {
      if priced.Failure? {
        return Failure(priced.error);
      }
      var userId: Option<nat> := None;
      if Truthy(email) {
        var linked := Upsert(users, email.value, name);
        users := linked.users;
        userId := Some(linked.userId);
      }
      var id := nextOrderId;
      orders := orders + [OrderRow(id, userId, priced.value)];
      nextOrderId := nextOrderId + 1;
      r := Success(ToReceipt(id, priced.value));
    }
  }
}
