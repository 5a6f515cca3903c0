/** The product table of the inventory-management service, as its REST test
    suite pins it down: products keyed by `pid`, with add, update, remove and
    get, and stock adjustments that never take `amount_in_stock` below zero. */
module Inventory {
  import opened Wrappers

  type Pid = int

  /** The `price` column, a decimal the service stores and returns but never
      computes with; kept as its decimal text. */
  datatype Price = Price(decimal: string)

  datatype Product = Product(
    pid: Pid,
    pcode: string,
    price: Price,
    sku: string,
    amountInStock: nat,
    pname: string,
    description: string,
    lang: string)

  /** The columns add and update return for the row they wrote. */
  datatype Summary = Summary(pid: Pid, pname: string, description: string)

  function SummaryOf(p: Product): Summary
  {
    Summary(p.pid, p.pname, p.description)
  }

  datatype LedgerError =
    | DuplicatePid(pid: Pid)
    | ProductNotFound(pid: Pid)
    | InsufficientStock(pid: Pid, requested: nat, available: nat)

  type Catalogue = map<Pid, Product>

  /** Every product is stored under its own `pid`. */
  predicate WellKeyed(c: Catalogue)
  {
    forall pid :: pid in c ==> c[pid].pid == pid
  }

  /** A product after `n` more units arrive. */
  function Restock(p: Product, n: nat): (q: Product)
    ensures q.amountInStock == p.amountInStock + n
    ensures q.(amountInStock := p.amountInStock) == p
  {
    p.(amountInStock := p.amountInStock + n)
  }

  /** A product after `n` units are taken out: refused, with the record left
      as it was, when fewer than `n` are in stock. */
  function Withdraw(p: Product, n: nat): (r: Result<Product, LedgerError>)
    ensures r.Ok? <==> n <= p.amountInStock
    ensures r.Ok? ==> r.value.amountInStock + n == p.amountInStock
    ensures r.Ok? ==> r.value.(amountInStock := p.amountInStock) == p
    ensures r.Err? ==> r.error == InsufficientStock(p.pid, n, p.amountInStock)
  {
    if n <= p.amountInStock then Ok(p.(amountInStock := p.amountInStock - n))
    else Err(InsufficientStock(p.pid, n, p.amountInStock))
  }

  /** Taking out what just arrived gives back the record as it was. */
  lemma {:induction false} WithdrawUndoesRestock(p: Product, n: nat)
    ensures Withdraw(Restock(p, n), n) == Ok(p)
  {
  }

  /** Restocking what was just taken out gives back the record as it was. */
  lemma {:induction false} RestockUndoesWithdraw(p: Product, n: nat)
    requires Withdraw(p, n).Ok?
    ensures Restock(Withdraw(p, n).value, n) == p
  {
  }

  /** Taking out the whole stock leaves 0, after which taking out even one
      unit is refused and leaves the stock at 0. */
  lemma {:induction false} EmptyStockRefuses(p: Product)
    ensures Withdraw(p, p.amountInStock).Ok?
    ensures Withdraw(p, p.amountInStock).value.amountInStock == 0
    ensures Withdraw(Withdraw(p, p.amountInStock).value, 1).Err?
  {
  }

  /** One stock request of the REST interface: `PUT /{pid}/{n}` adds,
      `DELETE /{pid}/{n}` takes out. */
  datatype Adjustment = Increment(n: nat) | Decrement(n: nat)

  /** The product after one stock request; a refused decrement leaves it
      as it was. */
  function Apply(p: Product, request: Adjustment): Product
  {
    match request
    case Increment(n) => Restock(p, n)
    case Decrement(n) => if Withdraw(p, n).Ok? then Withdraw(p, n).value else p
  }

  /** The product after a series of stock requests, applied in order. */
  function ApplyAll(p: Product, requests: seq<Adjustment>): Product
    decreases |requests|
  {
    if requests == [] then p else ApplyAll(Apply(p, requests[0]), requests[1..])
  }

  function TotalIncrements(requests: seq<Adjustment>): nat
    decreases |requests|
  {
    if requests == [] then 0
    else (if requests[0].Increment? then requests[0].n else 0) + TotalIncrements(requests[1..])
  }

  /** The units actually taken out by a series of requests: the amounts of
      the decrements accepted along the way. */
  function AppliedDecrements(p: Product, requests: seq<Adjustment>): nat
    decreases |requests|
  {
    if requests == [] then 0
    else
      (if requests[0].Decrement? && Withdraw(p, requests[0].n).Ok? then requests[0].n else 0)
      + AppliedDecrements(Apply(p, requests[0]), requests[1..])
  }

  /** The ledger balances: after any series of stock requests, the stock is
      the start plus every unit added minus every unit actually taken out,
      and no other field has changed. */
  lemma {:induction false} LedgerBalance(p: Product, requests: seq<Adjustment>)
    ensures ApplyAll(p, requests).amountInStock + AppliedDecrements(p, requests)
            == p.amountInStock + TotalIncrements(requests)
    ensures ApplyAll(p, requests).(amountInStock := p.amountInStock) == p
    decreases |requests|
  {
    if requests != [] {
      LedgerBalance(Apply(p, requests[0]), requests[1..]);
    }
  }

  /** Consequently the stock never exceeds what was there plus everything
      that arrived. */
  lemma {:induction false} StockWithinIncrements(p: Product, requests: seq<Adjustment>)
    ensures ApplyAll(p, requests).amountInStock <= p.amountInStock + TotalIncrements(requests)
  {
    LedgerBalance(p, requests);
  }

  class ProductLedger {
    var products: Catalogue

    ghost predicate Valid()
      reads this
    {
      WellKeyed(products)
    }

    constructor ()
      ensures Valid() && products == map[]
    {
      products := map[];
    }

    /** Empties the table, as the suite does before every case. */
    method DeleteAll()
      modifies this
      ensures Valid() && products == map[]
    {
      products := map[];
    }

    /** Adds a product under its own pid and returns its key columns; a pid
        already present is refused and nothing changes. */
    method Add(p: Product) returns (r: Result<seq<Summary>, LedgerError>)
      requires Valid()
      modifies this
      ensures Valid()
      ensures p.pid in old(products) ==> r == Err(DuplicatePid(p.pid)) && products == old(products)
      ensures p.pid !in old(products) ==> r == Ok([SummaryOf(p)]) && products == old(products)[p.pid := p]
    {
      if p.pid in products {
        return Err(DuplicatePid(p.pid));
      }
      products := products[p.pid := p];
      r := Ok([SummaryOf(p)]);
    }

    /** Replaces every attribute of the product stored under `pid` with those
        of `edit` (the record keeps `pid` as its key) and returns its key
        columns; an absent pid is refused and nothing changes. */
    method Update(pid: Pid, edit: Product) returns (r: Result<seq<Summary>, LedgerError>)
      requires Valid()
      modifies this
      ensures Valid()
      ensures pid !in old(products) ==> r == Err(ProductNotFound(pid)) && products == old(products)
      ensures pid in old(products) ==>
        && r == Ok([SummaryOf(edit.(pid := pid))])
        && products == old(products)[pid := edit.(pid := pid)]
    {
      if pid !in products {
        return Err(ProductNotFound(pid));
      }
      var row := edit.(pid := pid);
      products := products[pid := row];
      r := Ok([SummaryOf(row)]);
    }

    /** Removes the product and returns the count removed; an absent pid is
        refused and nothing changes. */
    method Remove(pid: Pid) returns (r: Result<nat, LedgerError>)
      requires Valid()
      modifies this
      ensures Valid()
      ensures pid !in old(products) ==> r == Err(ProductNotFound(pid)) && products == old(products)
      ensures pid in old(products) ==> r == Ok(1) && products == old(products) - {pid}
    {
      if pid !in products {
        return Err(ProductNotFound(pid));
      }
      products := products - {pid};
      r := Ok(1);
    }

    /** Returns exactly the stored record; an absent pid is refused. */
    method Get(pid: Pid) returns (r: Result<Product, LedgerError>)
      requires Valid()
      ensures r.Ok? <==> pid in products
      ensures r.Ok? ==> r.value == products[pid] && r.value.pid == pid
      ensures r.Err? ==> r.error == ProductNotFound(pid)
    {
      if pid !in products {
        return Err(ProductNotFound(pid));
      }
      r := Ok(products[pid]);
    }

    /** Adds `n` to the stock of the product; an absent pid is refused. */
    method Increment(pid: Pid, n: nat) returns (r: Result<Product, LedgerError>)
      requires Valid()
      modifies this
      ensures Valid()
      ensures pid !in old(products) ==> r == Err(ProductNotFound(pid)) && products == old(products)
      ensures pid in old(products) ==>
        && r == Ok(Restock(old(products)[pid], n))
        && products == old(products)[pid := Restock(old(products)[pid], n)]
    {
      if pid !in products {
        return Err(ProductNotFound(pid));
      }
      var row := Restock(products[pid], n);
      products := products[pid := row];
      r := Ok(row);
    }

    /** Takes `n` out of the stock of the product. An absent pid, or a stock
        smaller than `n`, is refused and nothing changes. */
    method Decrement(pid: Pid, n: nat) returns (r: Result<Product, LedgerError>)
      requires Valid()
      modifies this
      ensures Valid()
      ensures pid !in old(products) ==> r == Err(ProductNotFound(pid)) && products == old(products)
      ensures pid in old(products) ==> r == Withdraw(old(products)[pid], n)
      ensures r.Ok? ==> products == old(products)[pid := r.value]
      ensures r.Err? ==> products == old(products)
    {
      if pid !in products {
        return Err(ProductNotFound(pid));
      }
      r := Withdraw(products[pid], n);
      if r.Ok? {
        products := products[pid := r.value];
      }
    }
  }

  /** The product every case of the suite works with. */
  function Watch(): Product
  {
    Product(3, "PQR123", Price("100"), "LMN", 20, "Watch", "This is a Tissot classic watch.", "en_US")
  }

  /** The replacement attributes of the update cases. */
  function Bag(pid: Pid): Product
  {
    Product(pid, "BAG123", Price("200"), "NIKEBAG", 25, "Bag", "This is a Nike bag.", "en_US")
  }

  /** Each method below is one case of the suite, run on a freshly emptied
      table and checked only through the ledger's contracts. */

  method AddsAProduct() returns (r: Result<seq<Summary>, LedgerError>)
    ensures r == Ok([Summary(3, "Watch", "This is a Tissot classic watch.")])
  {
    var ledger := new ProductLedger();
    r := ledger.Add(Watch());
  }

  method RefusesDuplicatePid() returns (first: Result<seq<Summary>, LedgerError>, second: Result<seq<Summary>, LedgerError>, kept: Result<Product, LedgerError>)
    ensures first.Ok?
    ensures second == Err(DuplicatePid(3))
    ensures kept == Ok(Watch())
  {
    var ledger := new ProductLedger();
    first := ledger.Add(Watch());
    second := ledger.Add(Watch());
    kept := ledger.Get(3);
  }

  method UpdatesAProduct() returns (r: Result<seq<Summary>, LedgerError>)
    ensures r == Ok([Summary(3, "Bag", "This is a Nike bag.")])
  {
    var ledger := new ProductLedger();
    var _ := ledger.Add(Watch());
    r := ledger.Update(3, Bag(3));
  }

  method RefusesUpdateOfMissing() returns (r: Result<seq<Summary>, LedgerError>)
    ensures r == Err(ProductNotFound(5))
  {
    var ledger := new ProductLedger();
    var _ := ledger.Add(Watch());
    r := ledger.Update(5, Bag(5));
  }

  method RemovesAProduct() returns (r: Result<nat, LedgerError>, gone: Result<Product, LedgerError>)
    ensures r == Ok(1)
    ensures gone == Err(ProductNotFound(3))
  {
    var ledger := new ProductLedger();
    var _ := ledger.Add(Watch());
    r := ledger.Remove(3);
    gone := ledger.Get(3);
  }

  method RefusesRemoveOfMissing() returns (r: Result<nat, LedgerError>)
    ensures r == Err(ProductNotFound(2))
  {
    var ledger := new ProductLedger();
    var _ := ledger.Add(Watch());
    r := ledger.Remove(2);
  }

  method RetrievesAProduct() returns (r: Result<Product, LedgerError>)
    ensures r == Ok(Watch())
  {
    var ledger := new ProductLedger();
    var _ := ledger.Add(Watch());
    r := ledger.Get(3);
  }

  method RefusesGetOfMissing() returns (r: Result<Product, LedgerError>)
    ensures r == Err(ProductNotFound(2))
  {
    var ledger := new ProductLedger();
    var _ := ledger.Add(Watch());
    r := ledger.Get(2);
  }

  method DecrementsStock() returns (r: Result<Product, LedgerError>, after: Result<Product, LedgerError>)
    ensures r.Ok?
    ensures after == Ok(Watch().(amountInStock := 15))
  {
    var ledger := new ProductLedger();
    var _ := ledger.Add(Watch());
    r := ledger.Decrement(3, 5);
    after := ledger.Get(3);
  }

  method IncrementsStock() returns (r: Result<Product, LedgerError>, after: Result<Product, LedgerError>)
    ensures r.Ok?
    ensures after == Ok(Watch().(amountInStock := 25))
  {
    var ledger := new ProductLedger();
    var _ := ledger.Add(Watch());
    r := ledger.Increment(3, 5);
    after := ledger.Get(3);
  }

  method RefusesOverdraw() returns (r: Result<Product, LedgerError>, after: Result<Product, LedgerError>)
    ensures r == Err(InsufficientStock(3, 21, 20))
    ensures after == Ok(Watch())
  {
    var ledger := new ProductLedger();
    var _ := ledger.Add(Watch());
    r := ledger.Decrement(3, 21);
    after := ledger.Get(3);
  }

  method RefusesDrawFromEmpty() returns (first: Result<Product, LedgerError>, second: Result<Product, LedgerError>, after: Result<Product, LedgerError>)
    ensures first == Ok(Watch().(amountInStock := 0))
    ensures second == Err(InsufficientStock(3, 1, 0))
    ensures after == Ok(Watch().(amountInStock := 0))
  {
    var ledger := new ProductLedger();
    var _ := ledger.Add(Watch());
    first := ledger.Decrement(3, 20);
    second := ledger.Decrement(3, 1);
    after := ledger.Get(3);
  }
}
