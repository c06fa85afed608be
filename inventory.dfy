/**
  The inventory system of `oops/miniproject.cpp`: a vector of products updated in
  place by purchases (stock in) and shipments (stock out), a log of purchases, and a
  profit report. Console input becomes parameters and console output becomes
  results; the purchase date, read from the clock, is a parameter. Prices and costs
  are exact reals rather than `double`.
*/
module Inventory {
  import opened Options

  datatype Product = Product(id: int, name: string, cost: real, price: real, stock: int, sold: int)

  datatype Purchase = Purchase(productName: string, quantity: int, totalCost: real, date: string)

  datatype PurchaseOutcome = Purchased(total: real) | PurchaseNotFound

  datatype ShipOutcome = Shipped | NotEnoughStock | ShipNotFound

  datatype Status = Profit | Loss

  /** `Product::profit`: margin times units sold. */
  function ProfitOf(p: Product): (r: real)
    ensures p.sold == 0 ==> r == 0.0
    ensures p.sold > 0 ==> (r > 0.0 <==> p.price > p.cost) && (r < 0.0 <==> p.price < p.cost)
  {
    (p.price - p.cost) * p.sold as real
  }

  /** What a product's units in hand and already sold cost to buy. */
  function InvestmentOf(p: Product): real {
    p.cost * (p.stock + p.sold) as real
  }

  /** The sum of `f` over the products, accumulated from the front as the report does. */
  function Sum(ps: seq<Product>, f: Product -> real): real {
    if ps == [] then 0.0 else Sum(ps[..|ps| - 1], f) + f(ps[|ps| - 1])
  }

  /** Replacing one product changes a sum by the difference of its terms. */
  lemma {:induction false} SumUpdate(ps: seq<Product>, f: Product -> real, i: int, p: Product)
    requires 0 <= i < |ps|
    ensures Sum(ps[i := p], f) == Sum(ps, f) - f(ps[i]) + f(p)
    decreases |ps|
  {
    var qs := ps[i := p];
    assert qs[..|qs| - 1] == if i == |ps| - 1 then ps[..|ps| - 1] else ps[..|ps| - 1][i := p];
    if i < |ps| - 1 {
      SumUpdate(ps[..|ps| - 1], f, i, p);
    }
  }

  /** The position of the first product with the id, as the `for (auto &p : products)` scans find it. */
  function Find(ps: seq<Product>, id: int): (r: Option<nat>)
    ensures r.Some? ==> r.value < |ps| && ps[r.value].id == id && forall k :: 0 <= k < r.value ==> ps[k].id != id
    ensures r.None? <==> forall k :: 0 <= k < |ps| ==> ps[k].id != id
  {
    if ps == [] then None
    else if ps[0].id == id then Some(0)
    else match Find(ps[1..], id)
      case None => None
      case Some(k) => Some(k + 1)
  }

  /** Purchasing adds to the stock; units sold are untouched. */
  function Restock(p: Product, qty: int): (r: Product)
    ensures r.stock - p.stock == qty && r.sold == p.sold
    ensures r.(stock := p.stock) == p
  {
    p.(stock := p.stock + qty)
  }

  /** Shipping moves units from stock to sold. */
  function Dispatch(p: Product, qty: int): (r: Product)
    ensures r.stock + r.sold == p.stock + p.sold
    ensures r.sold - p.sold == qty
    ensures r.(stock := p.stock, sold := p.sold) == p
  {
    p.(stock := p.stock - qty, sold := p.sold + qty)
  }

  /** Shipping leaves the investment alone and adds the margin on the shipped units to the profit. */
  lemma DispatchEffect(p: Product, qty: int)
    ensures InvestmentOf(Dispatch(p, qty)) == InvestmentOf(p)
    ensures ProfitOf(Dispatch(p, qty)) == ProfitOf(p) + (p.price - p.cost) * qty as real
  {
    var m := p.price - p.cost;
    assert m * (p.sold + qty) as real == m * p.sold as real + m * qty as real;
  }

  /** Purchasing adds the cost of the new units to the investment and leaves the profit alone. */
  lemma RestockEffect(p: Product, qty: int)
    ensures InvestmentOf(Restock(p, qty)) == InvestmentOf(p) + p.cost * qty as real
    ensures ProfitOf(Restock(p, qty)) == ProfitOf(p)
  {
    assert p.cost * (p.stock + qty + p.sold) as real == p.cost * (p.stock + p.sold) as real + p.cost * qty as real;
  }

  /** The five sample products the constructor adds. */
  function SampleProducts(): seq<Product> {
    [ Product(1, "Laptop", 45000.0, 60000.0, 10, 0),
      Product(2, "Monitor", 7000.0, 9500.0, 20, 0),
      Product(3, "Keyboard", 600.0, 900.0, 50, 0),
      Product(4, "Mouse", 300.0, 550.0, 60, 0),
      Product(5, "Printer", 5000.0, 7000.0, 15, 0) ]
  }

  /** `InventorySystem`. */
  class InventorySystem {
    var products: seq<Product>
    var purchases: seq<Purchase>

    /** The constructor: the five sample products, ids 1 to 5, none sold; no purchases. */
    constructor ()
      ensures products == SampleProducts() && purchases == []
      ensures |products| == 5 && forall i :: 0 <= i < 5 ==> products[i].id == i + 1 && products[i].sold == 0
    {
      products := SampleProducts();
      purchases := [];
    }

    /**
      `purchaseProduct`: the first product with the id gains `qty` units of stock and
      one purchase of `cost * qty` is logged; an unknown id changes nothing.
    */
    method PurchaseProduct(id: int, qty: int, date: string) returns (outcome: PurchaseOutcome)
      modifies this
      ensures Find(old(products), id).None? ==>
                outcome == PurchaseNotFound && products == old(products) && purchases == old(purchases)
      ensures Find(old(products), id).Some? ==>
                var i := Find(old(products), id).value;
                var p := old(products)[i];
                outcome == Purchased(p.cost * qty as real)
                && products == old(products)[i := Restock(p, qty)]
                && purchases == old(purchases) + [Purchase(p.name, qty, p.cost * qty as real, date)]
    {
      var i := 0;
      while i < |products|
        invariant 0 <= i <= |products|
        invariant products == old(products) && purchases == old(purchases)
        invariant forall k :: 0 <= k < i ==> products[k].id != id
      {
        if products[i].id == id {
          var p := products[i];
          products := products[i := Restock(p, qty)];
          var total := p.cost * qty as real;
          purchases := purchases + [Purchase(p.name, qty, total, date)];
          return Purchased(total);
        }
        i := i + 1;
      }
      return PurchaseNotFound;
    }

    /**
      `shipProduct`: the first product with the id ships `qty` units when it has that
      many in stock and refuses otherwise; an unknown id changes nothing. The purchase
      log is never touched.
    */
    method ShipProduct(id: int, qty: int) returns (outcome: ShipOutcome)
      modifies this
      ensures purchases == old(purchases)
      ensures Find(old(products), id).None? ==> outcome == ShipNotFound && products == old(products)
      ensures Find(old(products), id).Some? ==>
                var i := Find(old(products), id).value;
                var p := old(products)[i];
                if qty > p.stock then outcome == NotEnoughStock && products == old(products)
                else outcome == Shipped && products == old(products)[i := Dispatch(p, qty)]
    {
      var i := 0;
      while i < |products|
        invariant 0 <= i <= |products|
        invariant products == old(products) && purchases == old(purchases)
        invariant forall k :: 0 <= k < i ==> products[k].id != id
      {
        if products[i].id == id {
          if qty > products[i].stock {
            return NotEnoughStock;
          }
          products := products[i := Dispatch(products[i], qty)];
          return Shipped;
        }
        i := i + 1;
      }
      return ShipNotFound;
    }

    /**
      `calculateProfitLoss`: total profit and total investment over all products,
      with PROFIT reported exactly when the total profit is positive.
    */
    method CalculateProfitLoss() returns (totalProfit: real, totalInvestment: real, status: Status)
      ensures totalProfit == Sum(products, ProfitOf)
      ensures totalInvestment == Sum(products, InvestmentOf)
      ensures status == Profit <==> totalProfit > 0.0
    {
      totalProfit, totalInvestment := 0.0, 0.0;
      var i := 0;
      while i < |products|
        invariant 0 <= i <= |products|
        invariant totalProfit == Sum(products[..i], ProfitOf)
        invariant totalInvestment == Sum(products[..i], InvestmentOf)
      {
        assert products[..i + 1][..i] == products[..i];
        totalProfit := totalProfit + ProfitOf(products[i]);
        totalInvestment := totalInvestment + InvestmentOf(products[i]);
        i := i + 1;
      }
      assert products[..i] == products;
      status := if totalProfit > 0.0 then Profit else Loss;
    }
  }

  /**
    A shipment that goes through leaves the report's total investment unchanged and
    raises its total profit by the margin on the shipped units.
  */
  lemma ShipReport(ps: seq<Product>, i: int, qty: int)
    requires 0 <= i < |ps|
    ensures Sum(ps[i := Dispatch(ps[i], qty)], InvestmentOf) == Sum(ps, InvestmentOf)
    ensures Sum(ps[i := Dispatch(ps[i], qty)], ProfitOf) == Sum(ps, ProfitOf) + (ps[i].price - ps[i].cost) * qty as real
  {
    DispatchEffect(ps[i], qty);
    SumUpdate(ps, InvestmentOf, i, Dispatch(ps[i], qty));
    SumUpdate(ps, ProfitOf, i, Dispatch(ps[i], qty));
  }

  /**
    A purchase raises the report's total investment by what the new units cost, which
    is the total the purchase log records, and leaves the total profit unchanged.
  */
  lemma PurchaseReport(ps: seq<Product>, i: int, qty: int)
    requires 0 <= i < |ps|
    ensures Sum(ps[i := Restock(ps[i], qty)], InvestmentOf) == Sum(ps, InvestmentOf) + ps[i].cost * qty as real
    ensures Sum(ps[i := Restock(ps[i], qty)], ProfitOf) == Sum(ps, ProfitOf)
  {
    RestockEffect(ps[i], qty);
    SumUpdate(ps, InvestmentOf, i, Restock(ps[i], qty));
    SumUpdate(ps, ProfitOf, i, Restock(ps[i], qty));
  }

  /** With no quantity negative, shipping never takes a stock below zero. */
  lemma ShipKeepsStockNonNegative(p: Product, qty: int)
    requires 0 <= qty <= p.stock
    ensures Dispatch(p, qty).stock >= 0 && Dispatch(p, qty).sold >= p.sold
  {
  }

  /** Before anything is shipped nothing is sold, so the fresh system reports a loss. */
  lemma FreshSystemReportsLoss()
    ensures Sum(SampleProducts(), ProfitOf) == 0.0
    ensures Sum(SampleProducts(), InvestmentOf) == 713000.0
  {
    var ps := SampleProducts();
    assert ps[..4][..3] == ps[..3] && ps[..3][..2] == ps[..2] && ps[..2][..1] == ps[..1] && ps[..1][..0] == [];
    assert Sum(ps[..1], InvestmentOf) == 450000.0 && Sum(ps[..1], ProfitOf) == 0.0;
    assert Sum(ps[..2], InvestmentOf) == 590000.0 && Sum(ps[..2], ProfitOf) == 0.0;
    assert Sum(ps[..3], InvestmentOf) == 620000.0 && Sum(ps[..3], ProfitOf) == 0.0;
    assert Sum(ps[..4], InvestmentOf) == 638000.0 && Sum(ps[..4], ProfitOf) == 0.0;
  }
}
