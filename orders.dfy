/**
 * The order editor: the draft list of line items it builds
 * (app.js:703-715) and the stock deduction its save performs
 * (app.js:717-726).
 */
module Orders {
  import opened Wrappers
  import opened Text
  import opened Records
  import Seqs

  /** The customer name used when the field is left blank. */
  const DEFAULT_CUSTOMER: string := "Cliente"

  /**
   * The line the "Agregar" button adds: refused unless the selected index
   * names an existing product and the quantity is positive; the line keeps
   * the product's name, not its index.
   */
  function LineFor(products: seq<Product>, selected: int, qty: int): (r: Option<LineItem>)
    ensures r.Some? <==> 0 <= selected < |products| && qty > 0
    ensures r.Some? ==> r.value.name == products[selected].name && r.value.qty == qty
  {
    if 0 <= selected < |products| && qty > 0 then Some(LineItem(products[selected].name, qty)) else None
  }

  /** `customer.trim() || 'Cliente'`. */
  function CustomerName(raw: string): (r: string)
    ensures r != ""
    ensures Trim(raw) != "" ==> r == Trim(raw)
    ensures Trim(raw) == "" ==> r == DEFAULT_CUSTOMER
  {
    if Trim(raw) == "" then DEFAULT_CUSTOMER else Trim(raw)
  }

  /** The order a save appends; refused when the draft has no line. */
  function OrderFor(customer: string, items: seq<LineItem>, now: int): (r: Option<Order>)
    ensures r.None? <==> items == []
    ensures r.Some? ==> r.value.customer == CustomerName(customer) && r.value.items == items && r.value.created == now
  {
    if items == [] then None else Some(Order(CustomerName(customer), items, now))
  }

  /** `products.find(p => p.name === name)`, as the index of the first match. */
  function FindByName(products: seq<Product>, name: string): (r: Option<nat>)
    ensures r.Some? ==> r.value < |products| && products[r.value].name == name
    ensures r.Some? ==> forall j :: 0 <= j < r.value ==> products[j].name != name
    ensures r.None? ==> forall j :: 0 <= j < |products| ==> products[j].name != name
  {
    if products == [] then None
    else if products[0].name == name then Some(0)
    else
      match FindByName(products[1..], name)
      case None => None
      case Some(k) => Some(k + 1)
  }

  /** Two product lists that agree position by position on the names. */
  predicate SameNames(p: seq<Product>, q: seq<Product>) {
    |p| == |q| && forall j :: 0 <= j < |p| ==> p[j].name == q[j].name
  }

  /** `r` is `products` with, at most, different stocks. */
  predicate SameButStock(r: seq<Product>, products: seq<Product>) {
    |r| == |products| && forall j :: 0 <= j < |r| ==> r[j] == products[j].(stock := r[j].stock)
  }

  /** The search only looks at names, so lists with the same names answer alike. */
  lemma {:induction false} FindByNameOnNames(p: seq<Product>, q: seq<Product>, name: string)
    requires SameNames(p, q)
    ensures FindByName(p, name) == FindByName(q, name)
  {
    if p != [] {
      FindByNameOnNames(p[1..], q[1..], name);
    }
  }

  /** `Math.max(0, x)`. */
  function Floor0(x: int): (r: nat)
    ensures r >= x
    ensures x >= 0 ==> r == x
    ensures x < 0 ==> r == 0
  {
    if x < 0 then 0 else x
  }

  /**
   * `r` is `products` with only the product at `k` touched: a numeric stock
   * there loses `qty`, floored at 0, and a stock that is not a number stays.
   */
  predicate DeductedAt(r: seq<Product>, products: seq<Product>, k: nat, qty: int)
    requires k < |products|
  {
    |r| == |products|
    && (forall j :: 0 <= j < |r| && j != k ==> r[j] == products[j])
    && r[k].stock == (if products[k].stock.Some? then Some(Floor0(products[k].stock.value - qty)) else None)
  }

  /**
   * One line item's deduction: the FIRST product with the line's name loses
   * `qty` from its stock, floored at 0, if its stock is a number; nothing
   * else changes.
   */
  function DeductLine(products: seq<Product>, item: LineItem): (r: seq<Product>)
    ensures SameButStock(r, products)
    ensures FindByName(products, item.name).None? ==> r == products
    ensures FindByName(products, item.name).Some? ==> DeductedAt(r, products, FindByName(products, item.name).value, item.qty)
  {
    match FindByName(products, item.name)
    case None => products
    case Some(k) =>
      if products[k].stock.Some? then products[k := products[k].(stock := Some(Floor0(products[k].stock.value - item.qty)))]
      else products
  }

  /** The deductions of all line items, in order (`items.forEach`). */
  function DeductAll(products: seq<Product>, items: seq<LineItem>): (r: seq<Product>)
    ensures |r| == |products|
  {
    if items == [] then products
    else DeductLine(DeductAll(products, items[..|items| - 1]), items[|items| - 1])
  }

  /** The deductions of one more line item: the earlier ones, then its own. */
  lemma DeductAllSnoc(products: seq<Product>, items: seq<LineItem>, i: nat)
    requires i < |items|
    ensures DeductAll(products, items[..i + 1]) == DeductLine(DeductAll(products, items[..i]), items[i])
  {
    assert items[..i + 1][..i] == items[..i];
  }

  /** The total quantity ordered under one product name. */
  function Demand(items: seq<LineItem>, name: string): int {
    if items == [] then 0
    else Demand(items[..|items| - 1], name) + (if items[|items| - 1].name == name then items[|items| - 1].qty else 0)
  }

  /** Placing an order changes nothing about a product but its stock. */
  lemma {:induction false} DeductOnlyStock(products: seq<Product>, items: seq<LineItem>)
    ensures SameButStock(DeductAll(products, items), products)
    ensures SameNames(DeductAll(products, items), products)
  {
    if items != [] {
      DeductOnlyStock(products, items[..|items| - 1]);
    }
  }

  /** Every numeric stock is at least zero. */
  predicate StocksNonNegative(products: seq<Product>) {
    forall j :: 0 <= j < |products| && products[j].stock.Some? ==> products[j].stock.value >= 0
  }

  lemma DeductKeepsNames(products: seq<Product>, items: seq<LineItem>)
    ensures SameNames(DeductAll(products, items), products)
  {
    DeductOnlyStock(products, items);
  }

  /** Stock never goes negative: each deduction floors at zero. */
  lemma {:induction false} DeductNeverNegative(products: seq<Product>, items: seq<LineItem>)
    requires StocksNonNegative(products)
    ensures StocksNonNegative(DeductAll(products, items))
  {
    if items != [] {
      var prefix := items[..|items| - 1];
      var mid := DeductAll(products, prefix);
      var r := DeductLine(mid, items[|items| - 1]);
      DeductNeverNegative(products, prefix);
      forall j | 0 <= j < |r| && r[j].stock.Some? ensures r[j].stock.value >= 0 {
        if FindByName(mid, items[|items| - 1].name) != Some(j) || mid[j].stock.None? {
          assert r[j] == mid[j];
        }
      }
    }
  }

  /** A product whose stock is not a number is left exactly as it was. */
  lemma {:induction false} DeductSkipsUntracked(products: seq<Product>, items: seq<LineItem>, j: nat)
    requires j < |products| && products[j].stock.None?
    ensures DeductAll(products, items)[j] == products[j]
  {
    if items != [] {
      DeductSkipsUntracked(products, items[..|items| - 1], j);
    }
  }

  /** Only the first product carrying a name is ever deducted: a later namesake, or a product no line names, is unchanged. */
  lemma {:induction false} DeductSkipsUnlisted(products: seq<Product>, items: seq<LineItem>, j: nat)
    requires j < |products|
    requires FindByName(products, products[j].name) != Some(j)
    ensures DeductAll(products, items)[j] == products[j]
  {
    if items != [] {
      var prefix := items[..|items| - 1];
      var mid := DeductAll(products, prefix);
      DeductSkipsUnlisted(products, prefix, j);
      DeductOnlyStock(products, prefix);
      FindByNameOnNames(mid, products, items[|items| - 1].name);
      FindByNameOnNames(mid, products, products[j].name);
    }
  }

  /** A product no line item names is unchanged. */
  lemma {:induction false} DeductSkipsUnordered(products: seq<Product>, items: seq<LineItem>, j: nat)
    requires j < |products|
    requires forall i :: 0 <= i < |items| ==> items[i].name != products[j].name
    ensures DeductAll(products, items)[j] == products[j]
  {
    if items != [] {
      var prefix := items[..|items| - 1];
      DeductSkipsUnordered(products, prefix, j);
      DeductOnlyStock(products, prefix);
    }
  }

  /** Every line item has a quantity of at least zero. */
  predicate QtysNonNegative(items: seq<LineItem>) {
    forall i :: 0 <= i < |items| ==> items[i].qty >= 0
  }

  lemma QtysOfPrefix(items: seq<LineItem>)
    requires items != [] && QtysNonNegative(items)
    ensures QtysNonNegative(items[..|items| - 1]) && items[|items| - 1].qty >= 0
  {
  }

  /**
   * With positive quantities, floors taken line by line equal the floor of
   * the total: the first product named `name` ends with
   * `max(0, stock - total ordered under that name)`.
   */
  lemma {:induction false} DeductTotal(products: seq<Product>, items: seq<LineItem>, name: string, k: nat, stock: nat)
    requires FindByName(products, name) == Some(k) && products[k].stock == Some(stock)
    requires QtysNonNegative(items)
    ensures DeductAll(products, items)[k].stock == Some(Floor0(stock - Demand(items, name)))
  {
    if items != [] {
      var prefix := items[..|items| - 1];
      QtysOfPrefix(items);
      DeductTotal(products, prefix, name, k, stock);
      DeductTotalStep(products, items, name, k, stock);
    }
  }

  /** The inductive step of `DeductTotal`: one more line taken off the running total. */
  lemma {:induction false} DeductTotalStep(products: seq<Product>, items: seq<LineItem>, name: string, k: nat, stock: nat)
    requires items != [] && items[|items| - 1].qty >= 0
    requires FindByName(products, name) == Some(k)
    requires DeductAll(products, items[..|items| - 1])[k].stock == Some(Floor0(stock - Demand(items[..|items| - 1], name)))
    ensures DeductAll(products, items)[k].stock == Some(Floor0(stock - Demand(items, name)))
  {
    var prefix, last := items[..|items| - 1], items[|items| - 1];
    var mid := DeductAll(products, prefix);
    assert FindByName(mid, name) == Some(k) by {
      DeductKeepsNames(products, prefix);
      FindByNameOnNames(mid, products, name);
    }
    DeductStep(mid, last, name, k, stock, Demand(prefix, name));
    assert DeductAll(products, items) == DeductLine(mid, last);
    assert Demand(items, name) == Demand(prefix, name) + (if last.name == name then last.qty else 0);
  }

  /** One more line on top of a deduction already floored at `max(0, stock - demand)`. */
  lemma {:induction false} DeductStep(mid: seq<Product>, last: LineItem, name: string, k: nat, stock: nat, demand: int)
    requires FindByName(mid, name) == Some(k) && mid[k].stock == Some(Floor0(stock - demand))
    requires last.qty >= 0
    ensures DeductLine(mid, last)[k].stock
      == Some(Floor0(stock - (demand + if last.name == name then last.qty else 0)))
  {
    if last.name != name {
      assert mid[k].name == name;
    }
  }

  /** Stock 5 with 3 ordered leaves 2; stock 2 with 5 ordered leaves 0. */
  lemma DeductExamples(p: Product)
    ensures DeductAll([p.(stock := Some(5))], [LineItem(p.name, 3)])[0].stock == Some(2)
    ensures DeductAll([p.(stock := Some(2))], [LineItem(p.name, 5)])[0].stock == Some(0)
  {
    var one := [LineItem(p.name, 3)];
    assert one[..0] == [];
    var two := [LineItem(p.name, 5)];
    assert two[..0] == [];
  }

  /**
   * The line items of the order editor, before the order is saved, and
   * whether the "Eliminar" buttons now shown have click listeners: the add
   * handler attaches them after each re-render (app.js:714), the remove
   * handler re-renders without attaching any.
   */
  class OrderDraft {
    var items: seq<LineItem>
    var removable: bool

    /** Every line the draft holds was accepted with a positive quantity. */
    ghost predicate Valid()
      reads this
    {
      forall k :: 0 <= k < |items| ==> items[k].qty > 0
    }

    constructor ()
      ensures Valid() && items == [] && !removable
    {
      items := [];
      removable := false;
    }

    /** The "Agregar" button (app.js:705-714). */
    method AddLine(products: seq<Product>, selected: int, qty: int) returns (added: bool)
      requires Valid()
      modifies this
      ensures Valid()
      ensures added <==> LineFor(products, selected, qty).Some?
      ensures items == if added then old(items) + [LineFor(products, selected, qty).value] else old(items)
      ensures removable == (added || old(removable))
    {
      added := 0 <= selected < |products| && qty > 0;
      if added {
        items := items + [LineItem(products[selected].name, qty)];
        removable := true;
      }
    }

    /**
     * A line's "Eliminar" button (app.js:714): it splices the line out when
     * its listener is attached, and the list it re-renders has no listeners,
     * so a second removal does nothing until another line is added.
     */
    method RemoveLine(i: nat)
      requires Valid()
      modifies this
      ensures Valid()
      ensures items == if old(removable) then Seqs.Splice(old(items), i) else old(items)
      ensures !removable
    {
      if removable {
        items := Seqs.Splice(items, i);
        removable := false;
      }
    }
  }
}
