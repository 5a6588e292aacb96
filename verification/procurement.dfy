/**
 The administrator's decision on a purchase request: approving adds every
 requested amount to its product's stock, rejecting only marks the request.
 */
module Procurement {
  import opened Canteen

  /** The total amount the pairs request for product `p` (the reference for restocking). */
  function AmountFor(items: seq<StockItem>, p: ProductId): int
    decreases |items|
  {
    if |items| == 0 then 0
    else AmountFor(items[..|items| - 1], p) + (if items[|items| - 1].product == p then items[|items| - 1].amount else 0)
  }

  /** Every pair names a stored product: the pairs are resolved product rows. */
  predicate ItemsResolve(products: map<ProductId, Product>, items: seq<StockItem>) {
    forall i :: 0 <= i < |items| ==> items[i].product in products
  }

  /** `product.amount += amount` for each pair in turn. */
  function Restock(products: map<ProductId, Product>, items: seq<StockItem>): (products': map<ProductId, Product>)
    requires ItemsResolve(products, items)
    ensures products'.Keys == products.Keys
    ensures forall p :: p in products ==>
              && products'[p].amount == products[p].amount + AmountFor(items, p)
              && products'[p].allergens == products[p].allergens
    decreases |items|
  {
    if |items| == 0 then products
    else
      var it := items[0];
      var pr := products[it.product];
      var next := products[it.product := pr.(amount := pr.amount + it.amount)];
      AmountForCons(items);
      Restock(next, items[1..])
  }

  /** `AmountFor` read from the front: the first pair plus the rest. */
  lemma {:induction false} AmountForCons(items: seq<StockItem>)
    requires |items| > 0
    ensures forall p :: AmountFor(items, p)
                     == (if items[0].product == p then items[0].amount else 0) + AmountFor(items[1..], p)
    decreases |items|
  {
    if |items| > 1 {
      var init := items[..|items| - 1];
      AmountForCons(init);
      assert init[1..] == items[1..][..|items[1..]| - 1];
      assert init[0] == items[0];
    } else {
      assert items[..0] == [];
      assert items[1..] == [];
    }
  }

  /** The requested pairs of `appId` all resolve, when the request exists. */
  predicate Resolvable(st: State, appId: AppId) {
    appId in st.applications ==> ItemsResolve(st.products, st.applications[appId].items)
  }

  /**
   Decide request `appId` by `action`. A missing request is `NotFound`.
   "approve" marks it approved and restocks; "reject" marks it rejected;
   any other action saves it unchanged. The current status is not consulted.
   */
  function Decide(st: State, appId: AppId, action: string): (r: Result<State>)
    requires Resolvable(st, appId)
    ensures r.Failure? <==> appId !in st.applications
    ensures r.Failure? ==> r.error == NotFound
    ensures r.Success? ==>
              && r.value.applications.Keys == st.applications.Keys
              && (forall a :: a in st.applications && a != appId ==> r.value.applications[a] == st.applications[a])
              && r.value.users == st.users
              && r.value.menus == st.menus
              && r.value.attendance == st.attendance
              && r.value.subscriptions == st.subscriptions
              && r.value.payments == st.payments
    ensures r.Success? && action == "approve" ==>
              var app := st.applications[appId];
              && r.value.applications[appId] == app.(status := Approved)
              && r.value.products.Keys == st.products.Keys
              && forall p :: p in st.products ==>
                   && r.value.products[p].amount == st.products[p].amount + AmountFor(app.items, p)
                   && r.value.products[p].allergens == st.products[p].allergens
    ensures r.Success? && action == "reject" ==>
              && r.value.applications[appId] == st.applications[appId].(status := Rejected)
              && r.value.products == st.products
    ensures r.Success? && action != "approve" && action != "reject" ==> r.value == st
  {
    if appId !in st.applications then Failure(NotFound)
    else
      var app := st.applications[appId];
      if action == "approve" then
        Success(st.(applications := st.applications[appId := app.(status := Approved)],
                    products := Restock(st.products, app.items)))
      else if action == "reject" then
        Success(st.(applications := st.applications[appId := app.(status := Rejected)]))
      else
        Success(st)
  }

  /** Approving the same request twice adds its amounts to stock twice. */
  lemma ApproveTwiceRestocksTwice(st: State, appId: AppId)
    requires appId in st.applications && Resolvable(st, appId)
    ensures var st1 := Decide(st, appId, "approve").value;
            && Resolvable(st1, appId)
            && var st2 := Decide(st1, appId, "approve").value;
               forall p :: p in st.products ==>
                 p in st2.products
                 && st2.products[p].amount == st.products[p].amount + 2 * AmountFor(st.applications[appId].items, p)
  {
    var st1 := Decide(st, appId, "approve").value;
    assert st1.applications[appId].items == st.applications[appId].items;
  }

  /** A rejection never touches stock, whatever the request's current status. */
  lemma RejectKeepsStock(st: State, appId: AppId)
    requires Resolvable(st, appId)
    ensures After(st, Decide(st, appId, "reject")).products == st.products
  {
  }

  /** Products the request does not mention keep their stock when it is approved. */
  lemma {:induction false} ApproveTouchesOnlyRequested(items: seq<StockItem>, p: ProductId)
    requires forall i :: 0 <= i < |items| ==> items[i].product != p
    ensures AmountFor(items, p) == 0
    decreases |items|
  {
    if |items| > 0 {
      ApproveTouchesOnlyRequested(items[..|items| - 1], p);
    }
  }
}
