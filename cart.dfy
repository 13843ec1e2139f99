/**
 The pure part of the shopping-cart hook: the records the cart holds, the
 list operations the hook uses (`find`, `some`, `filter`, `map`), and one
 function per cart operation that gives the outcome reported to the user and
 the cart that results.  The class in cart_store.dfy performs the same steps
 imperatively and is proved to agree with these functions.
 */
module Cart {

  datatype Option<T> = None | Some(value: T)

  /** A product as the storefront API returns it; `amount` is the quantity in the cart. */
  datatype Product = Product(id: int, title: string, price: real, image: string, amount: int)

  /** What an operation reports: success, the out-of-stock notification, or a generic failure. */
  datatype Outcome = Ok | OutOfStock | Error

  /** The outcome of one operation together with the cart it leaves behind. */
  datatype Step = Step(outcome: Outcome, cart: seq<Product>)

  /** `cart.some(p => p.id === id)`: some entry of the cart carries the identifier. */
  predicate HasId(cart: seq<Product>, id: int)
    ensures HasId(cart, id) <==> exists p :: p in cart && p.id == id
  {
    exists i :: 0 <= i < |cart| && cart[i].id == id
  }

  /** The cart invariant the operations are meant to keep: no identifier occurs twice. */
  predicate UniqueIds(cart: seq<Product>)
  {
    forall i, j :: 0 <= i < j < |cart| ==> cart[i].id != cart[j].id
  }

  /** `cart.find(p => p.id === id)`, as the index of the first matching entry. */
  function Find(cart: seq<Product>, id: int): (r: Option<nat>)
    ensures r.None? <==> !HasId(cart, id)
    ensures r.Some? ==> r.value < |cart| && cart[r.value].id == id
    ensures r.Some? ==> forall j :: 0 <= j < r.value ==> cart[j].id != id
  {
    if cart == [] then None
    else if cart[0].id == id then Some(0)
    else
      match Find(cart[1..], id)
      case None =>
        assert forall i :: 1 <= i < |cart| ==> cart[i] == cart[1..][i - 1];
        None
      case Some(k) => Some(k + 1)
  }

  /** `cart.filter(p => p.id !== id)` */
  function Without(cart: seq<Product>, id: int): (r: seq<Product>)
    ensures |r| <= |cart|
    ensures forall p :: p in r <==> p in cart && p.id != id
  {
    if cart == [] then []
    else (if cart[0].id == id then [] else [cart[0]]) + Without(cart[1..], id)
  }

  /** `cart.map(p => { if (p.id === id) p.amount = amount; return p; })`, without the aliasing. */
  function SetAmount(cart: seq<Product>, id: int, amount: int): (r: seq<Product>)
    ensures |r| == |cart|
    ensures forall i :: 0 <= i < |r| ==>
              r[i] == if cart[i].id == id then cart[i].(amount := amount) else cart[i]
  {
    if cart == [] then []
    else [if cart[0].id == id then cart[0].(amount := amount) else cart[0]]
         + SetAmount(cart[1..], id, amount)
  }

  /** True when the lookup found an entry whose amount cannot grow by one within `available`. */
  predicate AtLimit(cart: seq<Product>, found: Option<nat>, available: int)
  {
    found.Some? && found.value < |cart| && cart[found.value].amount + 1 > available
  }

  /**
   addProduct: `stock` is the stock lookup (None when it fails), `fetched` the
   product lookup, which the source only performs for an identifier not yet in
   the cart.
   */
  function AddStep(cart: seq<Product>, id: int, stock: Option<int>, fetched: Option<Product>): (s: Step)
    ensures s.outcome != Ok ==> s.cart == cart
    ensures s.outcome == OutOfStock <==>
              stock.Some? && (stock.value < 1 || AtLimit(cart, Find(cart, id), stock.value))
    ensures s.outcome == Ok <==>
              stock.Some? && stock.value >= 1 && !AtLimit(cart, Find(cart, id), stock.value)
              && (HasId(cart, id) || fetched.Some?)
  {
    match stock
    case None => Step(Error, cart)
    case Some(available) =>
      var found := Find(cart, id);
      if available < 1 || AtLimit(cart, found, available) then Step(OutOfStock, cart)
      else if found.Some? then
        var k := found.value;
        Step(Ok, cart[k := cart[k].(amount := cart[k].amount + 1)])
      else
        match fetched
        case None => Step(Error, cart)
        case Some(p) => Step(Ok, cart + [p.(amount := 1)])
  }

  /** removeProduct: fails when no entry has the identifier, otherwise filters it out. */
  function RemoveStep(cart: seq<Product>, id: int): (s: Step)
    ensures s.outcome != OutOfStock
    ensures s.outcome == Ok <==> HasId(cart, id)
    ensures s.outcome == Error ==> s.cart == cart
    ensures !HasId(s.cart, id)
    ensures forall p :: p in s.cart && p.id != id <==> p in cart && p.id != id
  {
    if !HasId(cart, id) then Step(Error, cart) else Step(Ok, Without(cart, id))
  }

  /**
   updateProductAmount as written: the stock test looks at the entry's current
   amount, not at the requested `amount`, and an identifier missing from the
   cart is not an error.
   */
  function UpdateStep(cart: seq<Product>, id: int, amount: int, stock: Option<int>): (s: Step)
    ensures s.outcome != Ok ==> s.cart == cart
    ensures s.outcome == Error <==> stock.None?
    ensures s.outcome == Ok <==>
              stock.Some? && stock.value >= 1 && !AtLimit(cart, Find(cart, id), stock.value)
    ensures s.outcome == Ok ==> |s.cart| == |cart|
  {
    match stock
    case None => Step(Error, cart)
    case Some(available) =>
      var found := Find(cart, id);
      if available < 1 || AtLimit(cart, found, available) then Step(OutOfStock, cart)
      else Step(Ok, SetAmount(cart, id, amount))
  }

  /** The cart the provider starts with: the stored snapshot if there is one, else empty. */
  function Restore(storage: Option<seq<Product>>): (r: seq<Product>)
    ensures storage.Some? ==> r == storage.value
    ensures storage.None? ==> r == []
  {
    match storage
    case Some(saved) => saved
    case None => []
  }

  // ---------------------------------------------------------------------------
  // Lemmas about the list operations

  /** With unique identifiers, the first match is the only match. */
  lemma FindUnique(cart: seq<Product>, id: int, k: nat)
    requires UniqueIds(cart) && k < |cart| && cart[k].id == id
    ensures Find(cart, id) == Some(k)
  {
  }

  lemma UniqueCons(x: Product, s: seq<Product>)
    ensures UniqueIds([x] + s) <==> !HasId(s, x.id) && UniqueIds(s)
  {
    var c := [x] + s;
    if UniqueIds(c) {
      forall i | 0 <= i < |s| ensures s[i].id != x.id { assert c[0] == x && c[i + 1] == s[i]; }
      forall i, j | 0 <= i < j < |s| ensures s[i].id != s[j].id { assert c[i + 1] == s[i] && c[j + 1] == s[j]; }
    }
    if !HasId(s, x.id) && UniqueIds(s) {
      forall i, j | 0 <= i < j < |c| ensures c[i].id != c[j].id {
        assert c[j] == s[j - 1];
        if i > 0 { assert c[i] == s[i - 1]; }
      }
    }
  }

  /** Filtering out an identifier nobody has changes nothing. */
  lemma {:induction false} WithoutAbsent(cart: seq<Product>, id: int)
    requires !HasId(cart, id)
    ensures Without(cart, id) == cart
  {
    if cart != [] {
      assert cart[0].id != id;
      assert !HasId(cart[1..], id) by {
        forall i | 0 <= i < |cart[1..]| ensures cart[1..][i].id != id { assert cart[1..][i] == cart[i + 1]; }
      }
      WithoutAbsent(cart[1..], id);
      assert cart == [cart[0]] + cart[1..];
    }
  }

  /** The filter works piecewise, so the kept entries stay in their relative order. */
  lemma {:induction false} WithoutConcat(a: seq<Product>, b: seq<Product>, id: int)
    ensures Without(a + b, id) == Without(a, id) + Without(b, id)
  {
    if a == [] {
      assert a + b == b;
    } else {
      assert (a + b)[0] == a[0];
      assert (a + b)[1..] == a[1..] + b;
      WithoutConcat(a[1..], b, id);
    }
  }

  /** With unique identifiers, removing a present identifier deletes exactly its one entry. */
  lemma WithoutAtUnique(cart: seq<Product>, id: int, k: nat)
    requires UniqueIds(cart) && k < |cart| && cart[k].id == id
    ensures Without(cart, id) == cart[..k] + cart[k + 1..]
  {
    var before, after := cart[..k], cart[k + 1..];
    assert cart == (before + [cart[k]]) + after;
    assert !HasId(before, id) by {
      forall i | 0 <= i < |before| ensures before[i].id != id { assert before[i] == cart[i]; }
    }
    assert !HasId(after, id) by {
      forall i | 0 <= i < |after| ensures after[i].id != id { assert after[i] == cart[k + 1 + i]; }
    }
    calc {
      Without(cart, id);
      { WithoutConcat(before + [cart[k]], after, id); }
      Without(before + [cart[k]], id) + Without(after, id);
      { WithoutConcat(before, [cart[k]], id); }
      Without(before, id) + Without([cart[k]], id) + Without(after, id);
      { WithoutAbsent(before, id); WithoutAbsent(after, id); WithoutSingle(cart[k], id); }
      before + [] + after;
    }
    assert before + [] + after == before + after;
  }

  lemma WithoutSingle(p: Product, id: int)
    requires p.id == id
    ensures Without([p], id) == []
  {
  }

  lemma {:induction false} WithoutKeepsUnique(cart: seq<Product>, id: int)
    requires UniqueIds(cart)
    ensures UniqueIds(Without(cart, id))
  {
    if cart != [] {
      assert cart == [cart[0]] + cart[1..];
      UniqueCons(cart[0], cart[1..]);
      WithoutKeepsUnique(cart[1..], id);
      var rest := Without(cart[1..], id);
      if cart[0].id != id {
        assert !HasId(rest, cart[0].id) by {
          forall i | 0 <= i < |rest| ensures rest[i].id != cart[0].id {
            assert rest[i] in rest;
            var j :| 0 <= j < |cart[1..]| && cart[1..][j] == rest[i];
          }
        }
        UniqueCons(cart[0], rest);
      } else {
        assert Without(cart, id) == [] + rest;
      }
    }
  }

  /** Setting amounts never changes an identifier, so uniqueness is kept. */
  lemma SetAmountKeepsUnique(cart: seq<Product>, id: int, amount: int)
    requires UniqueIds(cart)
    ensures UniqueIds(SetAmount(cart, id, amount))
  {
  }

  /**
   The second half of the stock tests: the FIRST entry with the identifier
   (the one `find` returns) already holds as many units as the stock allows.
   */
  lemma AtLimitFirstMatch(cart: seq<Product>, id: int, available: int)
    ensures AtLimit(cart, Find(cart, id), available) <==>
              exists k :: 0 <= k < |cart| && cart[k].id == id
                          && (forall j :: 0 <= j < k ==> cart[j].id != id)
                          && cart[k].amount + 1 > available
  {
  }

  // ---------------------------------------------------------------------------
  // addProduct

  /** A product not yet in the cart, with stock left, is appended with amount 1. */
  lemma AddNewAppends(cart: seq<Product>, id: int, available: int, p: Product)
    requires !HasId(cart, id) && available >= 1
    ensures var s := AddStep(cart, id, Some(available), Some(p));
            s.outcome == Ok && |s.cart| == |cart| + 1 && s.cart[..|cart|] == cart
            && s.cart[|cart|] == p.(amount := 1)
  {
  }

  /**
   A product already in the cart, whose first entry's amount can grow within
   the stock, has only that entry's amount increased by one.  This holds for
   any cart, duplicate identifiers included; with unique identifiers
   `FindUnique` gives the first entry as the only one.
   */
  lemma AddExistingIncrements(cart: seq<Product>, id: int, available: int, fetched: Option<Product>, k: nat)
    requires Find(cart, id) == Some(k)
    requires available >= 1 && cart[k].amount + 1 <= available
    ensures var s := AddStep(cart, id, Some(available), fetched);
            s.outcome == Ok && |s.cart| == |cart|
            && s.cart[k] == cart[k].(amount := cart[k].amount + 1)
            && forall i :: 0 <= i < |cart| && i != k ==> s.cart[i] == cart[i]
  {
  }

  /** Out of stock: no units at all, or the entry already holds everything available. */
  lemma AddOutOfStock(cart: seq<Product>, id: int, available: int, fetched: Option<Product>)
    requires available < 1 || (HasId(cart, id) && cart[Find(cart, id).value].amount + 1 > available)
    ensures AddStep(cart, id, Some(available), fetched) == Step(OutOfStock, cart)
  {
  }

  /** addProduct keeps identifiers unique, provided the product lookup returns the product asked for. */
  lemma AddKeepsUnique(cart: seq<Product>, id: int, stock: Option<int>, fetched: Option<Product>)
    requires UniqueIds(cart)
    requires fetched.Some? ==> fetched.value.id == id
    ensures UniqueIds(AddStep(cart, id, stock, fetched).cart)
  {
  }

  // ---------------------------------------------------------------------------
  // removeProduct

  /** Removing an identifier that is not in the cart fails and changes nothing. */
  lemma RemoveAbsentFails(cart: seq<Product>, id: int)
    requires !HasId(cart, id)
    ensures RemoveStep(cart, id) == Step(Error, cart)
  {
  }

  /**
   Removing a present identifier succeeds; the result is the filter, which keeps
   the other entries in order and, when identifiers are unique, deletes exactly
   the one matching entry.
   */
  lemma RemovePresent(cart: seq<Product>, id: int, k: nat)
    requires k < |cart| && cart[k].id == id
    ensures RemoveStep(cart, id) == Step(Ok, Without(cart, id))
    ensures UniqueIds(cart) ==> RemoveStep(cart, id).cart == cart[..k] + cart[k + 1..]
  {
    if UniqueIds(cart) {
      WithoutAtUnique(cart, id, k);
    }
  }

  lemma RemoveKeepsUnique(cart: seq<Product>, id: int)
    requires UniqueIds(cart)
    ensures UniqueIds(RemoveStep(cart, id).cart)
  {
    WithoutKeepsUnique(cart, id);
  }

  // ---------------------------------------------------------------------------
  // updateProductAmount

  /**
   An accepted update writes the requested amount into EVERY entry with the
   identifier, although the stock test read only the first one; every other
   entry is unchanged.  With unique identifiers that is entry k alone.
   */
  lemma UpdateSetsAmount(cart: seq<Product>, id: int, amount: int, available: int, k: nat)
    requires Find(cart, id) == Some(k)
    requires available >= 1 && cart[k].amount + 1 <= available
    ensures var s := UpdateStep(cart, id, amount, Some(available));
            s.outcome == Ok && |s.cart| == |cart|
            && (forall i :: 0 <= i < |cart| ==>
                  s.cart[i] == if cart[i].id == id then cart[i].(amount := amount) else cart[i])
            && (UniqueIds(cart) ==> s.cart == cart[k := cart[k].(amount := amount)])
  {
  }

  /**
   A concrete duplicate-identifier case: the first entry (amount 1) passes a
   stock of 2, and the requested 5 is written into both entries, including the
   second one, whose amount 9 was never tested.
   */
  lemma UpdateWritesEveryMatch()
    ensures var p := Product(7, "shoe", 100.0, "shoe.jpg", 1);
            var q := Product(7, "shoe", 100.0, "shoe.jpg", 9);
            UpdateStep([p, q], 7, 5, Some(2)) == Step(Ok, [p.(amount := 5), q.(amount := 5)])
  {
  }

  /** An identifier missing from the cart still "succeeds": the cart is left as it was. */
  lemma UpdateAbsentSucceeds(cart: seq<Product>, id: int, amount: int, available: int)
    requires !HasId(cart, id) && available >= 1
    ensures UpdateStep(cart, id, amount, Some(available)) == Step(Ok, cart)
  {
  }

  /**
   The requested amount plays no part in the stock test: any amount, above the
   stock or not positive, is written when the current amount passes.
   */
  lemma UpdateIgnoresRequestedAmount(cart: seq<Product>, id: int, a: int, b: int, stock: Option<int>)
    ensures UpdateStep(cart, id, a, stock).outcome == UpdateStep(cart, id, b, stock).outcome
  {
  }

  /** A concrete case: one unit in the cart, two in stock, five requested, and five is written. */
  lemma UpdateAboveStockAccepted()
    ensures var p := Product(7, "shoe", 100.0, "shoe.jpg", 1);
            UpdateStep([p], 7, 5, Some(2)) == Step(Ok, [p.(amount := 5)])
  {
  }

  lemma UpdateKeepsUnique(cart: seq<Product>, id: int, amount: int, stock: Option<int>)
    requires UniqueIds(cart)
    ensures UniqueIds(UpdateStep(cart, id, amount, stock).cart)
  {
  }
}
