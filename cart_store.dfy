/**
 The cart provider as a store object: `cart` is the React state and `stored`
 the browser storage slot holding the serialized cart.  Each method performs
 the source's steps on a copy of the cart and is proved to give the outcome and
 the new cart of the corresponding function in module Cart; on success the
 whole new cart is written to `stored`, on failure neither field changes.
 */
module CartProvider {
  import opened Cart

  class CartStore {
    var cart: seq<Product>
    var stored: Option<seq<Product>>

    /** Reloading the storage slot would give back the cart held in memory. */
    ghost predicate InSync()
      reads this
    {
      cart == Restore(stored)
    }

    /** The `useState` initializer: start from the stored snapshot if there is one. */
    constructor (storage: Option<seq<Product>>)
      ensures stored == storage
      ensures cart == Restore(storage)
      ensures InSync()
    {
      stored := storage;
      cart := Restore(storage);
    }

    /** Persist the new cart: the state update followed by the storage write. */
    method Commit(updated: seq<Product>)
      modifies this
      ensures cart == updated && stored == Some(updated)
      ensures InSync()
    {
      cart := updated;
      stored := Some(updated);
    }

    method AddProduct(id: int, stock: Option<int>, fetched: Option<Product>) returns (outcome: Outcome)
      modifies this
      ensures Step(outcome, cart) == AddStep(old(cart), id, stock, fetched)
      ensures outcome == Ok ==> stored == Some(cart)
      ensures outcome != Ok ==> cart == old(cart) && stored == old(stored)
      ensures old(InSync()) ==> InSync()
      ensures UniqueIds(old(cart)) && (fetched.Some? ==> fetched.value.id == id) ==> UniqueIds(cart)
    {
      var updated := cart;
      if stock.None? {
        return Error;
      }
      var available := stock.value;
      var found := Find(updated, id);
      if available < 1 || (found.Some? && updated[found.value].amount + 1 > available) {
        return OutOfStock;
      }
      if found.Some? {
        var k := found.value;
        var entry := updated[k];
        entry := entry.(amount := entry.amount + 1);
        updated := updated[k := entry];
      } else {
        if fetched.None? {
          return Error;
        }
        var product := fetched.value.(amount := 1);
        updated := updated + [product];
      }
      if UniqueIds(old(cart)) && (fetched.Some? ==> fetched.value.id == id) {
        AddKeepsUnique(old(cart), id, stock, fetched);
      }
      Commit(updated);
      outcome := Ok;
    }

    method RemoveProduct(id: int) returns (outcome: Outcome)
      modifies this
      ensures Step(outcome, cart) == RemoveStep(old(cart), id)
      ensures outcome == Ok ==> stored == Some(cart)
      ensures outcome != Ok ==> cart == old(cart) && stored == old(stored)
      ensures old(InSync()) ==> InSync()
      ensures UniqueIds(old(cart)) ==> UniqueIds(cart)
    {
      if !HasId(cart, id) {
        return Error;
      }
      var updated := Without(cart, id);
      if UniqueIds(old(cart)) {
        RemoveKeepsUnique(old(cart), id);
      }
      Commit(updated);
      outcome := Ok;
    }

    method UpdateProductAmount(id: int, amount: int, stock: Option<int>) returns (outcome: Outcome)
      modifies this
      ensures Step(outcome, cart) == UpdateStep(old(cart), id, amount, stock)
      ensures outcome == Ok ==> stored == Some(cart)
      ensures outcome != Ok ==> cart == old(cart) && stored == old(stored)
      ensures old(InSync()) ==> InSync()
      ensures UniqueIds(old(cart)) ==> UniqueIds(cart)
    {
      if stock.None? {
        return Error;
      }
      var available := stock.value;
      var found := Find(cart, id);
      if available < 1 || (found.Some? && cart[found.value].amount + 1 > available) {
        return OutOfStock;
      }
      var updated := SetAmount(cart, id, amount);
      if UniqueIds(old(cart)) {
        UpdateKeepsUnique(old(cart), id, amount, stock);
      }
      Commit(updated);
      outcome := Ok;
    }
  }
}
