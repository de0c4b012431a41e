/**
 * The client-side cart store: a list of display lines and a loading flag, changed by the
 * store's actions. Each action replaces the list with one built by a find, map, filter or
 * append over the old one.
 */
module CartStore {
  import opened Wrappers
  import opened Text
  import opened Schema
  import opened CartService

  /** `i.productId === productId && i.variantId === variantId` */
  predicate SameIdentity(d: DisplayLine, productId: Id, variantId: Option<Id>) {
    d.productId == productId && d.variantId == variantId
  }

  /** At most one line per `(productId, variantId)`. */
  predicate UniqueIdentities(items: seq<DisplayLine>) {
    forall i, j :: 0 <= i < j < |items| ==> !SameIdentity(items[j], items[i].productId, items[i].variantId)
  }

  /** No two lines share an id. */
  predicate UniqueIds(items: seq<DisplayLine>) {
    forall i, j :: 0 <= i < j < |items| ==> items[i].id != items[j].id
  }

  /** `items.find(...)`: the first line with the identity. */
  function FindItem(items: seq<DisplayLine>, productId: Id, variantId: Option<Id>): (r: Option<nat>)
    ensures r.None? <==> forall i :: 0 <= i < |items| ==> !SameIdentity(items[i], productId, variantId)
    ensures r.Some? ==>
      && r.value < |items| && SameIdentity(items[r.value], productId, variantId)
      && forall j :: 0 <= j < r.value ==> !SameIdentity(items[j], productId, variantId)
  {
    if items == [] then None
    else if SameIdentity(items[0], productId, variantId) then Some(0)
    else match FindItem(items[1..], productId, variantId)
      case None => None
      case Some(k) => Some(k + 1)
  }

  /** `items.map(i => i.id === id ? { ...i, quantity: i.quantity + q } : i)` */
  function AddToId(items: seq<DisplayLine>, id: Id, q: int): (r: seq<DisplayLine>)
    ensures |r| == |items|
    ensures forall i :: 0 <= i < |items| ==>
      r[i] == if items[i].id == id then items[i].(quantity := items[i].quantity + q) else items[i]
  {
    seq(|items|, i requires 0 <= i < |items| =>
      if items[i].id == id then items[i].(quantity := items[i].quantity + q) else items[i])
  }

  /** The id generated for a line added without one, from the clock's milliseconds. */
  function LocalId(now: nat): (r: Id)
    ensures |r| > 6 && r[..6] == "local-"
    ensures forall c :: c in r[6..] ==> IsDigit(c)
    ensures DecimalValue(r[6..]) == now
  {
    var d := Digits(now);
    assert ("local-" + d)[6..] == d;
    "local-" + d
  }

  /** Lines added at different milliseconds get different local ids. */
  lemma LocalIdInjective(a: nat, b: nat)
    ensures LocalId(a) == LocalId(b) <==> a == b
  {
    if LocalId(a) == LocalId(b) {
      assert LocalId(a)[6..] == LocalId(b)[6..];
    }
  }

  /** The list `addItem(newItem)` leaves. */
  function Added(items: seq<DisplayLine>, newItem: DisplayLine, now: nat): seq<DisplayLine> {
    match FindItem(items, newItem.productId, newItem.variantId)
    case Some(k) => AddToId(items, items[k].id, newItem.quantity)
    case None => items + [newItem.(id := if newItem.id != "" then newItem.id else LocalId(now))]
  }

  /**
   * Adding a line whose identity is present adds its quantity to that line; with distinct
   * ids no other line changes and the length stays.
   */
  lemma AddedMatched(items: seq<DisplayLine>, newItem: DisplayLine, now: nat, k: nat)
    requires UniqueIdentities(items) && UniqueIds(items)
    requires k < |items| && SameIdentity(items[k], newItem.productId, newItem.variantId)
    ensures Added(items, newItem, now) == items[k := items[k].(quantity := items[k].quantity + newItem.quantity)]
  {
    assert FindItem(items, newItem.productId, newItem.variantId) == Some(k);
  }

  /**
   * Adding a line whose identity is absent appends it at the end, keeping its id, or with
   * a `local-` id when its id is empty.
   */
  lemma AddedAppended(items: seq<DisplayLine>, newItem: DisplayLine, now: nat)
    requires forall i :: 0 <= i < |items| ==> !SameIdentity(items[i], newItem.productId, newItem.variantId)
    ensures var r := Added(items, newItem, now);
      && |r| == |items| + 1 && r[..|items|] == items
      && r[|items|] == newItem.(id := r[|items|].id)
      && (newItem.id != "" ==> r[|items|].id == newItem.id)
      && (newItem.id == "" ==> r[|items|].id == LocalId(now) && r[|items|].id[..6] == "local-")
  {
  }

  /** Adding keeps at most one line per identity. */
  lemma AddedKeepsUnique(items: seq<DisplayLine>, newItem: DisplayLine, now: nat)
    requires UniqueIdentities(items)
    ensures UniqueIdentities(Added(items, newItem, now))
  {
    var r := Added(items, newItem, now);
    match FindItem(items, newItem.productId, newItem.variantId)
    case Some(k) =>
      assert forall i :: 0 <= i < |r| ==> r[i].productId == items[i].productId && r[i].variantId == items[i].variantId;
    case None =>
      assert forall i :: 0 <= i < |items| ==> r[i] == items[i];
  }

  /** `items.filter(i => i.id !== id)` */
  function WithoutId(items: seq<DisplayLine>, id: Id): (r: seq<DisplayLine>)
    ensures forall d :: d in r <==> d in items && d.id != id
  {
    if items == [] then []
    else (if items[0].id != id then [items[0]] else []) + WithoutId(items[1..], id)
  }

  /** Removing works piece by piece, so the lines kept stay in their order. */
  lemma {:induction false} WithoutIdAppend(a: seq<DisplayLine>, b: seq<DisplayLine>, id: Id)
    ensures WithoutId(a + b, id) == WithoutId(a, id) + WithoutId(b, id)
    decreases |a|
  {
    if a == [] {
      assert a + b == b;
    } else {
      assert (a + b)[0] == a[0] && (a + b)[1..] == a[1..] + b;
      WithoutIdAppend(a[1..], b, id);
    }
  }

  /** Removing an id no line has keeps the list as it is. */
  lemma {:induction false} WithoutAbsentId(items: seq<DisplayLine>, id: Id)
    requires forall i :: 0 <= i < |items| ==> items[i].id != id
    ensures WithoutId(items, id) == items
    decreases |items|
  {
    if items != [] {
      WithoutAbsentId(items[1..], id);
    }
  }

  /** Removing keeps at most one line per identity. */
  lemma {:induction false} WithoutIdKeepsUnique(items: seq<DisplayLine>, id: Id)
    requires UniqueIdentities(items)
    ensures UniqueIdentities(WithoutId(items, id))
    decreases |items|
  {
    if items != [] {
      var rest := items[1..];
      assert forall i :: 0 <= i < |rest| ==> rest[i] == items[i + 1];
      WithoutIdKeepsUnique(rest, id);
      var tail := WithoutId(rest, id);
      if items[0].id != id {
        var r := [items[0]] + tail;
        forall i, j | 0 <= i < j < |r|
          ensures !SameIdentity(r[j], r[i].productId, r[i].variantId)
        {
          if i == 0 {
            assert r[j] == tail[j - 1] && r[j] in rest;
            var k :| 0 <= k < |rest| && rest[k] == r[j];
            assert !SameIdentity(items[k + 1], items[0].productId, items[0].variantId);
          } else {
            assert r[i] == tail[i - 1] && r[j] == tail[j - 1];
          }
        }
      }
    }
  }

  /** `items.map(i => i.id === id ? { ...i, quantity } : i)`: no clamping to the stock or to 1. */
  function WithQuantity(items: seq<DisplayLine>, id: Id, quantity: int): (r: seq<DisplayLine>)
    ensures |r| == |items|
    ensures forall i :: 0 <= i < |items| ==>
      r[i] == if items[i].id == id then items[i].(quantity := quantity) else items[i]
  {
    seq(|items|, i requires 0 <= i < |items| => if items[i].id == id then items[i].(quantity := quantity) else items[i])
  }

  /**
   * Setting a quantity changes no identity and no id, so at most one line per identity
   * remains; the quantity is stored as given, even above the stock or below 1.
   */
  lemma WithQuantityKeepsUnique(items: seq<DisplayLine>, id: Id, quantity: int)
    requires UniqueIdentities(items)
    ensures UniqueIdentities(WithQuantity(items, id, quantity))
    ensures forall i :: 0 <= i < |items| && items[i].id == id ==> WithQuantity(items, id, quantity)[i].quantity == quantity
  {
    var r := WithQuantity(items, id, quantity);
    assert forall i :: 0 <= i < |r| ==> r[i].productId == items[i].productId && r[i].variantId == items[i].variantId;
  }

  /** What the sync request brought back: a thrown `fetch`, a non-ok status, or an ok body's `data`. */
  datatype SyncOutcome = FetchFailed | NotOk | Ok(data: Option<seq<DisplayLine>>)

  class Store {
    var items: seq<DisplayLine>
    var isLoading: bool

    /** The store's state before any action, the persisted state not rehydrated. */
    constructor ()
      ensures items == [] && !isLoading
    {
      items, isLoading := [], false;
    }

    /** `addItem(newItem)`, at clock reading `now`. */
    method AddItem(newItem: DisplayLine, now: nat)
      modifies this`items
      ensures items == Added(old(items), newItem, now)
      ensures UniqueIdentities(old(items)) ==> UniqueIdentities(items)
    {
      if UniqueIdentities(items) {
        AddedKeepsUnique(items, newItem, now);
      }
      var existing := FindItem(items, newItem.productId, newItem.variantId);
      if existing.Some? {
        items := AddToId(items, items[existing.value].id, newItem.quantity);
      } else {
        items := items + [newItem.(id := if newItem.id != "" then newItem.id else LocalId(now))];
      }
    }

    /** `removeItem(itemId)` */
    method RemoveItem(itemId: Id)
      modifies this`items
      ensures items == WithoutId(old(items), itemId)
      ensures UniqueIdentities(old(items)) ==> UniqueIdentities(items)
    {
      if UniqueIdentities(items) {
        WithoutIdKeepsUnique(items, itemId);
      }
      items := WithoutId(items, itemId);
    }

    /** `updateQuantity(itemId, quantity)` */
    method UpdateQuantity(itemId: Id, quantity: int)
      modifies this`items
      ensures items == WithQuantity(old(items), itemId, quantity)
      ensures UniqueIdentities(old(items)) ==> UniqueIdentities(items)
    {
      if UniqueIdentities(items) {
        WithQuantityKeepsUnique(items, itemId, quantity);
      }
      items := WithQuantity(items, itemId, quantity);
    }

    /** `clearCart()` */
    method ClearCart()
      modifies this`items
      ensures items == []
    {
      items := [];
    }

    /**
     * `syncWithUser()`: sends the local lines; on an ok response takes the server's list
     * (empty when absent), otherwise keeps the local one; loading is off when it returns.
     */
    method SyncWithUser(outcome: SyncOutcome) returns (sent: seq<DisplayLine>)
      modifies this
      ensures sent == old(items)
      ensures !isLoading
      ensures items == match outcome
        case Ok(data) => data.GetOr([])
        case _ => old(items)
    {
      isLoading := true;
      sent := items;
      if outcome.Ok? {
        items := outcome.data.GetOr([]);
      }
      isLoading := false;
    }
  }
}
