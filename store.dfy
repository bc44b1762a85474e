/**
 * The products store itself: one object holding the catalog, the filter
 * state, the basket, the durable basket slot, the notifications shown and
 * the requests sent to mirror the basket on the server.
 */
module Store {
  import opened Wrappers
  import Seqs
  import Text
  import Catalog
  import Basket

  /** What a `window.showToast` call announces; the message text is not modelled. */
  datatype Notice = QuantityUpdated | ItemAdded | ItemRemoved | BasketCleared

  datatype Severity = Info | Success | Warning

  function SeverityOf(n: Notice): Severity
  {
    match n
    case QuantityUpdated => Info
    case ItemAdded => Success
    case ItemRemoved => Warning
    case BasketCleared => Info
  }

  /** The body of one `POST /basket` call: `{sneaker_id, size, quantity}`. */
  datatype RemoteLine = RemoteLine(sneakerId: Catalog.ProductId, size: Catalog.Size, quantity: int)

  /** A request to the basket endpoint: `DELETE /basket` or `POST /basket`. */
  datatype Request = ClearRemote | AddRemote(line: RemoteLine)

  function ToRemote(l: Basket.Line): RemoteLine
  {
    RemoteLine(l.product.id, l.size, l.quantity)
  }

  function AddRequest(l: Basket.Line): Request
  {
    AddRemote(ToRemote(l))
  }

  /** The requests one `syncBasketToDatabase` issues: none when signed out, else a clear and one add per line. */
  function SyncRequests(loggedIn: bool, b: seq<Basket.Line>): (r: seq<Request>)
    ensures |r| == if loggedIn then |b| + 1 else 0
    ensures loggedIn ==> r[0] == ClearRemote && forall i :: 1 <= i < |r| ==> r[i] == AddRequest(b[i - 1])
  {
    if loggedIn then [ClearRemote] + Seqs.Map(b, AddRequest) else []
  }

  /** The server's basket after it has handled `reqs` in order, all of them succeeding. */
  function Replay(remote: seq<RemoteLine>, reqs: seq<Request>): seq<RemoteLine>
    decreases reqs
  {
    if reqs == [] then remote
    else
      match reqs[0]
      case ClearRemote => Replay([], reqs[1..])
      case AddRemote(l) => Replay(remote + [l], reqs[1..])
  }

  lemma {:induction false} ReplayAdds(remote: seq<RemoteLine>, b: seq<Basket.Line>)
    ensures Replay(remote, Seqs.Map(b, AddRequest)) == remote + Seqs.Map(b, ToRemote)
    decreases b
  {
    var reqs := Seqs.Map(b, AddRequest);
    if b == [] {
      assert reqs == [];
    } else {
      var x := ToRemote(b[0]);
      var rest := Seqs.Map(b[1..], AddRequest);
      assert Replay(remote, reqs) == Replay(remote + [x], rest) by {
        Seqs.MapCons(b, AddRequest);
        assert reqs[0] == AddRemote(x) && reqs[1..] == rest;
      }
      assert Seqs.Map(b, ToRemote) == [x] + Seqs.Map(b[1..], ToRemote) by {
        Seqs.MapCons(b, ToRemote);
      }
      ReplayAdds(remote + [x], b[1..]);
      assert (remote + [x]) + Seqs.Map(b[1..], ToRemote) == remote + ([x] + Seqs.Map(b[1..], ToRemote));
    }
  }

  /**
   * When every request of a mirror succeeds the server holds exactly the
   * local lines, in order, whatever it held before.
   */
  lemma {:induction false} SyncMirrorsBasket(remote: seq<RemoteLine>, b: seq<Basket.Line>)
    ensures Replay(remote, SyncRequests(true, b)) == Seqs.Map(b, ToRemote)
  {
    var reqs := SyncRequests(true, b);
    assert reqs[1..] == Seqs.Map(b, AddRequest);
    ReplayAdds([], b);
  }

  class ProductsStore {
    /** The catalog, as the last successful `GET /catalog` returned it. */
    var products: seq<Catalog.Product>
    /** The product on display, as the last successful `GET /catalog/{id}` returned it. */
    var product: Option<Catalog.Product>
    var basket: seq<Basket.Line>
    var filters: Catalog.Filters
    var sortOrder: string
    /** The `basket` entry of local storage: a snapshot of the lines, or absent. */
    var saved: Option<seq<Basket.Line>>
    /** Every notification shown so far, oldest first. */
    var notices: seq<Notice>
    /** Every request sent to the basket endpoint so far, oldest first. */
    var outbox: seq<Request>

    /** The storage slot always holds the current basket; only an empty basket may go without one. */
    ghost predicate Valid()
      reads this
    {
      match saved
      case Some(s) => s == basket
      case None => basket == []
    }

    /** Creating the store restores the basket from the storage slot `stored`. */
    constructor (stored: Option<seq<Basket.Line>>)
      ensures Valid()
      ensures basket == (if stored.Some? then stored.value else [])
      ensures saved == stored
      ensures products == [] && product == None
      ensures filters == Catalog.NoFilters && sortOrder == ""
      ensures notices == [] && outbox == []
    {
      products := [];
      product := None;
      basket := [];
      filters := Catalog.NoFilters;
      sortOrder := "";
      saved := stored;
      notices := [];
      outbox := [];
      new;
      LoadBasketFromStorage();
    }

    function BasketTotal(): int
      reads this
    {
      Basket.Total(basket)
    }

    function BasketItemsCount(): int
      reads this
    {
      Basket.ItemsCount(basket)
    }

    function FilterProducts(): seq<Catalog.Product>
      reads this
    {
      Catalog.FilterProducts(products, filters, sortOrder)
    }

    /** `getProducts`: a successful response replaces the catalog; a failed one leaves it. */
    method GetProducts(response: Option<seq<Catalog.Product>>)
      modifies this`products
      ensures products == if response.Some? then response.value else old(products)
    {
      if response.Some? {
        products := response.value;
      }
    }

    /** `showProduct`: a successful response replaces the product on display; a failed one leaves it. */
    method ShowProduct(response: Option<Catalog.Product>)
      modifies this`product
      ensures product == if response.Some? then response else old(product)
    {
      if response.Some? {
        product := response;
      }
    }

    /**
     * `loadBasketFromStorage`: a stored basket replaces the current one.
     * Reloading what the store itself persisted gives back the same lines.
     */
    method LoadBasketFromStorage()
      modifies this`basket
      ensures basket == if saved.Some? then saved.value else old(basket)
      ensures saved.Some? ==> Valid()
      ensures old(Valid()) ==> Valid() && basket == old(basket)
    {
      if saved.Some? {
        basket := saved.value;
      }
    }

    /** `syncBasketToDatabase`: with a session, clear the server basket and post every line in order. */
    method SyncBasketToDatabase(loggedIn: bool)
      modifies this`outbox
      ensures outbox == old(outbox) + SyncRequests(loggedIn, basket)
    {
      if !loggedIn {
        return;
      }
      outbox := outbox + [ClearRemote];
      var i := 0;
      while i < |basket|
        invariant 0 <= i <= |basket|
        invariant outbox == old(outbox) + [ClearRemote] + Seqs.Map(basket[..i], AddRequest)
      {
        Seqs.MapSnoc(basket, i, AddRequest);
        outbox := outbox + [AddRemote(ToRemote(basket[i]))];
        i := i + 1;
      }
      assert basket[..i] == basket;
    }

    /**
     * `addToBasket`: raise the quantity of the line for (product id, size),
     * or append a new line stamped `now`; persist, notify, mirror.
     */
    method AddToBasket(p: Catalog.Product, size: Catalog.Size, quantity: int, now: string, loggedIn: bool)
      requires Valid()
      modifies this`basket, this`saved, this`notices, this`outbox
      ensures Valid()
      ensures basket == Basket.AddLine(old(basket), p, size, quantity, now)
      ensures saved == Some(basket)
      ensures notices == old(notices) + [if Basket.HasKey(old(basket), p.id, size) then QuantityUpdated else ItemAdded]
      ensures outbox == old(outbox) + SyncRequests(loggedIn, basket)
      ensures BasketItemsCount() == old(BasketItemsCount()) + quantity
      ensures Basket.UniqueKeys(old(basket)) ==> Basket.UniqueKeys(basket)
    {
      ghost var before := basket;
      var existing := Basket.FindLine(basket, p.id, size);
      if existing.Some? {
        var i := existing.value;
        basket := basket[i := basket[i].(quantity := basket[i].quantity + quantity)];
        notices := notices + [QuantityUpdated];
      } else {
        basket := basket + [Basket.Line(p, size, quantity, now)];
        notices := notices + [ItemAdded];
      }
      saved := Some(basket);
      SyncBasketToDatabase(loggedIn);
      Basket.AddLineItemsCount(before, p, size, quantity, now);
      if Basket.UniqueKeys(before) {
        Basket.AddLineKeepsKeysUnique(before, p, size, quantity, now);
      }
    }

    /**
     * `removeFromBasket`: drop every line for (id, size). When there is
     * none, nothing at all happens: no write, no notification, no mirror.
     */
    method RemoveFromBasket(id: Catalog.ProductId, size: Catalog.Size, loggedIn: bool)
      requires Valid()
      modifies this`basket, this`saved, this`notices, this`outbox
      ensures Valid()
      ensures basket == Basket.RemoveLines(old(basket), id, size)
      ensures !Basket.HasKey(basket, id, size)
      ensures Basket.HasKey(old(basket), id, size) ==>
        && saved == Some(basket)
        && notices == old(notices) + [ItemRemoved]
        && outbox == old(outbox) + SyncRequests(loggedIn, basket)
      ensures !Basket.HasKey(old(basket), id, size) ==>
        && basket == old(basket)
        && saved == old(saved)
        && notices == old(notices)
        && outbox == old(outbox)
      ensures Basket.UniqueKeys(old(basket)) ==> Basket.UniqueKeys(basket)
    {
      ghost var before := basket;
      Basket.RemoveLinesContents(before, id, size);
      if Basket.UniqueKeys(before) {
        Basket.RemoveLinesKeepsKeysUnique(before, id, size);
      }
      var itemToRemove := Basket.FindLine(basket, id, size);
      if itemToRemove.Some? {
        basket := Basket.RemoveLines(basket, id, size);
        saved := Some(basket);
        notices := notices + [ItemRemoved];
        SyncBasketToDatabase(loggedIn);
      } else {
        Basket.RemoveAbsentIsIdentity(before, id, size);
      }
    }

    /**
     * `updateQuantity`: a quantity below one is ignored; otherwise the line
     * for (id, size), if any, gets the new quantity, and the basket is
     * persisted and mirrored. No notification either way.
     */
    method UpdateQuantity(id: Catalog.ProductId, size: Catalog.Size, newQuantity: int, loggedIn: bool)
      requires Valid()
      modifies this`basket, this`saved, this`outbox
      ensures Valid()
      ensures basket == Basket.SetQuantity(old(basket), id, size, newQuantity)
      ensures notices == old(notices)
      ensures newQuantity >= 1 && Basket.HasKey(old(basket), id, size) ==>
        && saved == Some(basket)
        && outbox == old(outbox) + SyncRequests(loggedIn, basket)
      ensures newQuantity < 1 || !Basket.HasKey(old(basket), id, size) ==>
        && basket == old(basket)
        && saved == old(saved)
        && outbox == old(outbox)
      ensures Basket.UniqueKeys(old(basket)) ==> Basket.UniqueKeys(basket)
    {
      ghost var before := basket;
      if Basket.UniqueKeys(before) {
        Basket.SetQuantityKeepsKeysUnique(before, id, size, newQuantity);
      }
      if newQuantity < 1 {
        return;
      }
      var item := Basket.FindLine(basket, id, size);
      if item.Some? {
        var i := item.value;
        basket := basket[i := basket[i].(quantity := newQuantity)];
        saved := Some(basket);
        SyncBasketToDatabase(loggedIn);
      }
    }

    /** `clearBasket`: empty the basket, delete the storage slot, notify, mirror. */
    method ClearBasket(loggedIn: bool)
      modifies this`basket, this`saved, this`notices, this`outbox
      ensures Valid()
      ensures basket == [] && saved == None
      ensures notices == old(notices) + [BasketCleared]
      ensures outbox == old(outbox) + SyncRequests(loggedIn, [])
    {
      basket := [];
      saved := None;
      notices := notices + [BasketCleared];
      SyncBasketToDatabase(loggedIn);
    }

    /** `searchProducts`: store the query lower-cased and trimmed; the other criteria stay. */
    method SearchProducts(query: string)
      modifies this`filters
      ensures filters == old(filters).(searchQuery := Text.Normalize(query))
    {
      filters := filters.(searchQuery := Text.Trim(Text.Lower(query)));
    }

    /** `clearSearch`: reset the query; the other criteria stay. */
    method ClearSearch()
      modifies this`filters
      ensures filters == old(filters).(searchQuery := "")
    {
      filters := filters.(searchQuery := "");
    }
  }
}
