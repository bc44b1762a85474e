/**
 * The basket: an ordered list of lines keyed by (product id, size), the
 * four ways the store changes it, and the two sums it shows.
 */
module Basket {
  import opened Wrappers
  import Seqs
  import Catalog

  /** One basket line; `addedAt` is the ISO timestamp taken when the line was created. */
  datatype Line = Line(product: Catalog.Product, size: Catalog.Size, quantity: int, addedAt: string)

  /** The test every basket operation searches with: `item.product.id === id && item.size === size`. */
  predicate IsFor(l: Line, id: Catalog.ProductId, size: Catalog.Size)
  {
    l.product.id == id && l.size == size
  }

  predicate SameKey(a: Line, b: Line)
  {
    a.product.id == b.product.id && a.size == b.size
  }

  /** No two lines share a (product id, size) key. */
  ghost predicate UniqueKeys(b: seq<Line>)
  {
    forall i, j :: 0 <= i < j < |b| ==> !SameKey(b[i], b[j])
  }

  ghost predicate HasKey(b: seq<Line>, id: Catalog.ProductId, size: Catalog.Size)
  {
    exists i :: 0 <= i < |b| && IsFor(b[i], id, size)
  }

  /** Every line holds at least one unit. */
  ghost predicate PositiveQuantities(b: seq<Line>)
  {
    forall i :: 0 <= i < |b| ==> b[i].quantity >= 1
  }

  /** `basket.find(...)`: the index of the first line for (id, size), if there is one. */
  function FindLine(b: seq<Line>, id: Catalog.ProductId, size: Catalog.Size): (r: Option<nat>)
    ensures r.Some? ==> r.value < |b| && IsFor(b[r.value], id, size)
    ensures r.Some? ==> forall j :: 0 <= j < r.value ==> !IsFor(b[j], id, size)
    ensures r.None? <==> !HasKey(b, id, size)
  {
    if b == [] then None
    else if IsFor(b[0], id, size) then Some(0)
    else
      match FindLine(b[1..], id, size)
      case Some(i) => Some(i + 1)
      case None =>
        assert forall j :: 1 <= j < |b| ==> b[j] == b[1..][j - 1];
        None
  }

  /** The basket `addToBasket(product, size, quantity)` leaves. */
  function AddLine(b: seq<Line>, p: Catalog.Product, size: Catalog.Size, quantity: int, now: string): (r: seq<Line>)
    ensures |r| == if HasKey(b, p.id, size) then |b| else |b| + 1
    ensures HasKey(r, p.id, size)
  {
    match FindLine(b, p.id, size)
    case Some(i) =>
      var r := b[i := b[i].(quantity := b[i].quantity + quantity)];
      assert IsFor(r[i], p.id, size);
      r
    case None =>
      var r := b + [Line(p, size, quantity, now)];
      assert IsFor(r[|b|], p.id, size);
      r
  }

  /** The basket `removeFromBasket(id, size)` leaves: `basket.filter(item => !(...))`. */
  function RemoveLines(b: seq<Line>, id: Catalog.ProductId, size: Catalog.Size): (r: seq<Line>)
    ensures |r| <= |b|
    ensures forall l :: multiset(r)[l] == if IsFor(l, id, size) then 0 else multiset(b)[l]
  {
    Seqs.Filter(b, l => !IsFor(l, id, size))
  }

  /** The basket `updateQuantity(id, size, newQuantity)` leaves. */
  function SetQuantity(b: seq<Line>, id: Catalog.ProductId, size: Catalog.Size, newQuantity: int): (r: seq<Line>)
    ensures |r| == |b|
    ensures forall i :: 0 <= i < |b| ==> r[i].product == b[i].product && r[i].size == b[i].size && r[i].addedAt == b[i].addedAt
  {
    if newQuantity < 1 then b
    else
      match FindLine(b, id, size)
      case Some(i) => b[i := b[i].(quantity := newQuantity)]
      case None => b
  }

  function Quantity(l: Line): int
  {
    l.quantity
  }

  function LineTotal(l: Line): int
  {
    l.product.price * l.quantity
  }

  /** `basketItemsCount`: the number of units in the basket. */
  function ItemsCount(b: seq<Line>): int
  {
    Seqs.Sum(b, Quantity)
  }

  /** `basketTotal`: the price of every line times its quantity, summed. */
  function Total(b: seq<Line>): int
  {
    Seqs.Sum(b, LineTotal)
  }

  // ---------------------------------------------------------------------
  // addToBasket

  /** With no line for the key, exactly one new line is appended at the end. */
  lemma {:induction false} AddLineAppends(b: seq<Line>, p: Catalog.Product, size: Catalog.Size, quantity: int, now: string)
    requires !HasKey(b, p.id, size)
    ensures AddLine(b, p, size, quantity, now) == b + [Line(p, size, quantity, now)]
  {
  }

  /**
   * With a line for the key, the first such line (the only one when keys
   * are unique) grows by `quantity`; its product and timestamp, the length
   * and every other line stay as they were.
   */
  lemma {:induction false} AddLineMerges(b: seq<Line>, p: Catalog.Product, size: Catalog.Size, quantity: int, now: string, i: nat)
    requires i < |b| && IsFor(b[i], p.id, size)
    requires forall j :: 0 <= j < i ==> !IsFor(b[j], p.id, size)
    ensures var r := AddLine(b, p, size, quantity, now);
      && |r| == |b|
      && r[i] == b[i].(quantity := b[i].quantity + quantity)
      && forall j :: 0 <= j < |b| && j != i ==> r[j] == b[j]
  {
    var k := FindLine(b, p.id, size);
    assert k.Some?;
    assert k.value == i;
  }

  /** Adding never creates a second line for a key. */
  lemma {:induction false} AddLineKeepsKeysUnique(b: seq<Line>, p: Catalog.Product, size: Catalog.Size, quantity: int, now: string)
    requires UniqueKeys(b)
    ensures UniqueKeys(AddLine(b, p, size, quantity, now))
  {
    var r := AddLine(b, p, size, quantity, now);
    match FindLine(b, p.id, size)
    case Some(i) =>
      forall j, k | 0 <= j < k < |r| ensures !SameKey(r[j], r[k]) {
        assert SameKey(r[j], r[k]) <==> SameKey(b[j], b[k]);
      }
    case None =>
      forall j, k | 0 <= j < k < |r| ensures !SameKey(r[j], r[k]) {
        if k == |b| {
          assert !IsFor(b[j], p.id, size);
        }
      }
  }

  /** Two adds of `q1` and then `q2` for one key leave the basket one add of `q1 + q2` leaves. */
  lemma {:induction false} AddLineMergeLaw(b: seq<Line>, p: Catalog.Product, size: Catalog.Size, q1: int, q2: int, now1: string, now2: string)
    ensures AddLine(AddLine(b, p, size, q1, now1), p, size, q2, now2) == AddLine(b, p, size, q1 + q2, now1)
  {
    var once := AddLine(b, p, size, q1, now1);
    match FindLine(b, p.id, size)
    case Some(i) =>
      AddLineMerges(once, p, size, q2, now2, i);
    case None =>
      AddLineMerges(once, p, size, q2, now2, |b|);
  }

  /** Adding `quantity` units raises the item count by exactly `quantity`. */
  lemma {:induction false} AddLineItemsCount(b: seq<Line>, p: Catalog.Product, size: Catalog.Size, quantity: int, now: string)
    ensures ItemsCount(AddLine(b, p, size, quantity, now)) == ItemsCount(b) + quantity
  {
    match FindLine(b, p.id, size)
    case Some(i) =>
      Seqs.SumUpdate(b, i, b[i].(quantity := b[i].quantity + quantity), Quantity);
    case None =>
      Seqs.SumAppend(b, [Line(p, size, quantity, now)], Quantity);
  }

  /**
   * Adding raises the total by `quantity` units at the price of the line's
   * product: the product stored in an existing line, not the one passed in.
   */
  lemma {:induction false} AddLineTotal(b: seq<Line>, p: Catalog.Product, size: Catalog.Size, quantity: int, now: string)
    ensures var price := match FindLine(b, p.id, size)
                         case Some(i) => b[i].product.price
                         case None => p.price;
      Total(AddLine(b, p, size, quantity, now)) == Total(b) + price * quantity
  {
    match FindLine(b, p.id, size)
    case Some(i) =>
      var l := b[i].(quantity := b[i].quantity + quantity);
      Seqs.SumUpdate(b, i, l, LineTotal);
      var price := b[i].product.price;
      calc {
        LineTotal(l);
        price * (b[i].quantity + quantity);
        price * b[i].quantity + price * quantity;
        LineTotal(b[i]) + price * quantity;
      }
    case None =>
      Seqs.SumAppend(b, [Line(p, size, quantity, now)], LineTotal);
  }

  /** Adding a positive quantity keeps every line positive. */
  lemma {:induction false} AddLineKeepsPositive(b: seq<Line>, p: Catalog.Product, size: Catalog.Size, quantity: int, now: string)
    requires PositiveQuantities(b) && quantity >= 1
    ensures PositiveQuantities(AddLine(b, p, size, quantity, now))
  {
  }

  /** Nothing guards the quantity of an add: adding 0 units creates a line that holds none. */
  lemma AddLineAcceptsZero(p: Catalog.Product, size: Catalog.Size, now: string)
    ensures !PositiveQuantities(AddLine([], p, size, 0, now))
  {
    assert AddLine([], p, size, 0, now)[0].quantity == 0;
  }

  // ---------------------------------------------------------------------
  // removeFromBasket

  /**
   * Removing leaves exactly the lines for other keys, each as often as
   * before; no line for the key survives.
   */
  lemma {:induction false} RemoveLinesContents(b: seq<Line>, id: Catalog.ProductId, size: Catalog.Size)
    ensures var r := RemoveLines(b, id, size);
      && (forall l :: multiset(r)[l] == if IsFor(l, id, size) then 0 else multiset(b)[l])
      && !HasKey(r, id, size)
  {
    var r := RemoveLines(b, id, size);
    forall i | 0 <= i < |r| ensures !IsFor(r[i], id, size) {
      assert multiset(r)[r[i]] > 0;
    }
  }

  /** Removing keeps the order of the surviving lines. */
  lemma {:induction false} RemoveLinesKeepsOrder(a: seq<Line>, b: seq<Line>, id: Catalog.ProductId, size: Catalog.Size)
    ensures RemoveLines(a + b, id, size) == RemoveLines(a, id, size) + RemoveLines(b, id, size)
  {
    Seqs.FilterAppend(a, b, l => !IsFor(l, id, size));
  }

  /** Removing a key that is not in the basket changes nothing. */
  lemma {:induction false} RemoveAbsentIsIdentity(b: seq<Line>, id: Catalog.ProductId, size: Catalog.Size)
    requires !HasKey(b, id, size)
    ensures RemoveLines(b, id, size) == b
  {
    Seqs.FilterKeepsAll(b, l => !IsFor(l, id, size));
  }

  /** In a basket with unique keys, removing the line at `i` is deleting position `i`. */
  lemma {:induction false} RemoveUniqueLine(b: seq<Line>, id: Catalog.ProductId, size: Catalog.Size, i: nat)
    requires UniqueKeys(b)
    requires i < |b| && IsFor(b[i], id, size)
    ensures RemoveLines(b, id, size) == b[..i] + b[i + 1..]
  {
    var keep := l => !IsFor(l, id, size);
    var pre, post := b[..i], b[i + 1..];
    assert b == pre + ([b[i]] + post);
    forall k | 0 <= k < |pre| ensures keep(pre[k]) {
      assert !SameKey(b[k], b[i]);
    }
    forall k | 0 <= k < |post| ensures keep(post[k]) {
      assert post[k] == b[i + 1 + k];
      assert !SameKey(b[i], b[i + 1 + k]);
    }
    calc {
      RemoveLines(b, id, size);
      Seqs.Filter(pre + ([b[i]] + post), keep);
      { Seqs.FilterAppend(pre, [b[i]] + post, keep); Seqs.FilterAppend([b[i]], post, keep); }
      Seqs.Filter(pre, keep) + (Seqs.Filter([b[i]], keep) + Seqs.Filter(post, keep));
      { Seqs.FilterKeepsAll(pre, keep); Seqs.FilterKeepsNone([b[i]], keep); Seqs.FilterKeepsAll(post, keep); }
      pre + ([] + post);
    }
    assert [] + post == post;
  }

  /** Deleting one position keeps the remaining keys unique. */
  lemma {:induction false} DeleteKeepsKeysUnique(b: seq<Line>, i: nat)
    requires UniqueKeys(b) && i < |b|
    ensures UniqueKeys(b[..i] + b[i + 1..])
  {
    var r := b[..i] + b[i + 1..];
    forall j, k | 0 <= j < k < |r| ensures !SameKey(r[j], r[k]) {
      var j' := if j < i then j else j + 1;
      var k' := if k < i then k else k + 1;
      assert r[j] == b[j'] && r[k] == b[k'];
    }
  }

  /** Removing from a basket with unique keys keeps them unique. */
  lemma {:induction false} RemoveLinesKeepsKeysUnique(b: seq<Line>, id: Catalog.ProductId, size: Catalog.Size)
    requires UniqueKeys(b)
    ensures UniqueKeys(RemoveLines(b, id, size))
  {
    match FindLine(b, id, size)
    case Some(i) =>
      RemoveUniqueLine(b, id, size, i);
      DeleteKeepsKeysUnique(b, i);
    case None =>
      RemoveAbsentIsIdentity(b, id, size);
  }

  /** Removing takes the units of the removed lines out of the item count. */
  lemma {:induction false} RemoveLinesItemsCount(b: seq<Line>, id: Catalog.ProductId, size: Catalog.Size)
    ensures ItemsCount(b) == ItemsCount(RemoveLines(b, id, size)) + ItemsCount(Seqs.Filter(b, l => IsFor(l, id, size)))
  {
    if b != [] {
      assert b == [b[0]] + b[1..];
      RemoveLinesItemsCount(b[1..], id, size);
      var keep := l => !IsFor(l, id, size);
      var drop := l => IsFor(l, id, size);
      assert Seqs.Filter(b, keep) == (if keep(b[0]) then [b[0]] else []) + Seqs.Filter(b[1..], keep);
      assert Seqs.Filter(b, drop) == (if drop(b[0]) then [b[0]] else []) + Seqs.Filter(b[1..], drop);
      Seqs.SumAppend(if keep(b[0]) then [b[0]] else [], Seqs.Filter(b[1..], keep), Quantity);
      Seqs.SumAppend(if drop(b[0]) then [b[0]] else [], Seqs.Filter(b[1..], drop), Quantity);
    }
  }

  /** Removing keeps every line positive. */
  lemma {:induction false} RemoveLinesKeepsPositive(b: seq<Line>, id: Catalog.ProductId, size: Catalog.Size)
    requires PositiveQuantities(b)
    ensures PositiveQuantities(RemoveLines(b, id, size))
  {
    var r := RemoveLines(b, id, size);
    forall i | 0 <= i < |r| ensures r[i].quantity >= 1 {
      assert multiset(r)[r[i]] > 0;
      assert r[i] in b;
    }
  }

  // ---------------------------------------------------------------------
  // updateQuantity

  /** A quantity below one is refused: the basket stays as it was. */
  lemma {:induction false} SetQuantityRejectsBelowOne(b: seq<Line>, id: Catalog.ProductId, size: Catalog.Size, newQuantity: int)
    requires newQuantity < 1
    ensures SetQuantity(b, id, size, newQuantity) == b
  {
  }

  /**
   * Otherwise the first line for the key (the only one when keys are
   * unique) gets the new quantity, and the length and every other line stay.
   */
  lemma {:induction false} SetQuantityUpdates(b: seq<Line>, id: Catalog.ProductId, size: Catalog.Size, newQuantity: int, i: nat)
    requires newQuantity >= 1
    requires i < |b| && IsFor(b[i], id, size)
    requires forall j :: 0 <= j < i ==> !IsFor(b[j], id, size)
    ensures var r := SetQuantity(b, id, size, newQuantity);
      && |r| == |b|
      && r[i] == b[i].(quantity := newQuantity)
      && forall j :: 0 <= j < |b| && j != i ==> r[j] == b[j]
  {
    var k := FindLine(b, id, size);
    assert k.Some?;
    assert k.value == i;
  }

  /** Updating a key that is not in the basket changes nothing. */
  lemma {:induction false} SetQuantityAbsentIsIdentity(b: seq<Line>, id: Catalog.ProductId, size: Catalog.Size, newQuantity: int)
    requires !HasKey(b, id, size)
    ensures SetQuantity(b, id, size, newQuantity) == b
  {
  }

  /** Updating never touches keys, so unique keys stay unique. */
  lemma {:induction false} SetQuantityKeepsKeysUnique(b: seq<Line>, id: Catalog.ProductId, size: Catalog.Size, newQuantity: int)
    requires UniqueKeys(b)
    ensures UniqueKeys(SetQuantity(b, id, size, newQuantity))
  {
    var r := SetQuantity(b, id, size, newQuantity);
    assert |r| == |b|;
    forall j, k | 0 <= j < k < |r| ensures !SameKey(r[j], r[k]) {
      assert SameKey(r[j], r[k]) <==> SameKey(b[j], b[k]);
    }
  }

  /** Thanks to the guard, updating keeps every line positive whatever quantity is asked for. */
  lemma {:induction false} SetQuantityKeepsPositive(b: seq<Line>, id: Catalog.ProductId, size: Catalog.Size, newQuantity: int)
    requires PositiveQuantities(b)
    ensures PositiveQuantities(SetQuantity(b, id, size, newQuantity))
  {
  }

  /** Updating changes the item count by the difference between the new and the old quantity. */
  lemma {:induction false} SetQuantityItemsCount(b: seq<Line>, id: Catalog.ProductId, size: Catalog.Size, newQuantity: int)
    ensures ItemsCount(SetQuantity(b, id, size, newQuantity))
         == ItemsCount(b) + (match FindLine(b, id, size)
                             case Some(i) => if newQuantity < 1 then 0 else newQuantity - b[i].quantity
                             case None => 0)
  {
    match FindLine(b, id, size)
    case Some(i) =>
      if newQuantity >= 1 {
        Seqs.SumUpdate(b, i, b[i].(quantity := newQuantity), Quantity);
      }
    case None =>
  }
}
