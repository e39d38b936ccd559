/**
  The shopping-cart store: an ordered list of cart lines, one per product id,
  with two actions (add one unit of a product, remove a product's line) and a
  derived count of all units in the cart.
 */
module Cart {

  type ProductId = string

  /** One cart line. `price` is in integer cents. */
  datatype CartItem = CartItem(id: ProductId, name: string, price: int, quantity: int)

  type Cart = seq<CartItem>

  /** The cart state before anything was added. */
  const EmptyCart: Cart := []

  /** Some line of `c` carries product `id`. */
  predicate Contains(c: Cart, id: ProductId) {
    exists i :: 0 <= i < |c| && c[i].id == id
  }

  /** At most one line per product id. */
  predicate UniqueIds(c: Cart) {
    forall i, j :: 0 <= i < j < |c| ==> c[i].id != c[j].id
  }

  /** Every line holds at least one unit. */
  predicate PositiveQuantities(c: Cart) {
    forall i :: 0 <= i < |c| ==> c[i].quantity >= 1
  }

  /** The invariant the cart actions keep. */
  predicate WellFormed(c: Cart) {
    UniqueIds(c) && PositiveQuantities(c)
  }

  /**
    The position of the first line with product `id`, or -1 when there is
    none: what both `find` and `findIndex` look up.
   */
  function FindIndex(c: Cart, id: ProductId): (r: int)
    ensures -1 <= r < |c|
    ensures r == -1 <==> !Contains(c, id)
    ensures r >= 0 ==> c[r].id == id
    ensures r >= 0 ==> forall j :: 0 <= j < r ==> c[j].id != id
  {
    if |c| == 0 then -1
    else if c[0].id == id then 0
    else
      var k := FindIndex(c[1..], id);
      assert forall i | 1 <= i < |c| :: c[i] == c[1..][i - 1];
      if k == -1 then -1 else k + 1
  }

  /**
    Add one unit of `item`: bump the quantity of the line that already holds
    its id, or append a copy of `item` with quantity 1 (whatever quantity the
    incoming item carried).
   */
  function AddItem(c: Cart, item: CartItem): (r: Cart)
    ensures Contains(r, item.id)
    ensures Contains(c, item.id) ==>
              && |r| == |c|
              && var k := FindIndex(c, item.id);
              && r[k] == c[k].(quantity := c[k].quantity + 1)
              && forall j :: 0 <= j < |c| && j != k ==> r[j] == c[j]
    ensures !Contains(c, item.id) ==>
              && |r| == |c| + 1
              && r[..|c|] == c
              && r[|c|] == item.(quantity := 1)
  {
    var k := FindIndex(c, item.id);
    if k >= 0 then
      var r := c[k := c[k].(quantity := c[k].quantity + 1)];
      assert r[k].id == item.id;
      r
    else
      var r := c + [item.(quantity := 1)];
      assert r[|c|].id == item.id;
      r
  }

  /**
    Delete the first line whose id is `id`; a cart without such a line is
    returned as it is.
   */
  function RemoveItem(c: Cart, id: ProductId): (r: Cart)
    ensures !Contains(c, id) ==> r == c
    ensures Contains(c, id) ==>
              && |r| == |c| - 1
              && var k := FindIndex(c, id);
              && (forall j :: 0 <= j < k ==> r[j] == c[j])
              && (forall j :: k < j < |c| ==> r[j - 1] == c[j])
  {
    var k := FindIndex(c, id);
    if k == -1 then c else c[..k] + c[k + 1..]
  }

  /**
    Sum of all lines' quantities, folded from the left like the getter's
    `reduce` with initial value 0. With every quantity positive there are at
    least as many units as lines.
   */
  function TotalItems(c: Cart): (r: int)
    ensures PositiveQuantities(c) ==> r >= |c|
  {
    if |c| == 0 then 0 else TotalItems(c[..|c| - 1]) + c[|c| - 1].quantity
  }

  /** The getter's `reduce` loop, accumulating quantities left to right. */
  method ReduceTotalItems(c: Cart) returns (total: int)
    ensures total == TotalItems(c)
    ensures PositiveQuantities(c) ==> total >= |c|
  {
    total := 0;
    var i := 0;
    while i < |c|
      invariant 0 <= i <= |c|
      invariant total == TotalItems(c[..i])
    {
      assert c[..i + 1][..i] == c[..i];
      total := total + c[i].quantity;
      i := i + 1;
    }
    assert c[..|c|] == c;
  }

  lemma {:induction false} TotalItemsAppend(a: Cart, b: Cart)
    ensures TotalItems(a + b) == TotalItems(a) + TotalItems(b)
    decreases |b|
  {
    if |b| == 0 {
      assert a + b == a;
    } else {
      var b' := b[..|b| - 1];
      assert (a + b)[..|a + b| - 1] == a + b';
      TotalItemsAppend(a, b');
    }
  }

  /** The total splits around any line. */
  lemma {:induction false} TotalItemsSplit(c: Cart, k: int)
    requires 0 <= k < |c|
    ensures TotalItems(c) == TotalItems(c[..k]) + c[k].quantity + TotalItems(c[k + 1..])
  {
    assert c == c[..k] + [c[k]] + c[k + 1..];
    TotalItemsAppend(c[..k] + [c[k]], c[k + 1..]);
    TotalItemsAppend(c[..k], [c[k]]);
    assert [c[k]][..0] == [];
  }

  /** Every add raises the unit count by exactly one. */
  lemma {:induction false} TotalAfterAdd(c: Cart, item: CartItem)
    ensures TotalItems(AddItem(c, item)) == TotalItems(c) + 1
  {
    var k := FindIndex(c, item.id);
    var r := AddItem(c, item);
    if k >= 0 {
      TotalItemsSplit(c, k);
      TotalItemsSplit(r, k);
      assert r[..k] == c[..k];
      assert r[k + 1..] == c[k + 1..];
    } else {
      TotalItemsAppend(c, [item.(quantity := 1)]);
      assert [item.(quantity := 1)][..0] == [];
    }
  }

  /** Removing a present id lowers the unit count by that line's quantity; removing an absent one changes nothing. */
  lemma {:induction false} TotalAfterRemove(c: Cart, id: ProductId)
    ensures Contains(c, id) ==>
              TotalItems(RemoveItem(c, id)) == TotalItems(c) - c[FindIndex(c, id)].quantity
    ensures !Contains(c, id) ==> TotalItems(RemoveItem(c, id)) == TotalItems(c)
  {
    var k := FindIndex(c, id);
    if k >= 0 {
      TotalItemsSplit(c, k);
      TotalItemsAppend(c[..k], c[k + 1..]);
    }
  }

  lemma AddPreservesWellFormed(c: Cart, item: CartItem)
    requires WellFormed(c)
    ensures WellFormed(AddItem(c, item))
  {
    var r := AddItem(c, item);
    if !Contains(c, item.id) {
      forall i, j | 0 <= i < j < |r|
        ensures r[i].id != r[j].id
      {
        if j == |c| {
          assert r[i] == c[i];
        } else {
          assert r[i] == c[i] && r[j] == c[j];
        }
      }
    }
  }

  lemma RemovePreservesWellFormed(c: Cart, id: ProductId)
    requires WellFormed(c)
    ensures WellFormed(RemoveItem(c, id))
  {
    var r := RemoveItem(c, id);
    if Contains(c, id) {
      var k := FindIndex(c, id);
      forall i, j | 0 <= i < j < |r|
        ensures r[i].id != r[j].id
      {
        var i' := if i < k then i else i + 1;
        var j' := if j < k then j else j + 1;
        assert r[i] == c[i'] && r[j] == c[j'];
      }
      forall i | 0 <= i < |r|
        ensures r[i].quantity >= 1
      {
        var i' := if i < k then i else i + 1;
        assert r[i] == c[i'];
      }
    }
  }

  /** Adding a product that is not in the cart and then removing it gives the cart back. */
  lemma RemoveUndoesFreshAdd(c: Cart, item: CartItem)
    requires !Contains(c, item.id)
    ensures RemoveItem(AddItem(c, item), item.id) == c
  {
    var r := AddItem(c, item);
    var k := FindIndex(r, item.id);
    assert forall j | 0 <= j < |c| :: r[j] == c[j];
    assert k == |c|;
    assert r[..|c|] == c;
  }

  /**
    Adding a product the cart does not hold twice in a row gives one new line,
    at the end, holding two units.
   */
  lemma AddTwiceMerges(c: Cart, item: CartItem)
    requires !Contains(c, item.id)
    ensures AddItem(AddItem(c, item), item) == c + [item.(quantity := 2)]
  {
    assert FindIndex(AddItem(c, item), item.id) == |c|;
  }

  /** A user interaction with the cart. */
  datatype Action = Add(item: CartItem) | Remove(id: ProductId)

  function Apply(c: Cart, a: Action): Cart {
    match a
    case Add(item) => AddItem(c, item)
    case Remove(id) => RemoveItem(c, id)
  }

  /** The cart after performing `actions` in order, starting from `c`. */
  function Run(c: Cart, actions: seq<Action>): Cart
    decreases |actions|
  {
    if |actions| == 0 then c else Run(Apply(c, actions[0]), actions[1..])
  }

  /**
    Any sequence of adds and removes keeps one line per id and a positive
    quantity on every line, so the unit count never falls below the line count.
   */
  lemma {:induction false} RunPreservesWellFormed(c: Cart, actions: seq<Action>)
    requires WellFormed(c)
    ensures WellFormed(Run(c, actions))
    ensures TotalItems(Run(c, actions)) >= |Run(c, actions)|
    decreases |actions|
  {
    if |actions| > 0 {
      match actions[0] {
        case Add(item) => AddPreservesWellFormed(c, item);
        case Remove(id) => RemovePreservesWellFormed(c, id);
      }
      RunPreservesWellFormed(Apply(c, actions[0]), actions[1..]);
    }
  }

  /**
    Every cart the store can reach from its initial empty state, by any
    sequence of adds and removes, has one line per id, only positive
    quantities, and a unit count at least its line count.
   */
  lemma ReachableWellFormed(actions: seq<Action>)
    ensures WellFormed(Run(EmptyCart, actions))
    ensures TotalItems(Run(EmptyCart, actions)) >= |Run(EmptyCart, actions)|
  {
    RunPreservesWellFormed(EmptyCart, actions);
  }
}
