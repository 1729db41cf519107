/**
 * The cart line component (components/cart/CartItem.tsx): the unit price it shows,
 * `handleQuantityChange`, the -/+/trash controls and the line total. The component
 * computes its price with its own expression; it is proved to be the reducer's.
 */
module CartItemView {
  import opened Wrappers
  import opened Types
  import opened CartContext

  /** `handleQuantityChange(n)`: a quantity of at most zero removes the line,
      anything else asks for that quantity. */
  function HandleQuantityChange(item: CartItem, newQuantity: int): (a: CartAction)
    ensures newQuantity <= 0 ==> a == RemoveItem(item.id)
    ensures newQuantity > 0 ==> a == UpdateQuantity(item.id, newQuantity)
  {
    if newQuantity <= 0 then RemoveItem(item.id) else UpdateQuantity(item.id, newQuantity)
  }

  /** Dispatching a quantity change has, for every `n`, the effect of UPDATE_QUANTITY. */
  lemma QuantityChangeIsUpdate(state: Cart, item: CartItem, n: int, now: nat)
    ensures CartReducer(state, HandleQuantityChange(item, n), now) == CartReducer(state, UpdateQuantity(item.id, n), now)
  {
  }

  /** The three buttons of a cart line. */
  datatype Control = Decrement | Increment | Trash

  /** The minus button is disabled while the quantity is at most one. */
  predicate Disabled(item: CartItem, control: Control)
  {
    control == Decrement && item.quantity <= 1
  }

  /** What clicking a control dispatches; a disabled button dispatches nothing. */
  function Click(item: CartItem, control: Control): (a: Option<CartAction>)
    ensures a.None? <==> Disabled(item, control)
    ensures control == Decrement && !Disabled(item, control) ==>
              a == Some(UpdateQuantity(item.id, item.quantity - 1)) && item.quantity - 1 >= 1
    ensures control == Increment && item.quantity >= 0 ==> a == Some(UpdateQuantity(item.id, item.quantity + 1))
    ensures control == Trash ==> a == Some(RemoveItem(item.id))
  {
    match control
    case Decrement => if Disabled(item, control) then None else Some(HandleQuantityChange(item, item.quantity - 1))
    case Increment => Some(HandleQuantityChange(item, item.quantity + 1))
    case Trash => Some(RemoveItem(item.id))
  }

  /** In a consistent cart with unique ids, "+" on line `k` raises the total by the
      unit price the line shows and the unit count by one. */
  lemma IncrementAddsUnitPrice(state: Cart, k: nat, now: nat)
    requires k < |state.items| && UniqueIds(state.items) && WellFormed(state)
    requires state.items[k].quantity >= 0
    ensures var item := state.items[k];
      && Click(item, Increment).Some?
      && var r := CartReducer(state, Click(item, Increment).value, now);
         r.total == state.total + UnitPrice(item) && r.itemCount == state.itemCount + 1
  {
    var item := state.items[k];
    UpdatePositiveTotals(state, k, item.quantity + 1, now);
  }

  /** An enabled "-" on line `k` lowers the total by the shown unit price and never
      removes the line. */
  lemma DecrementSubtractsUnitPrice(state: Cart, k: nat, now: nat)
    requires k < |state.items| && UniqueIds(state.items) && WellFormed(state)
    requires !Disabled(state.items[k], Decrement)
    ensures var item := state.items[k];
      && Click(item, Decrement).Some?
      && var r := CartReducer(state, Click(item, Decrement).value, now);
         && r.total == state.total - UnitPrice(item)
         && r.itemCount == state.itemCount - 1
         && |r.items| == |state.items|
  {
    var item := state.items[k];
    UpdatePositiveTotals(state, k, item.quantity - 1, now);
  }

  /** The trash button removes exactly this line and its line total from the cart. */
  lemma TrashRemovesLine(state: Cart, k: nat, now: nat)
    requires k < |state.items| && UniqueIds(state.items) && WellFormed(state)
    ensures var item := state.items[k];
      && Click(item, Trash).Some?
      && var r := CartReducer(state, Click(item, Trash).value, now);
         && r.items == state.items[..k] + state.items[k + 1..]
         && r.total == state.total - LineTotal(item)
         && r.itemCount == state.itemCount - item.quantity
  {
    RemoveUniqueLine(state.items, k);
  }

  /** The `price` the line shows, written as the component writes it. */
  function ShownPrice(item: CartItem): int
  {
    if item.variant.Some? && item.variant.value.price != 0 then item.variant.value.price else item.product.price
  }

  /** The line total the component shows: shown price times quantity. */
  function ShownLineTotal(item: CartItem): int
  {
    ShownPrice(item) * item.quantity
  }

  /** The sum of the line totals over a list of shown lines. */
  function SumShown(items: seq<CartItem>): int
  {
    if |items| == 0 then 0 else ShownLineTotal(items[0]) + SumShown(items[1..])
  }

  /** The component charges each line at the same price the reducer totals it at. */
  lemma ShownPriceIsUnitPrice(item: CartItem)
    ensures ShownPrice(item) == UnitPrice(item)
    ensures ShownLineTotal(item) == LineTotal(item)
  {
  }

  /** In a consistent cart the shown line totals add up to the cart total. */
  lemma {:induction false} ShownLinesAddUp(items: seq<CartItem>)
    ensures SumShown(items) == SumLineTotals(items)
    decreases |items|
  {
    if |items| > 0 {
      ShownPriceIsUnitPrice(items[0]);
      ShownLinesAddUp(items[1..]);
    }
  }

  lemma ShownLinesAddUpToTotal(cart: Cart)
    requires WellFormed(cart)
    ensures SumShown(cart.items) == cart.total
  {
    ShownLinesAddUp(cart.items);
  }

  /** Without unique ids "+" is not local: on the reachable cart whose two lines share
      an id, "+" on the first line (unit price 10) sets both lines to quantity 2 and
      moves the total from 30 to 60. */
  lemma IncrementWithSharedId(now: nat)
    ensures var c := SharedIdCart();
      && c.total == 30
      && UnitPrice(c.items[0]) == 10
      && Click(c.items[0], Increment).Some?
      && var r := CartReducer(c, Click(c.items[0], Increment).value, now);
         && r.items[0].quantity == 2 && r.items[1].quantity == 2
         && r.total == 60
  {
    DuplicateIdsReachable();
    var c := SharedIdCart();
    var l := SharedIdLines();
    assert c.items == l;
    assert UnitPrice(l[0]) == 10;
    assert Click(l[0], Increment) == Some(UpdateQuantity(l[0].id, 2));
    var r := CartReducer(c, UpdateQuantity(l[0].id, 2), now);
    assert r.items == SetQuantityById(l, l[0].id, 2);
    assert r.items == [l[0].(quantity := 2), l[1].(quantity := 2)];
    assert r.items[1..] == [r.items[1]];
    assert UnitPrice(r.items[0]) == 10 && UnitPrice(r.items[1]) == 20;
    assert SumLineTotals(r.items[1..]) == 40;
    assert SumLineTotals(r.items) == 60;
    assert r.total == 60;
    assert r.items[0].quantity == 2 && r.items[1].quantity == 2;
  }
}
