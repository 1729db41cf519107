/**
 * The cart state machine (app/contexts/CartContext.tsx): `cartReducer`, its four
 * actions, `calculateCartTotals` and the initial state handed to `useReducer`.
 * `Date.now()`, used only to build the id of a new line, is the parameter `now`.
 */
module CartContext {
  import opened Wrappers
  import opened Types

  // ---------------------------------------------------------------------------
  // Prices and totals
  // ---------------------------------------------------------------------------

  /** The price a line is charged at, `variant?.price || product.price`: a missing
      variant, or a variant whose price is 0 (falsy), falls back to the product price. */
  function UnitPrice(item: CartItem): (p: int)
    ensures item.variant.Some? && item.variant.value.price != 0 ==> p == item.variant.value.price
    ensures item.variant.None? || item.variant.value.price == 0 ==> p == item.product.price
  {
    match item.variant
    case Some(v) => if v.price != 0 then v.price else item.product.price
    case None => item.product.price
  }

  /** What one line contributes to the cart total. */
  function LineTotal(item: CartItem): int
  {
    UnitPrice(item) * item.quantity
  }

  /** Reference definition of the money total: the sum of the line totals. */
  function SumLineTotals(items: seq<CartItem>): int
  {
    if |items| == 0 then 0 else LineTotal(items[0]) + SumLineTotals(items[1..])
  }

  /** Reference definition of the unit count: the sum of the quantities. */
  function SumQuantities(items: seq<CartItem>): int
  {
    if |items| == 0 then 0 else items[0].quantity + SumQuantities(items[1..])
  }

  datatype Totals = Totals(total: int, itemCount: int)

  /** The two `items.reduce(..., 0)` calls of `calculateCartTotals`, run side by side
      as one left fold from the accumulator `acc`. */
  function ReduceTotals(items: seq<CartItem>, acc: Totals): Totals
    decreases |items|
  {
    if |items| == 0 then acc
    else ReduceTotals(items[1..], Totals(acc.total + LineTotal(items[0]), acc.itemCount + items[0].quantity))
  }

  /** The left fold adds the reference sums to its accumulator. */
  lemma {:induction false} ReduceTotalsAdds(items: seq<CartItem>, acc: Totals)
    ensures ReduceTotals(items, acc) == Totals(acc.total + SumLineTotals(items), acc.itemCount + SumQuantities(items))
    decreases |items|
  {
    if |items| > 0 {
      ReduceTotalsAdds(items[1..], Totals(acc.total + LineTotal(items[0]), acc.itemCount + items[0].quantity));
    }
  }

  /** `calculateCartTotals`: the fold from zero yields Σ line totals and Σ quantities. */
  function CalculateCartTotals(items: seq<CartItem>): (t: Totals)
    ensures t.total == SumLineTotals(items)
    ensures t.itemCount == SumQuantities(items)
  {
    ReduceTotalsAdds(items, Totals(0, 0));
    ReduceTotals(items, Totals(0, 0))
  }

  /** A cart whose cached totals agree with its lines. */
  predicate WellFormed(cart: Cart)
  {
    cart.total == SumLineTotals(cart.items) && cart.itemCount == SumQuantities(cart.items)
  }

  lemma {:induction false} SumAppend(a: seq<CartItem>, b: seq<CartItem>)
    ensures SumLineTotals(a + b) == SumLineTotals(a) + SumLineTotals(b)
    ensures SumQuantities(a + b) == SumQuantities(a) + SumQuantities(b)
    decreases |a|
  {
    if |a| > 0 {
      assert (a + b)[0] == a[0];
      assert (a + b)[1..] == a[1..] + b;
      SumAppend(a[1..], b);
    } else {
      assert a + b == b;
    }
  }

  /** Replacing one line changes the sums by the difference of that line alone. */
  lemma {:induction false} SumReplace(items: seq<CartItem>, k: nat, x: CartItem)
    requires k < |items|
    ensures SumLineTotals(items[k := x]) == SumLineTotals(items) - LineTotal(items[k]) + LineTotal(x)
    ensures SumQuantities(items[k := x]) == SumQuantities(items) - items[k].quantity + x.quantity
    decreases k
  {
    if k > 0 {
      assert items[k := x][1..] == items[1..][k - 1 := x];
      SumReplace(items[1..], k - 1, x);
    }
  }

  // ---------------------------------------------------------------------------
  // Actions and line identity
  // ---------------------------------------------------------------------------

  /** The actions `cartReducer` receives; `Unrecognised` stands for any other `type`. */
  datatype CartAction =
    | AddItem(product: Product, quantity: int, variant: Option<ProductVariant>)
    | RemoveItem(itemId: string)
    | UpdateQuantity(itemId: string, quantity: int)
    | ClearCart
    | Unrecognised(actionType: string)

  /** `variant?.id`. */
  function VariantId(v: Option<ProductVariant>): Option<string>
  {
    match v
    case Some(x) => Some(x.id)
    case None => None
  }

  /** What makes two lines "the same line": product id and variant id. */
  function LineKey(item: CartItem): (string, Option<string>)
  {
    (item.product.id, VariantId(item.variant))
  }

  function ItemId(item: CartItem): string
  {
    item.id
  }

  /** No two lines share a key. */
  ghost predicate Unique<K>(items: seq<CartItem>, key: CartItem -> K)
  {
    forall i, j :: 0 <= i < j < |items| ==> key(items[i]) != key(items[j])
  }

  /** At most one line per (product id, variant id). */
  ghost predicate UniqueLines(items: seq<CartItem>)
  {
    Unique(items, LineKey)
  }

  /** No two lines share an item id. */
  ghost predicate UniqueIds(items: seq<CartItem>)
  {
    Unique(items, ItemId)
  }

  /** `items.find(...)` for ADD_ITEM: the index of the first line with the product's id
      and the variant's id, or `None` when no line has them. */
  function FindLine(items: seq<CartItem>, product: Product, variant: Option<ProductVariant>): (r: Option<nat>)
    ensures r.Some? ==> r.value < |items| && LineKey(items[r.value]) == (product.id, VariantId(variant))
    ensures r.Some? ==> forall j :: 0 <= j < r.value ==> LineKey(items[j]) != (product.id, VariantId(variant))
    ensures r.None? ==> forall j :: 0 <= j < |items| ==> LineKey(items[j]) != (product.id, VariantId(variant))
    decreases |items|
  {
    if |items| == 0 then None
    else if LineKey(items[0]) == (product.id, VariantId(variant)) then Some(0)
    else
      match FindLine(items[1..], product, variant)
      case Some(k) => Some(k + 1)
      case None => None
  }

  function DigitChar(d: nat): char
    requires d < 10
  {
    ('0' as int + d) as char
  }

  /** The number a string of decimal digits denotes, most significant digit first. */
  function DigitsValue(s: string): nat
    requires forall i :: 0 <= i < |s| ==> '0' <= s[i] <= '9'
    decreases |s|
  {
    if |s| == 0 then 0 else 10 * DigitsValue(s[..|s| - 1]) + (s[|s| - 1] as int - '0' as int)
  }

  /** `n` written in decimal, as a template literal renders `Date.now()`: the digits
      denote `n` and there is no leading zero. */
  function DecimalString(n: nat): (s: string)
    ensures |s| > 0
    ensures forall i :: 0 <= i < |s| ==> '0' <= s[i] <= '9'
    ensures DigitsValue(s) == n
    ensures n > 0 ==> s[0] != '0'
    ensures n == 0 ==> s == "0"
    decreases n
  {
    if n < 10 then [DigitChar(n)]
    else
      var s := DecimalString(n / 10) + [DigitChar(n % 10)];
      assert s[..|s| - 1] == DecimalString(n / 10);
      s
  }

  /** The tag that stands for the variant in a new line's id: its id, or `'default'`
      when there is no variant or its id is empty (falsy). */
  function VariantTag(variant: Option<ProductVariant>): string
  {
    if variant.Some? && variant.value.id != "" then variant.value.id else "default"
  }

  /** The id of a new line: `${product.id}-${variant?.id || 'default'}-${Date.now()}`.
      It starts with the product id and a dash, and ends with the decimal digits of
      `now`. */
  function NewItemId(product: Product, variant: Option<ProductVariant>, now: nat): (id: string)
    ensures |id| > |product.id| + |DecimalString(now)|
    ensures id[..|product.id| + 1] == product.id + "-"
    ensures id[|id| - |DecimalString(now)|..] == DecimalString(now)
    ensures DigitsValue(id[|id| - |DecimalString(now)|..]) == now
  {
    var digits := DecimalString(now);
    var id := product.id + "-" + VariantTag(variant) + "-" + digits;
    assert id[..|product.id| + 1] == product.id + "-";
    assert id[|id| - |digits|..] == digits;
    id
  }

  /** The line ADD_ITEM appends when no line matches. */
  function NewLine(product: Product, quantity: int, variant: Option<ProductVariant>, now: nat): CartItem
  {
    CartItem(NewItemId(product, variant, now), product, quantity, variant)
  }

  // ---------------------------------------------------------------------------
  // List operations behind the actions
  // ---------------------------------------------------------------------------

  /** `items.map(item => item.id === id ? {...item, quantity: item.quantity + delta} : item)`. */
  function IncrementById(items: seq<CartItem>, id: string, delta: int): (r: seq<CartItem>)
    ensures |r| == |items|
  {
    seq(|items|, i requires 0 <= i < |items| =>
      if items[i].id == id then items[i].(quantity := items[i].quantity + delta) else items[i])
  }

  /** `items.map(item => item.id === id ? {...item, quantity} : item)`. */
  function SetQuantityById(items: seq<CartItem>, id: string, quantity: int): (r: seq<CartItem>)
    ensures |r| == |items|
  {
    seq(|items|, i requires 0 <= i < |items| =>
      if items[i].id == id then items[i].(quantity := quantity) else items[i])
  }

  /** `items.filter(item => item.id !== id)`: every line with that id goes, every
      other line stays with its multiplicity. */
  function RemoveById(items: seq<CartItem>, id: string): (r: seq<CartItem>)
    ensures forall i :: 0 <= i < |r| ==> r[i].id != id
    ensures |r| <= |items|
    decreases |items|
  {
    if |items| == 0 then []
    else
      var rest := RemoveById(items[1..], id);
      if items[0].id == id then rest else [items[0]] + rest
  }

  /** Filtering removes every copy of a line with that id and keeps every other line
      with its multiplicity. */
  lemma {:induction false} RemoveByIdCounts(items: seq<CartItem>, id: string)
    ensures forall x :: multiset(RemoveById(items, id))[x] == if x.id == id then 0 else multiset(items)[x]
    decreases |items|
  {
    if |items| > 0 {
      RemoveByIdCounts(items[1..], id);
      assert items == [items[0]] + items[1..];
    }
  }

  /** Filtering distributes over concatenation, so the kept lines keep their order. */
  lemma {:induction false} RemoveByIdKeepsOrder(a: seq<CartItem>, b: seq<CartItem>, id: string)
    ensures RemoveById(a + b, id) == RemoveById(a, id) + RemoveById(b, id)
    decreases |a|
  {
    if |a| > 0 {
      assert (a + b)[0] == a[0];
      assert (a + b)[1..] == a[1..] + b;
      RemoveByIdKeepsOrder(a[1..], b, id);
    } else {
      assert a + b == b;
    }
  }

  /** ADD_ITEM's new list: bump the matching line, or append a new one. Either way the
      existing lines keep their keys and positions. */
  function AddLine(items: seq<CartItem>, product: Product, quantity: int, variant: Option<ProductVariant>, now: nat): (r: seq<CartItem>)
    ensures |r| == if FindLine(items, product, variant).Some? then |items| else |items| + 1
    ensures forall i :: 0 <= i < |items| ==> LineKey(r[i]) == LineKey(items[i]) && r[i].id == items[i].id
    ensures exists i :: 0 <= i < |r| && LineKey(r[i]) == (product.id, VariantId(variant))
  {
    match FindLine(items, product, variant)
    case Some(k) => IncrementById(items, items[k].id, quantity)
    case None =>
      var r := items + [NewLine(product, quantity, variant, now)];
      assert LineKey(r[|items|]) == (product.id, VariantId(variant));
      r
  }

  /** The item list a handled action produces. */
  function NextItems(items: seq<CartItem>, action: CartAction, now: nat): seq<CartItem>
    requires !action.Unrecognised?
  {
    match action
    case AddItem(product, quantity, variant) => AddLine(items, product, quantity, variant, now)
    case RemoveItem(id) => RemoveById(items, id)
    case UpdateQuantity(id, quantity) =>
      if quantity <= 0 then RemoveById(items, id) else SetQuantityById(items, id, quantity)
    case ClearCart => []
  }

  /** The cart `{ items, total, itemCount }` with totals recomputed from `items`. */
  function WithTotals(items: seq<CartItem>): (c: Cart)
    ensures c.items == items && WellFormed(c)
  {
    var t := CalculateCartTotals(items);
    Cart(items, t.total, t.itemCount)
  }

  /** The initial state given to `useReducer`: no lines, and totals that match. */
  function InitialCart(): (c: Cart)
    ensures c.items == [] && WellFormed(c)
  {
    Cart([], 0, 0)
  }

  /** `cartReducer`: an unrecognised action returns the state itself; every handled
      action recomputes `total` and `itemCount` from the new lines. */
  function CartReducer(state: Cart, action: CartAction, now: nat): (r: Cart)
    ensures action.Unrecognised? ==> r == state
    ensures !action.Unrecognised? ==> r.items == NextItems(state.items, action, now)
    ensures !action.Unrecognised? ==> r.total == SumLineTotals(r.items) && r.itemCount == SumQuantities(r.items)
  {
    if action.Unrecognised? then state else WithTotals(NextItems(state.items, action, now))
  }

  // ---------------------------------------------------------------------------
  // Properties of the reducer
  // ---------------------------------------------------------------------------

  /** The initial state and CLEAR_CART are both the empty cart with zero totals. */
  lemma ClearCartIsInitial(state: Cart, now: nat)
    ensures CartReducer(state, ClearCart, now) == InitialCart()
    ensures InitialCart().items == [] && InitialCart().total == 0 && InitialCart().itemCount == 0
    ensures WellFormed(InitialCart())
  {
  }

  /** Every action keeps the cached totals consistent with the lines. */
  lemma ReducerKeepsTotals(state: Cart, action: CartAction, now: nat)
    requires WellFormed(state)
    ensures WellFormed(CartReducer(state, action, now))
  {
  }

  /** Under unique item ids, bumping one id touches exactly the line at `k`. */
  lemma IncrementUnique(items: seq<CartItem>, k: nat, delta: int)
    requires k < |items| && UniqueIds(items)
    ensures IncrementById(items, items[k].id, delta) == items[k := items[k].(quantity := items[k].quantity + delta)]
  {
    var r := IncrementById(items, items[k].id, delta);
    forall i | 0 <= i < |items| && i != k
      ensures r[i] == items[i]
    {
      if i < k { assert ItemId(items[i]) != ItemId(items[k]); } else { assert ItemId(items[k]) != ItemId(items[i]); }
    }
  }

  /** Under unique item ids, setting one id's quantity touches exactly the line at `k`. */
  lemma SetQuantityUnique(items: seq<CartItem>, k: nat, quantity: int)
    requires k < |items| && UniqueIds(items)
    ensures SetQuantityById(items, items[k].id, quantity) == items[k := items[k].(quantity := quantity)]
  {
    var r := SetQuantityById(items, items[k].id, quantity);
    forall i | 0 <= i < |items| && i != k
      ensures r[i] == items[i]
    {
      if i < k { assert ItemId(items[i]) != ItemId(items[k]); } else { assert ItemId(items[k]) != ItemId(items[i]); }
    }
  }

  /** ADD_ITEM for a (product, variant) already in the cart: same length and order,
      the matching line grows by exactly `quantity`, the others are unchanged, and the
      totals grow by that line's unit price times `quantity`. */
  lemma AddExistingLine(state: Cart, product: Product, quantity: int, variant: Option<ProductVariant>, now: nat, k: nat)
    requires UniqueIds(state.items)
    requires FindLine(state.items, product, variant) == Some(k)
    ensures var r := CartReducer(state, AddItem(product, quantity, variant), now);
      && |r.items| == |state.items|
      && r.items[k] == state.items[k].(quantity := state.items[k].quantity + quantity)
      && (forall i :: 0 <= i < |state.items| && i != k ==> r.items[i] == state.items[i])
      && (WellFormed(state) ==>
            r.total == state.total + UnitPrice(state.items[k]) * quantity
            && r.itemCount == state.itemCount + quantity)
  {
    var items := state.items;
    var grown := items[k := items[k].(quantity := items[k].quantity + quantity)];
    IncrementUnique(items, k, quantity);
    assert NextItems(items, AddItem(product, quantity, variant), now) == grown;
    SumReplace(items, k, items[k].(quantity := items[k].quantity + quantity));
  }

  /** ADD_ITEM for a new (product, variant): one fresh line appended at the end,
      existing lines untouched, totals grown by the new line. */
  lemma AddNewLine(state: Cart, product: Product, quantity: int, variant: Option<ProductVariant>, now: nat)
    requires FindLine(state.items, product, variant) == None
    ensures var r := CartReducer(state, AddItem(product, quantity, variant), now);
      && r.items == state.items + [NewLine(product, quantity, variant, now)]
      && r.items[|state.items|].id == NewItemId(product, variant, now)
      && (WellFormed(state) ==>
            r.total == state.total + UnitPrice(NewLine(product, quantity, variant, now)) * quantity
            && r.itemCount == state.itemCount + quantity)
  {
    var x := NewLine(product, quantity, variant, now);
    SumAppend(state.items, [x]);
    assert SumLineTotals([x]) == LineTotal(x);
    assert SumQuantities([x]) == x.quantity;
  }

  /** Filtering keeps a list free of duplicate keys. */
  lemma {:induction false} RemoveKeepsUnique<K>(items: seq<CartItem>, id: string, key: CartItem -> K)
    requires Unique(items, key)
    ensures Unique(RemoveById(items, id), key)
    decreases |items|
  {
    if |items| > 0 {
      var tail := items[1..];
      RemoveKeepsUnique(tail, id, key);
      var rest := RemoveById(tail, id);
      RemoveByIdCounts(tail, id);
      if items[0].id != id {
        forall j | 0 <= j < |rest|
          ensures key(items[0]) != key(rest[j])
        {
          assert rest[j] in multiset(rest);
          assert rest[j] in multiset(tail);
          var p :| 0 <= p < |tail| && tail[p] == rest[j];
          assert items[p + 1] == rest[j];
        }
        ConsKeepsUnique(items[0], rest, key);
      }
    }
  }

  /** A line whose key no line of a duplicate-free list has can go in front of it. */
  lemma ConsKeepsUnique<K>(x: CartItem, rest: seq<CartItem>, key: CartItem -> K)
    requires Unique(rest, key)
    requires forall j :: 0 <= j < |rest| ==> key(x) != key(rest[j])
    ensures Unique([x] + rest, key)
  {
    var r := [x] + rest;
    forall i, j | 0 <= i < j < |r|
      ensures key(r[i]) != key(r[j])
    {
      if i > 0 { assert r[i] == rest[i - 1] && r[j] == rest[j - 1]; }
      else { assert r[j] == rest[j - 1]; }
    }
  }

  /** Changing quantities in place keeps a list free of duplicate line keys and ids. */
  lemma QuantityMapsKeepUnique(items: seq<CartItem>, id: string, q: int)
    requires UniqueLines(items)
    ensures UniqueLines(IncrementById(items, id, q)) && UniqueLines(SetQuantityById(items, id, q))
  {
    var a := IncrementById(items, id, q);
    var b := SetQuantityById(items, id, q);
    forall i, j | 0 <= i < j < |items|
      ensures LineKey(a[i]) != LineKey(a[j]) && LineKey(b[i]) != LineKey(b[j])
    {
      assert LineKey(a[i]) == LineKey(items[i]) && LineKey(a[j]) == LineKey(items[j]);
      assert LineKey(b[i]) == LineKey(items[i]) && LineKey(b[j]) == LineKey(items[j]);
    }
  }

  /** Every action preserves "at most one line per (product id, variant id)". */
  lemma ReducerKeepsLinesUnique(state: Cart, action: CartAction, now: nat)
    requires UniqueLines(state.items)
    ensures UniqueLines(CartReducer(state, action, now).items)
  {
    var items := state.items;
    match action
    case AddItem(product, quantity, variant) =>
      match FindLine(items, product, variant) {
        case Some(k) =>
          QuantityMapsKeepUnique(items, items[k].id, quantity);
        case None =>
          var r := items + [NewLine(product, quantity, variant, now)];
          forall i, j | 0 <= i < j < |r|
            ensures LineKey(r[i]) != LineKey(r[j])
          {
            if j == |items| { assert r[i] == items[i]; }
            else { assert r[i] == items[i] && r[j] == items[j]; }
          }
      }
    case RemoveItem(id) =>
      RemoveKeepsUnique(items, id, LineKey);
    case UpdateQuantity(id, quantity) =>
      if quantity <= 0 {
        RemoveKeepsUnique(items, id, LineKey);
      } else {
        QuantityMapsKeepUnique(items, id, quantity);
      }
    case ClearCart =>
    case Unrecognised(_) =>
  }

  /** REMOVE_ITEM keeps exactly the lines whose id differs, in their original order. */
  lemma RemoveItemFilters(state: Cart, id: string, now: nat)
    ensures var r := CartReducer(state, RemoveItem(id), now);
      && (forall x :: multiset(r.items)[x] == if x.id == id then 0 else multiset(state.items)[x])
      && (forall a, b :: state.items == a + b ==> r.items == RemoveById(a, id) + RemoveById(b, id))
  {
    RemoveByIdCounts(state.items, id);
    forall a, b | state.items == a + b
      ensures RemoveById(state.items, id) == RemoveById(a, id) + RemoveById(b, id)
    {
      RemoveByIdKeepsOrder(a, b, id);
    }
  }

  /** Removing the unique line with id `items[k].id` drops exactly position `k` and
      lowers the totals by that line. */
  lemma {:induction false} RemoveUniqueLine(items: seq<CartItem>, k: nat)
    requires k < |items| && UniqueIds(items)
    ensures RemoveById(items, items[k].id) == items[..k] + items[k + 1..]
    ensures SumLineTotals(RemoveById(items, items[k].id)) == SumLineTotals(items) - LineTotal(items[k])
    ensures SumQuantities(RemoveById(items, items[k].id)) == SumQuantities(items) - items[k].quantity
  {
    RemoveUniqueLineLeavesRest(items, k);
    SumWithoutLine(items, k);
  }

  /** With unique ids, filtering out line `k`'s id leaves the lines around it. */
  lemma RemoveUniqueLineLeavesRest(items: seq<CartItem>, k: nat)
    requires k < |items| && UniqueIds(items)
    ensures RemoveById(items, items[k].id) == items[..k] + items[k + 1..]
  {
    var id := items[k].id;
    var before, from, after := items[..k], items[k..], items[k + 1..];
    assert before + from == items;
    RemoveByIdKeepsOrder(before, from, id);
    assert from[1..] == after;
    assert RemoveById(from, id) == RemoveById(after, id);
    forall i | 0 <= i < |before| ensures before[i].id != id {
      assert ItemId(items[i]) != ItemId(items[k]);
    }
    forall i | 0 <= i < |after| ensures after[i].id != id {
      assert ItemId(items[k]) != ItemId(items[k + 1 + i]);
    }
    AbsentIdUnchanged(before, id);
    AbsentIdUnchanged(after, id);
  }

  /** Dropping line `k` takes its share off both sums. */
  lemma SumWithoutLine(items: seq<CartItem>, k: nat)
    requires k < |items|
    ensures SumLineTotals(items[..k] + items[k + 1..]) == SumLineTotals(items) - LineTotal(items[k])
    ensures SumQuantities(items[..k] + items[k + 1..]) == SumQuantities(items) - items[k].quantity
  {
    var before, from, after := items[..k], items[k..], items[k + 1..];
    SumAppend(before, after);
    SumAppend(before, from);
    assert before + from == items;
    assert from[1..] == after;
    assert SumLineTotals(from) == LineTotal(items[k]) + SumLineTotals(after);
    assert SumQuantities(from) == items[k].quantity + SumQuantities(after);
  }

  /** Filtering by an id no line has changes nothing. */
  lemma {:induction false} AbsentIdUnchanged(items: seq<CartItem>, id: string)
    requires forall i :: 0 <= i < |items| ==> items[i].id != id
    ensures RemoveById(items, id) == items
    decreases |items|
  {
    if |items| > 0 {
      AbsentIdUnchanged(items[1..], id);
      assert items == [items[0]] + items[1..];
    }
  }

  /** UPDATE_QUANTITY with a quantity of at most zero is REMOVE_ITEM. */
  lemma UpdateNonPositiveIsRemove(state: Cart, id: string, quantity: int, now: nat)
    requires quantity <= 0
    ensures CartReducer(state, UpdateQuantity(id, quantity), now) == CartReducer(state, RemoveItem(id), now)
  {
  }

  /** UPDATE_QUANTITY with a positive quantity sets that line's quantity and keeps the
      ids, products, variants and order of every line. */
  lemma UpdatePositiveSetsQuantity(state: Cart, id: string, quantity: int, now: nat)
    requires quantity > 0
    ensures var r := CartReducer(state, UpdateQuantity(id, quantity), now);
      && |r.items| == |state.items|
      && forall i :: 0 <= i < |state.items| ==>
           && r.items[i].id == state.items[i].id
           && r.items[i].product == state.items[i].product
           && r.items[i].variant == state.items[i].variant
           && r.items[i].quantity == (if state.items[i].id == id then quantity else state.items[i].quantity)
  {
  }

  /** With unique ids, a positive UPDATE_QUANTITY on line `k` moves the totals by the
      change of that line alone. */
  lemma UpdatePositiveTotals(state: Cart, k: nat, quantity: int, now: nat)
    requires quantity > 0 && k < |state.items| && UniqueIds(state.items) && WellFormed(state)
    ensures var r := CartReducer(state, UpdateQuantity(state.items[k].id, quantity), now);
      && r.total == state.total - LineTotal(state.items[k]) + UnitPrice(state.items[k]) * quantity
      && r.itemCount == state.itemCount - state.items[k].quantity + quantity
  {
    SetQuantityUnique(state.items, k, quantity);
    SumReplace(state.items, k, state.items[k].(quantity := quantity));
  }

  /** The state after dispatching `actions` in order from `state`; the `i`-th dispatch
      happens at time `clock(i)`. */
  function Replay(state: Cart, actions: seq<CartAction>, clock: nat -> nat): Cart
    decreases |actions|
  {
    if |actions| == 0 then state
    else Replay(CartReducer(state, actions[0], clock(0)), actions[1..], (i: nat) => clock(i + 1))
  }

  /** Every cart reachable from the initial state has totals that match its lines and
      at most one line per (product id, variant id). */
  lemma {:induction false} ReplayKeepsInvariants(state: Cart, actions: seq<CartAction>, clock: nat -> nat)
    requires WellFormed(state) && UniqueLines(state.items)
    ensures WellFormed(Replay(state, actions, clock)) && UniqueLines(Replay(state, actions, clock).items)
    decreases |actions|
  {
    if |actions| > 0 {
      var next := CartReducer(state, actions[0], clock(0));
      ReducerKeepsLinesUnique(state, actions[0], clock(0));
      ReplayKeepsInvariants(next, actions[1..], (i: nat) => clock(i + 1));
    }
  }

  lemma ReachableCartsAreConsistent(actions: seq<CartAction>, clock: nat -> nat)
    ensures var c := Replay(InitialCart(), actions, clock);
      c.total == SumLineTotals(c.items) && c.itemCount == SumQuantities(c.items) && UniqueLines(c.items)
  {
    ReplayKeepsInvariants(InitialCart(), actions, clock);
  }

  /** ADD_ITEM for a key already on line `k`, with no assumption about ids: every line
      carrying line `k`'s id gains `quantity`, every other line is unchanged, and the
      ids, products, variants and order of all lines are kept. */
  lemma AddExistingLineAsWritten(state: Cart, product: Product, quantity: int, variant: Option<ProductVariant>, now: nat, k: nat)
    requires FindLine(state.items, product, variant) == Some(k)
    ensures var r := CartReducer(state, AddItem(product, quantity, variant), now);
      && |r.items| == |state.items|
      && forall i :: 0 <= i < |state.items| ==>
           && r.items[i].id == state.items[i].id
           && r.items[i].product == state.items[i].product
           && r.items[i].variant == state.items[i].variant
           && r.items[i].quantity == (if state.items[i].id == state.items[k].id
                                      then state.items[i].quantity + quantity
                                      else state.items[i].quantity)
  {
  }

  /** A product with id "a" and no variants. */
  function SampleProduct(): Product
  {
    Product("a", "A", "", 10, None, "c", [])
  }

  /** A variant whose id is "default", the tag a missing variant also gets. */
  function DefaultNamedVariant(): ProductVariant
  {
    ProductVariant("default", "D", 20)
  }

  function EmptyIdVariant(): ProductVariant
  {
    ProductVariant("", "E", 30)
  }

  /** Adding product "a" without a variant, then with the variant whose id is "default",
      both at time 5. */
  function SharedIdCart(): Cart
  {
    Replay(InitialCart(),
           [AddItem(SampleProduct(), 1, None), AddItem(SampleProduct(), 1, Some(DefaultNamedVariant()))],
           (i: nat) => 5)
  }

  /** The lines of `SharedIdCart`, written out. */
  function SharedIdLines(): seq<CartItem>
  {
    [CartItem("a-default-5", SampleProduct(), 1, None),
     CartItem("a-default-5", SampleProduct(), 1, Some(DefaultNamedVariant()))]
  }

  lemma SharedIdCartUnfolds()
    ensures SharedIdCart()
         == CartReducer(CartReducer(InitialCart(), AddItem(SampleProduct(), 1, None), 5),
                        AddItem(SampleProduct(), 1, Some(DefaultNamedVariant())), 5)
  {
    var a := [AddItem(SampleProduct(), 1, None), AddItem(SampleProduct(), 1, Some(DefaultNamedVariant()))];
    assert a[1..] == [a[1]];
    assert a[1..][1..] == [];
  }

  /** No variant and a variant with id "default" get the same tag. */
  lemma NewIdsCollide()
    ensures NewItemId(SampleProduct(), None, 5) == "a-default-5"
    ensures NewItemId(SampleProduct(), Some(DefaultNamedVariant()), 5) == "a-default-5"
  {
    assert DecimalString(5) == "5";
  }

  /** A variant whose id is empty is falsy too, so it also gets the tag 'default',
      while its key keeps the empty id and stays apart from the no-variant key. */
  lemma EmptyVariantIdCollides()
    ensures NewItemId(SampleProduct(), None, 5) == NewItemId(SampleProduct(), Some(EmptyIdVariant()), 5)
    ensures LineKey(NewLine(SampleProduct(), 1, None, 5)) != LineKey(NewLine(SampleProduct(), 1, Some(EmptyIdVariant()), 5))
  {
    assert VariantTag(Some(EmptyIdVariant())) == VariantTag(None);
  }

  lemma SharedIdSteps()
    ensures var c1 := CartReducer(InitialCart(), AddItem(SampleProduct(), 1, None), 5);
      && c1.items == SharedIdLines()[..1]
      && CartReducer(c1, AddItem(SampleProduct(), 1, Some(DefaultNamedVariant())), 5).items == SharedIdLines()
  {
    NewIdsCollide();
    var c1 := CartReducer(InitialCart(), AddItem(SampleProduct(), 1, None), 5);
    assert FindLine(c1.items, SampleProduct(), Some(DefaultNamedVariant())) == None;
  }

  lemma SharedIdTotals()
    ensures SumLineTotals(SharedIdLines()) == 30 && SumQuantities(SharedIdLines()) == 2
  {
    var l := SharedIdLines();
    assert l[1..] == [l[1]];
    assert UnitPrice(l[0]) == 10 && UnitPrice(l[1]) == 20;
  }

  /** A reachable cart whose two lines, with different keys, share the id "a-default-5":
      the second line's new id is not fresh, and ids are not unique in every reachable
      cart. */
  lemma DuplicateIdsReachable()
    ensures SharedIdCart() == Cart(SharedIdLines(), 30, 2)
    ensures SharedIdCart().items[0].id == SharedIdCart().items[1].id
    ensures LineKey(SharedIdCart().items[0]) != LineKey(SharedIdCart().items[1])
    ensures !UniqueIds(SharedIdCart().items)
  {
    SharedIdCartUnfolds();
    SharedIdSteps();
    SharedIdTotals();
    var l := SharedIdLines();
    assert ItemId(l[0]) == ItemId(l[1]);
  }
}
