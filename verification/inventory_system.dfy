/**
 * The in-memory inventory of `inventory_system.py`: a dict from item name to
 * quantity, with Python's insertion-ordered iteration, and the operations
 * `add_item`, `remove_item`, `get_qty`, `print_data` and `check_low_items`.
 *
 * The dict is an association list whose names are pairwise distinct; its
 * order is the dict's iteration order. Printed lines are returned as strings.
 */
module InventorySystem {
  import opened Wrappers
  import opened Format

  /** One dict item: a key and its quantity. */
  datatype Entry = Entry(name: string, qty: int)

  predicate UniqueNames(s: seq<Entry>) {
    forall i, j :: 0 <= i < j < |s| ==> s[i].name != s[j].name
  }

  /** A dict from item name to quantity, in iteration (insertion) order. */
  type Inventory = s: seq<Entry> | UniqueNames(s) witness []

  /** A Python argument as far as `add_item` inspects its type. `Bool` is
      kept apart from `Int` because Python's `bool` is a subclass of `int`.
      `Other` is any argument that is not a `str`, `int`, `bool` or `float`;
      floats are outside the model, so no `Value` stands for one. */
  datatype Value = Str(s: string) | Int(i: int) | Bool(b: bool) | Other

  /** The exception `add_item` raises. */
  datatype Error = TypeError(message: string)

  /** What a successful `add_item` leaves behind: the dict and the log it returns. */
  datatype Added = Added(inventory: Inventory, logs: seq<string>)

  /** What `remove_item` leaves behind: the dict and the line it prints. */
  datatype Removed = Removed(inventory: Inventory, message: string)

  const ItemNotString := "Item name must be a string."
  const QtyNotNumber := "Quantity must be a number."
  const EmptyMessage := "Inventory is empty."
  const InventoryHeader := "Current Inventory:"
  const NoLowStockMessage := "No low-stock items."
  const LowStockHeader := "Low-stock items:"

  /** `item in stock_data` */
  predicate Has(inv: seq<Entry>, item: string) {
    exists i :: 0 <= i < |inv| && inv[i].name == item
  }

  /** The keys in iteration order. */
  function Names(inv: seq<Entry>): (r: seq<string>)
    ensures |r| == |inv|
    ensures forall i :: 0 <= i < |inv| ==> r[i] == inv[i].name
  {
    seq(|inv|, i requires 0 <= i < |inv| => inv[i].name)
  }

  /** The position of the first entry named `item`, if any. */
  function IndexOf(inv: seq<Entry>, item: string): (r: Option<nat>)
    ensures r.Some? ==> r.value < |inv| && inv[r.value].name == item
    ensures r.Some? ==> forall i :: 0 <= i < r.value ==> inv[i].name != item
    ensures r.None? <==> !Has(inv, item)
  {
    if |inv| == 0 then None
    else if inv[0].name == item then Some(0)
    else match IndexOf(inv[1..], item)
      case None => (assert forall i :: 1 <= i < |inv| ==> inv[i] == inv[1..][i - 1]; None)
      case Some(k) => Some(k + 1)
  }

  /** `get_qty`: the stored quantity, or 0 for an absent key. */
  function GetQty(inv: Inventory, item: string): (r: int)
    ensures forall i :: 0 <= i < |inv| && inv[i].name == item ==> r == inv[i].qty
    ensures !Has(inv, item) ==> r == 0
  {
    match IndexOf(inv, item)
    case Some(i) => inv[i].qty
    case None => 0
  }

  /** `isinstance(qty, (int, float))`; floats are not modelled. */
  predicate IsNumber(v: Value) {
    v.Int? || v.Bool?
  }

  /** The number a numeric argument adds: `True` counts as 1, `False` as 0. */
  function Amount(v: Value): int
    requires IsNumber(v)
  {
    match v
    case Int(i) => i
    case Bool(b) => if b then 1 else 0
  }

  /** How an f-string interpolates a numeric argument. */
  function FormatNumber(v: Value): string
    requires IsNumber(v)
  {
    match v
    case Int(i) => IntToString(i)
    case Bool(b) => if b then "True" else "False"
  }

  function AddedMessage(qty: Value, item: string): string
    requires IsNumber(qty)
  {
    "Added " + FormatNumber(qty) + " of " + item
  }

  function RemovedMessage(item: string): string {
    "Removed '" + item + "' from inventory."
  }

  function NotFoundMessage(item: string): string {
    "Item '" + item + "' not found in inventory."
  }

  /** Overwriting the quantity of entry `i` keeps every name in place and
      every other key's quantity. */
  lemma UpdateEntry(inv: Inventory, i: nat, q: int)
    requires i < |inv|
    ensures UniqueNames(inv[i := Entry(inv[i].name, q)])
    ensures Names(inv[i := Entry(inv[i].name, q)]) == Names(inv)
    ensures forall k :: Has(inv[i := Entry(inv[i].name, q)], k) <==> Has(inv, k)
    ensures forall k :: k != inv[i].name ==> GetQty(inv[i := Entry(inv[i].name, q)], k) == GetQty(inv, k)
    ensures GetQty(inv[i := Entry(inv[i].name, q)], inv[i].name) == q
  {
  }

  /** Appending an entry under a new name keeps every existing key and its
      quantity. */
  lemma AppendEntry(inv: Inventory, item: string, q: int)
    requires !Has(inv, item)
    ensures UniqueNames(inv + [Entry(item, q)])
    ensures Names(inv + [Entry(item, q)]) == Names(inv) + [item]
    ensures forall k :: Has(inv + [Entry(item, q)], k) <==> Has(inv, k) || k == item
    ensures forall k :: k != item ==> GetQty(inv + [Entry(item, q)], k) == GetQty(inv, k)
    ensures GetQty(inv + [Entry(item, q)], item) == q
  {
    var s := inv + [Entry(item, q)];
    assert s[|inv|].name == item;
    assert forall j :: 0 <= j < |inv| ==> s[j] == inv[j];
    var r: Inventory := s;
    assert Names(r) == Names(inv) + [item];
    forall k | Has(r, k) ensures Has(inv, k) || k == item {
      var j :| 0 <= j < |r| && r[j].name == k;
      if j < |inv| { assert inv[j].name == k; }
    }
    forall k | k != item && Has(inv, k) ensures GetQty(r, k) == GetQty(inv, k) {
      var j :| 0 <= j < |inv| && inv[j].name == k;
      assert r[j] == inv[j];
    }
  }

  /** `stock_data[item] = stock_data.get(item, 0) + n`: an existing key keeps
      its place, a new key goes to the end. */
  function Accumulate(inv: Inventory, item: string, n: int): (r: Inventory)
    ensures GetQty(r, item) == GetQty(inv, item) + n
    ensures forall k :: k != item ==> GetQty(r, k) == GetQty(inv, k)
    ensures forall k :: Has(r, k) <==> Has(inv, k) || k == item
    ensures Has(inv, item) ==> Names(r) == Names(inv)
    ensures !Has(inv, item) ==> Names(r) == Names(inv) + [item]
  {
    match IndexOf(inv, item)
    case Some(i) =>
      assert GetQty(inv, item) == inv[i].qty;
      UpdateEntry(inv, i, inv[i].qty + n);
      inv[i := Entry(inv[i].name, inv[i].qty + n)]
    case None =>
      AppendEntry(inv, item, n);
      inv + [Entry(item, n)]
  }

  /** `add_item(stock_data, item, qty, logs)`. Both type checks come before
      any change; on success the quantity accumulates and exactly one line is
      appended to the log (a fresh one when `logs` is `None`). */
  function AddItem(inv: Inventory, item: Value, qty: Value, logs: Option<seq<string>>): (r: Result<Added, Error>)
    ensures r.Failure? <==> !item.Str? || !IsNumber(qty)
    ensures !item.Str? ==> r == Failure(TypeError(ItemNotString))
    ensures item.Str? && !IsNumber(qty) ==> r == Failure(TypeError(QtyNotNumber))
    ensures r.Success? ==>
      var prior := if logs.Some? then logs.value else [];
      var after := r.value.inventory;
      && GetQty(after, item.s) == GetQty(inv, item.s) + Amount(qty)
      && (forall k :: k != item.s ==> GetQty(after, k) == GetQty(inv, k))
      && (forall k :: Has(after, k) <==> Has(inv, k) || k == item.s)
      && (Has(inv, item.s) ==> Names(after) == Names(inv))
      && (!Has(inv, item.s) ==> Names(after) == Names(inv) + [item.s])
      && |r.value.logs| == |prior| + 1
      && r.value.logs[..|prior|] == prior
      && r.value.logs[|prior|] == AddedMessage(qty, item.s)
  {
    var log := if logs.None? then [] else logs.value;
    if !item.Str? then Failure(TypeError(ItemNotString))
    else if !IsNumber(qty) then Failure(TypeError(QtyNotNumber))
    else
      var after := Accumulate(inv, item.s, Amount(qty));
      var out := log + [AddedMessage(qty, item.s)];
      assert out[..|log|] == log;
      Success(Added(after, out))
  }

  /** Dropping entry `i` keeps the other names distinct and every other key's
      quantity. */
  lemma DropEntry(inv: Inventory, i: nat)
    requires i < |inv|
    ensures UniqueNames(inv[..i] + inv[i + 1..])
    ensures !Has(inv[..i] + inv[i + 1..], inv[i].name)
    ensures forall k :: k != inv[i].name ==> (Has(inv[..i] + inv[i + 1..], k) <==> Has(inv, k))
    ensures forall k :: k != inv[i].name ==> GetQty(inv[..i] + inv[i + 1..], k) == GetQty(inv, k)
  {
    var s := inv[..i] + inv[i + 1..];
    assert forall j :: 0 <= j < |s| ==> s[j] == (if j < i then inv[j] else inv[j + 1]);
    var r: Inventory := s;
    forall k | k != inv[i].name && Has(inv, k)
      ensures Has(r, k) && GetQty(r, k) == GetQty(inv, k)
    {
      var j :| 0 <= j < |inv| && inv[j].name == k;
      if j < i { assert r[j] == inv[j]; } else { assert r[j - 1] == inv[j]; }
    }
    forall k | k != inv[i].name && Has(r, k) ensures Has(inv, k) {
      var j :| 0 <= j < |r| && r[j].name == k;
      assert r[j] in inv;
    }
  }

  /** `remove_item`: deletes the key in place, or reports it missing and
      changes nothing. */
  function RemoveItem(inv: Inventory, item: string): (r: Removed)
    ensures !Has(r.inventory, item)
    ensures forall k :: k != item ==> (Has(r.inventory, k) <==> Has(inv, k))
    ensures forall k :: k != item ==> GetQty(r.inventory, k) == GetQty(inv, k)
    ensures Has(inv, item) ==>
      && r.message == RemovedMessage(item)
      && |r.inventory| == |inv| - 1
      && exists i :: 0 <= i < |inv| && inv[i].name == item && r.inventory == inv[..i] + inv[i + 1..]
    ensures !Has(inv, item) ==> r.inventory == inv && r.message == NotFoundMessage(item)
  {
    match IndexOf(inv, item)
    case None => Removed(inv, NotFoundMessage(item))
    case Some(i) =>
      DropEntry(inv, i);
      Removed(inv[..i] + inv[i + 1..], RemovedMessage(item))
  }

  /** `inv` lists `x` strictly before `y`. */
  predicate Before(inv: seq<Entry>, x: string, y: string) {
    exists i, j :: 0 <= i < j < |inv| && inv[i].name == x && inv[j].name == y
  }

  /** Some entry of `inv` is named `k` and holds less than `threshold`. */
  predicate LowIn(inv: seq<Entry>, k: string, threshold: int) {
    exists i :: 0 <= i < |inv| && inv[i].name == k && inv[i].qty < threshold
  }

  /** How `LowIn` and `Before` see a list through its head and its tail. */
  lemma HeadAndTail(inv: seq<Entry>, threshold: int)
    requires |inv| > 0
    ensures forall k :: LowIn(inv, k, threshold) <==> (inv[0].name == k && inv[0].qty < threshold) || LowIn(inv[1..], k, threshold)
    ensures forall x, y :: Before(inv[1..], x, y) ==> Before(inv, x, y)
    ensures forall y :: LowIn(inv[1..], y, threshold) ==> Before(inv, inv[0].name, y)
  {
  }

  /** The comprehension `[item for item, qty in stock_data.items() if qty < threshold]`. */
  function LowItems(inv: seq<Entry>, threshold: int): (r: seq<string>)
    ensures forall k :: k in r <==> LowIn(inv, k, threshold)
    ensures forall a, b :: 0 <= a < b < |r| ==> Before(inv, r[a], r[b])
  {
    if |inv| == 0 then []
    else
      var rest := LowItems(inv[1..], threshold);
      HeadAndTail(inv, threshold);
      if inv[0].qty < threshold then
        var r := [inv[0].name] + rest;
        assert forall b :: 0 < b < |r| ==> r[b] == rest[b - 1] && r[b] in rest;
        r
      else
        rest
  }

  /** The loop `for item in low_items: print(f"- {item}")`. */
  function Bullets(items: seq<string>): (lines: seq<string>)
    ensures |lines| == |items|
    ensures forall i :: 0 <= i < |items| ==> lines[i] == "- " + items[i]
  {
    if |items| == 0 then [] else ["- " + items[0]] + Bullets(items[1..])
  }

  /** `check_low_items`: the lines it prints. */
  function CheckLowItems(inv: Inventory, threshold: int): (out: seq<string>)
    ensures out == [NoLowStockMessage] <==> forall k :: Has(inv, k) ==> GetQty(inv, k) >= threshold
    ensures out != [NoLowStockMessage] ==>
      && |out| == |LowItems(inv, threshold)| + 1
      && out[0] == LowStockHeader
      && forall i :: 0 <= i < |out| - 1 ==> out[i + 1] == "- " + LowItems(inv, threshold)[i]
  {
    var low := LowItems(inv, threshold);
    if |low| == 0 then
      assert forall k :: Has(inv, k) ==> GetQty(inv, k) >= threshold by {
        forall k | Has(inv, k) ensures GetQty(inv, k) >= threshold {
          var i :| 0 <= i < |inv| && inv[i].name == k;
          assert inv[i].qty >= threshold by { assert k !in low; }
        }
      }
      [NoLowStockMessage]
    else
      var out := [LowStockHeader] + Bullets(low);
      assert low[0] in low;
      assert exists k :: Has(inv, k) && GetQty(inv, k) < threshold by {
        var i :| 0 <= i < |inv| && inv[i].name == low[0] && inv[i].qty < threshold;
        assert Has(inv, low[0]) && GetQty(inv, low[0]) == inv[i].qty;
      }
      assert out != [NoLowStockMessage] by { assert out[0] != NoLowStockMessage; }
      out
  }

  /** One line of `print_data`: `- {item}: {qty}`. */
  function ItemLine(e: Entry): string {
    "- " + e.name + ": " + IntToString(e.qty)
  }

  /** The loop `for item, qty in stock_data.items(): print(f"- {item}: {qty}")`. */
  function ItemLines(inv: seq<Entry>): (lines: seq<string>)
    ensures |lines| == |inv|
    ensures forall i :: 0 <= i < |inv| ==> lines[i] == ItemLine(inv[i])
  {
    if |inv| == 0 then [] else [ItemLine(inv[0])] + ItemLines(inv[1..])
  }

  /** `print_data`: the lines it prints. */
  function PrintData(inv: Inventory): (out: seq<string>)
    ensures |inv| == 0 <==> out == [EmptyMessage]
    ensures |inv| > 0 ==>
      && |out| == |inv| + 1
      && out[0] == InventoryHeader
      && forall i :: 0 <= i < |inv| ==> out[i + 1] == ItemLine(inv[i])
  {
    if |inv| == 0 then [EmptyMessage]
    else
      var out := [InventoryHeader] + ItemLines(inv);
      assert out[0] != EmptyMessage;
      out
  }
}
