/**
 * Properties relating several inventory operations, and the demonstration
 * run of `main` restated as a fact about the model.
 */
module InventoryProperties {
  import opened Wrappers
  import opened Format
  import opened InventorySystem

  /** Two successive valid adds of q1 then q2 to the same item raise its
      quantity by both amounts (`True` counting as 1, `False` as 0); an
      absent item ends at their sum. */
  lemma TwoAddsAccumulate(inv: Inventory, item: string, q1: Value, q2: Value, logs: Option<seq<string>>)
    requires IsNumber(q1) && IsNumber(q2)
    ensures AddItem(inv, Str(item), q1, logs).Success?
    ensures
      var first := AddItem(inv, Str(item), q1, logs).value;
      var second := AddItem(first.inventory, Str(item), q2, Some(first.logs));
      && second.Success?
      && GetQty(second.value.inventory, item) == GetQty(inv, item) + Amount(q1) + Amount(q2)
      && (!Has(inv, item) ==> GetQty(second.value.inventory, item) == Amount(q1) + Amount(q2))
  {
  }

  /** Two successive valid adds to one log leave the earlier lines and then
      both new lines, in call order. */
  lemma TwoAddsLog(inv: Inventory, item: string, q1: Value, q2: Value, logs: Option<seq<string>>)
    requires IsNumber(q1) && IsNumber(q2)
    ensures AddItem(inv, Str(item), q1, logs).Success?
    ensures
      var first := AddItem(inv, Str(item), q1, logs).value;
      var second := AddItem(first.inventory, Str(item), q2, Some(first.logs));
      && second.Success?
      && second.value.logs == (if logs.Some? then logs.value else [])
           + [AddedMessage(q1, item), AddedMessage(q2, item)]
  {
  }

  /** Adding a new item and then removing it gives back the original
      inventory, order included. */
  lemma RemoveUndoesAddOfNewItem(inv: Inventory, item: string, n: int)
    requires !Has(inv, item)
    ensures RemoveItem(Accumulate(inv, item, n), item) == Removed(inv, RemovedMessage(item))
  {
  }

  /** Removing twice is removing once: the second call only reports the key missing. */
  lemma RemoveTwice(inv: Inventory, item: string)
    ensures
      var once := RemoveItem(inv, item);
      RemoveItem(once.inventory, item) == Removed(once.inventory, NotFoundMessage(item))
  {
  }

  /** The low-stock list is exactly the set of keys whose quantity is below
      the threshold, each listed once, in iteration order. */
  lemma LowItemsExact(inv: Inventory, threshold: int)
    ensures forall k :: k in LowItems(inv, threshold) <==> Has(inv, k) && GetQty(inv, k) < threshold
    ensures forall a, b :: 0 <= a < b < |LowItems(inv, threshold)| ==>
      LowItems(inv, threshold)[a] != LowItems(inv, threshold)[b]
  {
  }

  /** Rendered integers never contain a space. */
  lemma NoSpaceInInt(n: int)
    ensures forall i :: 0 <= i < |IntToString(n)| ==> IntToString(n)[i] != ' '
  {
  }

  /** Splitting at the last space: two strings that end in a space-free part
      after a space agree on both parts. */
  lemma SplitAtLastSpace(pre1: string, s1: string, pre2: string, s2: string)
    requires pre1 + " " + s1 == pre2 + " " + s2
    requires forall i :: 0 <= i < |s1| ==> s1[i] != ' '
    requires forall i :: 0 <= i < |s2| ==> s2[i] != ' '
    ensures pre1 == pre2 && s1 == s2
  {
    var line := pre1 + " " + s1;
    assert line[|pre1|] == ' ' && line[|pre2|] == ' ';
    assert pre1 == line[..|pre1|] == pre2;
    assert s1 == line[|pre1| + 1..] == s2;
  }

  /** Distinct entries print as distinct lines: the quantity is the text after
      the last space and the name is what precedes it. */
  lemma ItemLineInjective(e1: Entry, e2: Entry)
    requires ItemLine(e1) == ItemLine(e2)
    ensures e1 == e2
  {
    var s1, s2 := IntToString(e1.qty), IntToString(e2.qty);
    var line := ItemLine(e1);
    var pre1, pre2 := "- " + e1.name + ":", "- " + e2.name + ":";
    assert line == pre1 + " " + s1;
    assert line == pre2 + " " + s2;
    NoSpaceInInt(e1.qty);
    NoSpaceInInt(e2.qty);
    SplitAtLastSpace(pre1, s1, pre2, s2);
    assert e1.name == pre1[2..|pre1| - 1] == e2.name;
    IntToStringInjective(e1.qty, e2.qty);
  }

  /** `print_data` shows every key with its `get_qty` value. */
  lemma PrintDataListsEveryKey(inv: Inventory, k: string)
    requires Has(inv, k)
    ensures ItemLine(Entry(k, GetQty(inv, k))) in PrintData(inv)
  {
  }

  /** Two inventories for which `print_data` makes the same sequence of
      `print` calls, string by string, are the same inventory, with the same
      order. (The text on the terminal can still coincide when a name holds a
      newline; see README.) */
  lemma PrintDataInjective(a: Inventory, b: Inventory)
    requires PrintData(a) == PrintData(b)
    ensures a == b
  {
    if |a| > 0 {
      assert |b| > 0;
      forall i | 0 <= i < |a| ensures a[i] == b[i] {
        assert PrintData(a)[i + 1] == PrintData(b)[i + 1];
        ItemLineInjective(a[i], b[i]);
      }
    }
  }

  /** The inventory `main` builds from an empty one. */
  function Fruit(): Inventory {
    [Entry("Apples", 10), Entry("Bananas", 5)]
  }

  /** `str(10)` and `str(5)` as `main` prints them. */
  lemma DemoNumbers()
    ensures IntToString(10) == "10" && IntToString(5) == "5"
  {
  }

  /** The first step of `main` from an empty inventory: add 10 Apples with
      a fresh log. */
  lemma MainAddsApples()
    ensures AddItem([], Str("Apples"), Int(10), None)
      == Success(Added([Entry("Apples", 10)], ["Added 10 of Apples"]))
  {
    DemoNumbers();
    assert AddedMessage(Int(10), "Apples") == "Added 10 of Apples";
    assert Accumulate([], "Apples", 10) == [Entry("Apples", 10)];
  }

  /** The second step of `main`: add 5 Bananas, logging to the same list. */
  lemma MainAddsBananas()
    ensures AddItem([Entry("Apples", 10)], Str("Bananas"), Int(5), Some(["Added 10 of Apples"]))
      == Success(Added(Fruit(), ["Added 10 of Apples", "Added 5 of Bananas"]))
  {
    DemoNumbers();
    var apples: Inventory := [Entry("Apples", 10)];
    assert AddedMessage(Int(5), "Bananas") == "Added 5 of Bananas";
    assert IndexOf(apples[1..], "Bananas") == None;
    assert IndexOf(apples, "Bananas") == None;
    assert Accumulate(apples, "Bananas", 5) == apples + [Entry("Bananas", 5)];
    assert apples + [Entry("Bananas", 5)] == Fruit();
    var r := AddItem(apples, Str("Bananas"), Int(5), Some(["Added 10 of Apples"]));
    assert r.Success?;
    assert r.value.inventory == Fruit();
    assert r.value.logs == ["Added 10 of Apples", "Added 5 of Bananas"];
  }

  /** `get_qty` on the demonstration inventory. */
  lemma MainQuantities()
    ensures GetQty(Fruit(), "Apples") == 10
    ensures GetQty(Fruit(), "Bananas") == 5
    ensures GetQty(Fruit(), "Oranges") == 0
  {
  }

  /** `print_data` on the demonstration inventory lists both items in the
      order they were added. */
  lemma MainListing()
    ensures PrintData(Fruit()) == ["Current Inventory:", "- Apples: 10", "- Bananas: 5"]
  {
    var inv := Fruit();
    DemoNumbers();
    assert ItemLine(inv[0]) == "- Apples: 10";
    assert ItemLine(inv[1]) == "- Bananas: 5";
  }

  /** Removing Oranges, which `main` never added, only prints a notice and
      leaves both items in place. */
  lemma MainRemovesOranges()
    ensures RemoveItem(Fruit(), "Oranges") == Removed(Fruit(), NotFoundMessage("Oranges"))
    ensures |RemoveItem(Fruit(), "Oranges").inventory| == 2
  {
  }

  /** With threshold 8 only Bananas (5) is low; Apples (10) is not. */
  lemma MainLowStock()
    ensures CheckLowItems(Fruit(), 8) == ["Low-stock items:", "- Bananas"]
  {
    var inv := Fruit();
    assert inv[1..] == [Entry("Bananas", 5)];
    assert LowItems(inv[1..][1..], 8) == [];
    assert LowItems(inv[1..], 8) == ["Bananas"];
    assert LowItems(inv, 8) == ["Bananas"];
    var out := CheckLowItems(inv, 8);
    assert out != [NoLowStockMessage] by { assert !(GetQty(inv, "Bananas") >= 8); }
    assert |out| == 2 && out[0] == LowStockHeader && out[1] == "- Bananas";
  }
}
