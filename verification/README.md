# Inventory system — a Dafny model

This project models the in-memory core of `inventory_system.py`, a small
stock tracker. The inventory is a Python dict from item name to quantity.
The model covers five operations on it:

- `add_item`: checks the argument types, adds to the quantity and appends one log line;
- `remove_item`: deletes a key, or prints a notice when the key is absent;
- `get_qty`: looks up a quantity, with 0 as the default;
- `print_data`: lists the inventory;
- `check_low_items`: lists the items below a threshold.

Files:

- `wrappers.dfy` (module `Wrappers`): `Option` and `Result`.
- `format.dfy` (module `Format`): how Python writes an `int` in an f-string (`IntToString`), and a reader `ParseInt` that shows the rendering is lossless.
- `inventory_system.dfy` (module `InventorySystem`): the data model and the five operations.
- `properties.dfy` (module `InventoryProperties`): lemmas that relate several calls, and the demonstration run of `main` restated as facts.

Representation:

- A dict is an association list `seq<Entry>` whose names are pairwise distinct (the subset type `Inventory`).
- The list order is the dict's iteration order, which in Python is insertion order:
  - updating an existing key keeps its position;
  - a new key goes to the end;
  - `del` closes the gap.
- Python mutates the dict and the log list in place. The model instead returns the new inventory and the new log.
- Lines that the source prints are returned as strings (`Removed.message`) or as `seq<string>` (`PrintData`, `CheckLowItems`).
- `add_item`'s arguments are a small dynamic `Value`: `Str`, `Int`, `Bool` or `Other`.
  - `Other` is any argument that is not a `str`, `int`, `bool` or `float` (floats are not modelled).
  - `Bool` is kept apart because Python's `bool` subclasses `int`. So `isinstance(True, (int, float))` holds: `add_item` accepts `True` as 1 and logs it as `Added True of …`.
- The `TypeError` that `add_item` raises is `Failure(TypeError(message))`. Both type checks run before line 23 changes the dict, so a type error leaves the caller's inventory and log exactly as they were. Other ways `add_item` can fail are listed under "## Left out".

Two facts about the code that the model keeps:

- Python dicts iterate in insertion order, so `print_data` and `check_low_items` print in insertion order, and the model keeps that order.
- `add_item` checks neither that names are non-empty nor that quantities are non-negative: `add_item(d, "", -3)` is accepted. The model accepts any string and any integer.

## Model

| member | source | states |
|---|---|---|
| InventorySystem.GetQty | inventory_system.py:37-39 | for a present key the result is that key's stored quantity; for an absent key it is 0 |
| InventorySystem.IndexOf | inventory_system.py:31 | finds the first (with distinct keys, the only) entry for a key, or reports that no entry has it |
| InventorySystem.Accumulate | inventory_system.py:23 | the key's quantity becomes its previous `get_qty` value plus the amount (so an absent key starts from 0); every other key keeps its quantity; the key set grows by at most the item; an existing key keeps its place in iteration order and a new key is appended last |
| InventorySystem.AddItem | inventory_system.py:12-25 | fails with a type error exactly when the item is not a string or the quantity is not a number, and the item check wins when both fail; on success the quantity accumulates as above and the returned log is the given log (or a fresh empty one) with exactly one `Added {qty} of {item}` line appended |
| InventorySystem.RemoveItem | inventory_system.py:28-34 | a present key is deleted in place (the list loses exactly that entry, the rest keep their order) and the removal line is printed; an absent key leaves the inventory unchanged and prints the not-found line; in both cases no other key changes and the item is absent afterwards |
| InventorySystem.LowItems | inventory_system.py:79 | a name is in the list exactly when some entry with that name holds less than the threshold, and the list keeps the inventory's iteration order |
| InventorySystem.CheckLowItems | inventory_system.py:77-85 | prints only "No low-stock items." exactly when no key is below the threshold; otherwise a header and one `- name` line per low item, in order |
| InventorySystem.Bullets | inventory_system.py:84-85 | the loop prints one `- item` line per low item, in list order |
| InventorySystem.ItemLines | inventory_system.py:73-74 | the loop prints one `- name: qty` line per entry, in iteration order |
| InventorySystem.PrintData | inventory_system.py:67-74 | prints only "Inventory is empty." exactly when the inventory is empty; otherwise a header and one `- name: qty` line per entry in iteration order, so every key appears with its quantity |
| Format.IntToString | inventory_system.py:24 | an integer is written as a minus sign for negatives followed by decimal digits with no leading zero; zero is written "0" |
| Format.IntToStringRoundTrip | inventory_system.py:24 | reading back the rendering of an integer gives the integer |
| Format.IntToStringInjective | inventory_system.py:74 | two integers are written the same exactly when they are equal |
| InventoryProperties.TwoAddsAccumulate | inventory_system.py:23 | two adds of numeric (int or bool) amounts q1 then q2 to one item both succeed and raise its quantity by q1 + q2, so an absent item ends at q1 + q2 |
| InventoryProperties.TwoAddsLog | inventory_system.py:14-15 | two adds of numeric amounts that share one log keep the earlier lines and then both `Added` lines, in call order; with no log supplied the first add starts a fresh one |
| InventoryProperties.RemoveUndoesAddOfNewItem | inventory_system.py:31 | adding a new key and then deleting it restores the original inventory, order included |
| InventoryProperties.RemoveTwice | inventory_system.py:30-34 | a second removal of the same key changes nothing and only prints the not-found line |
| InventoryProperties.LowItemsExact | inventory_system.py:79 | the low-stock list holds exactly the keys whose `get_qty` is below the threshold, each once |
| InventoryProperties.ItemLineInjective | inventory_system.py:74 | two entries print as the same `- name: qty` line only when they are the same entry |
| InventoryProperties.PrintDataListsEveryKey | inventory_system.py:73-74 | every key of the inventory appears in the listing as a `- name: qty` line carrying its `get_qty` value |
| InventoryProperties.PrintDataInjective | inventory_system.py:67-74 | two inventories for which `print_data` passes the same sequence of strings to `print` are equal, order included |
| InventoryProperties.MainAddsApples | inventory_system.py:93 | from an empty inventory, adding 10 Apples with no log gives `{Apples: 10}` and the log `["Added 10 of Apples"]` |
| InventoryProperties.MainAddsBananas | inventory_system.py:94 | then adding 5 Bananas to that log gives `{Apples: 10, Bananas: 5}` and both log lines |
| InventoryProperties.MainQuantities | inventory_system.py:93-94 | after those adds Apples is 10, Bananas 5 and the absent Oranges 0 |
| InventoryProperties.MainListing | inventory_system.py:95 | listing that inventory prints the header, Apples, then Bananas |
| InventoryProperties.MainRemovesOranges | inventory_system.py:98 | removing Oranges prints the not-found line and leaves both keys |
| InventoryProperties.MainLowStock | inventory_system.py:101 | with threshold 8 only Bananas is reported |

## Left out

- `load_data` and `save_data` (inventory_system.py:42-64): file I/O and JSON. Their recovery paths depend on the filesystem and the `json` library, neither of which is modelled. So there is no save/load round trip.
- `main` (inventory_system.py:88-110): only its in-memory steps are restated, as the `Main…` lemmas. Its load, save and final message are I/O.
- Float quantities: `add_item` accepts `float`, but the model's `Value` has no float case. Quantities are integers, and floating-point addition is not modelled.
- Real printing: printed lines are returned as strings.
- RemoveItem: takes only a string item. Python would also accept other hashable items, which are never found because every key is a string. An unhashable item would raise a `TypeError` there; that is not modelled.
- GetQty: takes only a string item, for the same reason.
- CheckLowItems: the threshold is always passed explicitly. The Python default of 5 is not modelled as a default parameter. The threshold is an integer, not an arbitrary comparable value.
- Inventories loaded from JSON could hold non-numeric values, and `add_item` would then raise on the addition. The model's quantities are always integers, so that case cannot arise.
- AddItem: a `logs` argument that is neither `None` nor a list is not modelled (`logs` is `Option<seq<string>>`). In Python such a value (a tuple, a string) makes `logs.append` raise `AttributeError` at inventory_system.py:24, after line 23 has already stored the new quantity; the model has no outcome for "raised after changing the dict".
- AddItem: Python's limit on converting very large integers to text is not modelled. CPython refuses to format an `int` of more than 4300 digits, so with such a quantity `add_item` stores the sum at line 23 and then raises `ValueError` at line 24; the model returns `Success` with a log line.
- PrintData: the same integer-to-text limit is not modelled. A quantity of more than 4300 digits makes `print_data` raise `ValueError` at inventory_system.py:74 after printing the earlier lines; the model returns the full listing.
- PrintDataInjective: it compares the strings passed to `print`, not the text that reaches the terminal. `print` adds a newline after each string, and a name may itself contain a newline, so two different inventories can produce the same text: `{"a: 1\n- b": 2}` and `{"a": 1, "b": 2}` both print `Current Inventory:`, `- a: 1`, `- b: 2`. Injectivity of the joined text is not claimed.
- Python strings that hold lone surrogates (such as `"\udc80"`) cannot be represented, because a Dafny `char` is a Unicode scalar value. Printing such a name under a UTF-8 stdout raises `UnicodeEncodeError`, which is not modelled either.
