/**
 * The console front end's stock list (inventory.py): a list of entries of
 * name, quantity and price that the menu's add, edit and delete commands
 * change in place. The prompts become parameters; a blank answer to an
 * optional prompt is `""` for the name and `None` for the numbers.
 */
module ConsoleInventory {
  import opened Common

  /** One entry of the list, as the dictionary `{'name', 'quantity', 'price'}`. */
  datatype StockEntry = StockEntry(name: string, quantity: int, price: real)

  /**
   * An entry after the edit prompts: a blank answer keeps the current value,
   * any other answer replaces it.
   */
  function EditEntry(e: StockEntry, name: string, quantity: Option<int>, price: Option<real>): (r: StockEntry)
    ensures name == "" ==> r.name == e.name
    ensures name != "" ==> r.name == name
    ensures quantity.None? ==> r.quantity == e.quantity
    ensures quantity.Some? ==> r.quantity == quantity.value
    ensures price.None? ==> r.price == e.price
    ensures price.Some? ==> r.price == price.value
  {
    StockEntry(if name == "" then e.name else name, quantity.GetOr(e.quantity), price.GetOr(e.price))
  }

  /** The list without its element at `idx`: everything before it, then everything after it. */
  function RemoveAt(s: seq<StockEntry>, idx: nat): (r: seq<StockEntry>)
    requires idx < |s|
    ensures |r| == |s| - 1
    ensures forall j :: 0 <= j < idx ==> r[j] == s[j]
    ensures forall j :: idx <= j < |r| ==> r[j] == s[j + 1]
    ensures multiset(r) + multiset{s[idx]} == multiset(s)
  {
    assert s == s[..idx] + [s[idx]] + s[idx + 1..];
    s[..idx] + s[idx + 1..]
  }

  /** Removing the entry just appended gives back the list as it was. */
  lemma RemoveAppended(s: seq<StockEntry>, e: StockEntry)
    ensures RemoveAt(s + [e], |s|) == s
  {
  }

  /** An edit whose every answer is blank leaves the entry as it was. */
  lemma BlankEditKeepsEntry(e: StockEntry)
    ensures EditEntry(e, "", None, None) == e
  {
  }

  /** Giving the same answers to the edit prompts twice has the effect of giving them once. */
  lemma EditEntryIdempotent(e: StockEntry, name: string, quantity: Option<int>, price: Option<real>)
    ensures var once := EditEntry(e, name, quantity, price);
      EditEntry(once, name, quantity, price) == once
  {
  }

  /** The list the console menu works on, shared by every command. */
  class ConsoleStock {
    var items: seq<StockEntry>

    /** The list as `load_inventory` returns it. */
    constructor (items: seq<StockEntry>)
      ensures this.items == items
    {
      this.items := items;
    }

    /** `add_item` (inventory.py:40-47): the new entry goes at the end. */
    method AddItem(name: string, quantity: int, price: real)
      modifies this`items
      ensures items == old(items) + [StockEntry(name, quantity, price)]
      ensures |items| == |old(items)| + 1
      ensures items[..|old(items)|] == old(items)
    {
      items := items + [StockEntry(name, quantity, price)];
    }

    /**
     * `edit_item` (inventory.py:49-65) for the item numbered `number` (from 1).
     * An out-of-range number changes nothing; otherwise only that entry
     * changes, by the edit prompts' answers.
     */
    method EditItem(number: int, name: string, quantity: Option<int>, price: Option<real>) returns (edited: bool)
      modifies this`items
      ensures edited <==> 1 <= number <= |old(items)|
      ensures !edited ==> items == old(items)
      ensures edited ==> items == old(items)[number - 1 := EditEntry(old(items)[number - 1], name, quantity, price)]
      ensures |items| == |old(items)|
      ensures forall j :: 0 <= j < |items| && j != number - 1 ==> items[j] == old(items)[j]
    {
      var idx := number - 1;
      if 0 <= idx < |items| {
        var entry := items[idx];
        var newName := if name == "" then entry.name else name;
        entry := entry.(name := newName);
        if quantity.Some? {
          entry := entry.(quantity := quantity.value);
        }
        if price.Some? {
          entry := entry.(price := price.value);
        }
        items := items[idx := entry];
        edited := true;
      } else {
        edited := false;
      }
    }

    /**
     * `delete_item` (inventory.py:67-75) for the item numbered `number` (from
     * 1): the entry popped, or `None` for an out-of-range number, which
     * changes nothing.
     */
    method DeleteItem(number: int) returns (removed: Option<StockEntry>)
      modifies this`items
      ensures removed.Some? <==> 1 <= number <= |old(items)|
      ensures removed.None? ==> items == old(items)
      ensures removed.Some? ==> removed.value == old(items)[number - 1] && items == RemoveAt(old(items), number - 1)
    {
      var idx := number - 1;
      if 0 <= idx < |items| {
        removed := Some(items[idx]);
        items := items[..idx] + items[idx + 1..];
      } else {
        removed := None;
      }
    }
  }
}
