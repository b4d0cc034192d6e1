/**
 * The column-picker menu: one checkbox per column, all ticked at first; each
 * toggle sets one flag, and the ticked columns are reported in order.
 */
module ColumnPicker {
  import opened Wrappers
  import opened Records

  datatype MenuItem = MenuItem(value: string, caption: string)

  predicate IsItem(items: seq<MenuItem>, k: string) {
    exists i :: 0 <= i < |items| && items[i].value == k
  }

  function Values(items: seq<MenuItem>): (vs: seq<string>)
    ensures |vs| == |items| && forall i :: 0 <= i < |items| ==> vs[i] == items[i].value
  {
    if items == [] then [] else Values(items[..|items| - 1]) + [items[|items| - 1].value]
  }

  /** `items.reduce((acc, item) => ({ ...acc, [item.value]: true }), {})`. */
  function AllChecked(items: seq<MenuItem>): Record<bool> {
    if items == [] then []
    else Assign(AllChecked(items[..|items| - 1]), items[|items| - 1].value, true)
  }

  /** At first every item is ticked, and nothing else has a flag. */
  lemma {:induction false} AllCheckedFind(items: seq<MenuItem>, k: string)
    ensures Find(AllChecked(items), k) == if IsItem(items, k) then Some(true) else None
  {
    if items != [] {
      var init, last := items[..|items| - 1], items[|items| - 1];
      AllCheckedFind(init, k);
      AssignFind(AllChecked(init), last.value, true, k);
      assert IsItem(items, k) <==> IsItem(init, k) || last.value == k by {
        if IsItem(items, k) && last.value != k {
          var i :| 0 <= i < |items| && items[i].value == k;
          assert init[i] == items[i];
        }
        if IsItem(init, k) {
          var i :| 0 <= i < |init| && init[i].value == k;
          assert items[i] == init[i];
        }
      }
    }
  }

  /** `Object.entries(flags).filter(([, c]) => c).map(([k]) => k)`. */
  function CheckedKeys(flags: Record<bool>): (ks: seq<string>)
    ensures forall k :: k in ks ==> HasKey(flags, k)
  {
    if flags == [] then []
    else
      var rest := CheckedKeys(flags[1..]);
      assert forall k :: k in rest ==> HasKey(flags, k) by {
        forall k | k in rest ensures HasKey(flags, k) {
          var i :| 0 <= i < |flags[1..]| && flags[1..][i].key == k;
          assert flags[i + 1].key == k;
        }
      }
      (if flags[0].value then [flags[0].key] else []) + rest
  }

  /** A key is reported exactly when its flag is true. */
  lemma {:induction false} CheckedKeysFind(flags: Record<bool>, k: string)
    requires DistinctKeys(flags)
    ensures k in CheckedKeys(flags) <==> Find(flags, k) == Some(true)
  {
    if flags != [] {
      var rest := flags[1..];
      assert DistinctKeys(rest) by {
        forall i, j | 0 <= i < j < |rest| ensures rest[i].key != rest[j].key {
          assert rest[i] == flags[i + 1] && rest[j] == flags[j + 1];
        }
      }
      CheckedKeysFind(rest, k);
      if flags[0].key == k {
        forall i | 0 <= i < |rest| ensures rest[i].key != k {
          assert rest[i] == flags[i + 1];
        }
      }
    }
  }

  /** Reporting works entry by entry, so the reported keys keep the insertion order. */
  lemma {:induction false} CheckedKeysAppend(a: Record<bool>, b: Record<bool>)
    ensures CheckedKeys(a + b) == CheckedKeys(a) + CheckedKeys(b)
  {
    if a == [] {
      assert a + b == b;
    } else {
      assert (a + b)[1..] == a[1..] + b;
      CheckedKeysAppend(a[1..], b);
    }
  }

  /** With distinct item values, the first report is every item value, in item order. */
  lemma {:induction false} InitialReport(items: seq<MenuItem>)
    requires forall i, j :: 0 <= i < j < |items| ==> items[i].value != items[j].value
    ensures CheckedKeys(AllChecked(items)) == Values(items)
  {
    if items != [] {
      var init, last := items[..|items| - 1], items[|items| - 1];
      InitialReport(init);
      AllCheckedFind(init, last.value);
      assert !IsItem(init, last.value) by {
        forall i | 0 <= i < |init| ensures init[i].value != last.value {
          assert init[i] == items[i];
        }
      }
      AssignAppend(AllChecked(init), last.value, true);
      CheckedKeysAppend(AllChecked(init), [Entry(last.value, true)]);
    }
  }

  /** The menu's state: the items and their `checkedItems` flags. */
  class CheckboxMenu {
    const items: seq<MenuItem>
    var checkedItems: Record<bool>

    /** Flags exist only for items, once each. */
    ghost predicate Valid()
      reads this
    {
      DistinctKeys(checkedItems) && forall k :: Find(checkedItems, k).Some? ==> IsItem(items, k)
    }

    constructor (items: seq<MenuItem>)
      ensures this.items == items
      ensures checkedItems == AllChecked(items)
      ensures Valid()
    {
      this.items := items;
      var flags: Record<bool> := [];
      var i := 0;
      while i < |items|
        invariant 0 <= i <= |items|
        invariant flags == AllChecked(items[..i])
      {
        assert items[..i + 1][..i] == items[..i];
        flags := Assign(flags, items[i].value, true);
        i := i + 1;
      }
      assert items[..i] == items;
      checkedItems := flags;
      new;
      AllCheckedValid(items);
    }

    /** Ticking or unticking one item's checkbox. */
    method Toggle(value: string, checked: bool)
      requires Valid() && IsItem(items, value)
      modifies this`checkedItems
      ensures Valid()
      ensures checkedItems == Assign(old(checkedItems), value, checked)
      ensures Find(checkedItems, value) == Some(checked)
      ensures forall k :: k != value ==> Find(checkedItems, k) == Find(old(checkedItems), k)
    {
      forall k ensures Find(Assign(checkedItems, value, checked), k) == if k == value then Some(checked) else Find(checkedItems, k) {
        AssignFind(checkedItems, value, checked, k);
      }
      AssignDistinct(checkedItems, value, checked);
      checkedItems := Assign(checkedItems, value, checked);
    }

    /** The list passed to `onCheckedChange`: the ticked item values, in insertion order. */
    function CheckedList(): (ks: seq<string>)
      reads this
      requires Valid()
      ensures forall k :: k in ks ==> IsItem(items, k)
      ensures forall k :: k in ks <==> Find(checkedItems, k) == Some(true)
    {
      forall k ensures k in CheckedKeys(checkedItems) <==> Find(checkedItems, k) == Some(true) {
        CheckedKeysFind(checkedItems, k);
      }
      CheckedKeys(checkedItems)
    }
  }

  lemma AllCheckedValid(items: seq<MenuItem>)
    ensures DistinctKeys(AllChecked(items))
    ensures forall k :: Find(AllChecked(items), k).Some? ==> IsItem(items, k)
  {
    AllCheckedDistinct(items);
    forall k ensures Find(AllChecked(items), k).Some? ==> IsItem(items, k) {
      AllCheckedFind(items, k);
    }
  }

  lemma {:induction false} AllCheckedDistinct(items: seq<MenuItem>)
    ensures DistinctKeys(AllChecked(items))
  {
    if items != [] {
      var init := items[..|items| - 1];
      AllCheckedDistinct(init);
      AssignDistinct(AllChecked(init), items[|items| - 1].value, true);
    }
  }
}
