/**
 * One table row: a cell per column key that is in the view, in column
 * order, each a skeleton while loading or else the custom renderer, the
 * copy widget or the plain text; a chevron cell closes a loaded row.
 */
module TableRow {
  import opened DataTable

  datatype Cell =
    | Skeleton               // placeholder while loading
    | Custom(key: string)    // `columnRenderers[key](item)`
    | CopyWidget(text: string)
    | Plain(text: string)
    | Chevron                // the trailing "open" affordance

  /** The column keys in the view, in column order; view keys that are not columns are ignored. */
  function VisibleKeys(columnKeys: seq<string>, view: seq<string>): (ks: seq<string>)
    ensures |ks| <= |columnKeys|
    ensures forall k :: k in ks <==> k in columnKeys && k in view
  {
    if columnKeys == [] then []
    else (if columnKeys[0] in view then [columnKeys[0]] else []) + VisibleKeys(columnKeys[1..], view)
  }

  /** Selection works column by column, so the visible keys keep the columns' order. */
  lemma {:induction false} VisibleKeysAppend(a: seq<string>, b: seq<string>, view: seq<string>)
    ensures VisibleKeys(a + b, view) == VisibleKeys(a, view) + VisibleKeys(b, view)
  {
    if a == [] {
      assert a + b == b;
    } else {
      assert (a + b)[1..] == a[1..] + b;
      VisibleKeysAppend(a[1..], b, view);
    }
  }

  /** With every column in view, every column gets a cell, in order. */
  lemma {:induction false} VisibleKeysAll(columnKeys: seq<string>, view: seq<string>)
    requires forall i :: 0 <= i < |columnKeys| ==> columnKeys[i] in view
    ensures VisibleKeys(columnKeys, view) == columnKeys
  {
    if columnKeys != [] {
      VisibleKeysAll(columnKeys[1..], view);
    }
  }

  /** `String(item[key])`: a missing field prints as "undefined". */
  function Text(item: Item, key: string): string {
    if key in item then item[key] else "undefined"
  }

  /** A cell's content: skeleton while loading, else renderer, then copy widget, then plain text. */
  function CellFor(key: string, loading: bool, item: Item, renderers: set<string>, copyKeys: seq<string>): (c: Cell)
    ensures c.Skeleton? <==> loading
    ensures !c.Chevron?
    ensures !loading && key in renderers ==> c == Custom(key)
    ensures !loading && key !in renderers && key in copyKeys ==> c == CopyWidget(Text(item, key))
    ensures !loading && key !in renderers && key !in copyKeys ==> c == Plain(Text(item, key))
  {
    if loading then Skeleton
    else if key in renderers then Custom(key)
    else if key in copyKeys then CopyWidget(Text(item, key))
    else Plain(Text(item, key))
  }

  function DataCells(keys: seq<string>, loading: bool, item: Item, renderers: set<string>, copyKeys: seq<string>): (cells: seq<Cell>)
    ensures |cells| == |keys|
    ensures forall i :: 0 <= i < |keys| ==> cells[i] == CellFor(keys[i], loading, item, renderers, copyKeys)
  {
    if keys == [] then [] else [CellFor(keys[0], loading, item, renderers, copyKeys)] + DataCells(keys[1..], loading, item, renderers, copyKeys)
  }

  /** The cells of one row. */
  function RowCells(columnKeys: seq<string>, view: seq<string>, loading: bool, item: Item,
                    renderers: set<string>, copyKeys: seq<string>): (cells: seq<Cell>)
    ensures |cells| == |VisibleKeys(columnKeys, view)| + (if loading then 0 else 1)
    ensures forall i :: 0 <= i < |VisibleKeys(columnKeys, view)| ==>
              cells[i] == CellFor(VisibleKeys(columnKeys, view)[i], loading, item, renderers, copyKeys)
    ensures loading ==> forall i :: 0 <= i < |cells| ==> cells[i] == Skeleton
    ensures !loading ==> cells[|cells| - 1] == Chevron && forall i :: 0 <= i < |cells| - 1 ==> !cells[i].Chevron?
  {
    DataCells(VisibleKeys(columnKeys, view), loading, item, renderers, copyKeys) + (if loading then [] else [Chevron])
  }
}
