/**
 * The stock page: a local copy of the stock list that the add, edit,
 * delete and quantity handlers keep up to date alongside the store, the
 * name search and the low-stock list.
 */
module StockPage {
  import opened Types
  import opened Collections
  import Text
  import Store

  /** The add/edit dialog's fields. */
  datatype StockForm = StockForm(name: string, quantity: Text.NumberField, criticalLevel: Text.NumberField)

  const EmptyForm: StockForm := StockForm("", Text.NumberField("", None), Text.NumberField("", None))

  /** The draft the dialog submits: an unparsable quantity is 0, a blank or zero critical level 5. */
  function FormDraft(f: StockForm): (d: StockDraft)
    ensures d.name == f.name
    ensures d.quantity == Text.OrDefault(f.quantity, 0) && d.criticalLevel == Text.OrDefault(f.criticalLevel, 5)
    ensures f.criticalLevel.text == "" && f.criticalLevel.parsed.None? ==> d.criticalLevel == 5
    ensures f.quantity.parsed.None? ==> d.quantity == 0
  {
    StockDraft(f.name, Text.OrDefault(f.quantity, 0), Text.OrDefault(f.criticalLevel, 5))
  }

  /** `Math.max(0, q + delta)`: the new quantity after pressing + or -, never negative. */
  function ClampQuantity(q: int, delta: int): (r: int)
    ensures r >= 0 && r >= q + delta
    ensures r == q + delta || r == 0
  {
    if q + delta < 0 then 0 else q + delta
  }

  /** Lowering an empty item keeps it at zero; a non-negative result is the plain sum. */
  lemma ClampQuantityCases(q: int, delta: int)
    ensures q == 0 && delta == -1 ==> ClampQuantity(q, delta) == 0
    ensures q + delta >= 0 ==> ClampQuantity(q, delta) == q + delta
  {
  }

  /** The first item with that id, as items.find does. */
  function FindById(items: seq<StockItem>, id: string): (r: Option<StockItem>)
    ensures r.None? <==> id !in ItemIds(items)
    ensures r.Some? ==> r.value == items[FirstIndex(ItemIds(items), id).value]
  {
    match FirstIndex(ItemIds(items), id)
    case None => None
    case Some(i) => Some(items[i])
  }

  /** Every item with `u`'s id replaced by `u`; the others keep their values and places. */
  function ReplaceById(items: seq<StockItem>, u: StockItem): (r: seq<StockItem>)
    ensures |r| == |items|
    ensures forall k :: 0 <= k < |items| && items[k].id != u.id ==> r[k] == items[k]
    ensures forall k :: 0 <= k < |items| && items[k].id == u.id ==> r[k] == u
    ensures ItemIds(r) == ItemIds(items)
  {
    seq(|items|, k requires 0 <= k < |items| => if items[k].id == u.id then u else items[k])
  }

  /** With unique ids, replacing by id replaces exactly the one item at its index. */
  lemma ReplaceByIdUnique(items: seq<StockItem>, i: nat, u: StockItem)
    requires Unique(ItemIds(items)) && i < |items| && items[i].id == u.id
    ensures ReplaceById(items, u) == items[i := u]
  {
    var r := ReplaceById(items, u);
    forall k | 0 <= k < |items| ensures r[k] == items[i := u][k] {
      if k != i {
        assert ItemIds(items)[k] != ItemIds(items)[i];
      }
    }
  }

  /** The items whose id is not `id`, in their order. */
  function RemoveById(items: seq<StockItem>, id: string): (r: seq<StockItem>)
    ensures |r| <= |items|
    ensures forall x :: x in r <==> x in items && x.id != id
  {
    if items == [] then []
    else (if items[0].id == id then [] else [items[0]]) + RemoveById(items[1..], id)
  }

  lemma {:induction false} RemoveByIdAppend(a: seq<StockItem>, b: seq<StockItem>, id: string)
    ensures RemoveById(a + b, id) == RemoveById(a, id) + RemoveById(b, id)
  {
    if a == [] {
      assert a + b == b;
    } else {
      assert (a + b)[0] == a[0];
      assert (a + b)[1..] == a[1..] + b;
      RemoveByIdAppend(a[1..], b, id);
    }
  }

  lemma {:induction false} RemoveByIdAbsent(items: seq<StockItem>, id: string)
    requires id !in ItemIds(items)
    ensures RemoveById(items, id) == items
  {
    if items != [] {
      assert ItemIds(items)[0] == items[0].id;
      assert ItemIds(items[1..]) == ItemIds(items)[1..];
      RemoveByIdAbsent(items[1..], id);
    }
  }

  /**
   * With unique ids, removing every item with an id (the page) and removing
   * the first one (the store) give the same list.
   */
  lemma RemoveByIdUnique(items: seq<StockItem>, id: string)
    requires Unique(ItemIds(items)) && id in ItemIds(items)
    ensures RemoveById(items, id) == RemoveAt(items, FirstIndex(ItemIds(items), id).value)
  {
    var i := FirstIndex(ItemIds(items), id).value;
    var a, c := items[..i], items[i + 1..];
    assert ItemIds(a) == ItemIds(items)[..i];
    IdAbsentAfter(items, i);
    assert items == a + [items[i]] + c;
    RemoveByIdSplit(a, items[i], c, id);
  }

  /** With unique ids, the id of the item at `i` does not occur after it. */
  lemma IdAbsentAfter(items: seq<StockItem>, i: nat)
    requires Unique(ItemIds(items)) && i < |items|
    ensures items[i].id !in ItemIds(items[i + 1..])
  {
    var c := items[i + 1..];
    forall k | 0 <= k < |c| ensures ItemIds(c)[k] != items[i].id {
      assert ItemIds(items)[i + 1 + k] != ItemIds(items)[i];
    }
  }

  lemma RemoveByIdSplit(a: seq<StockItem>, x: StockItem, c: seq<StockItem>, id: string)
    requires x.id == id && id !in ItemIds(a) && id !in ItemIds(c)
    ensures RemoveById(a + [x] + c, id) == a + c
  {
    assert RemoveById([x], id) == [] by {
      assert [x][1..] == [];
    }
    calc {
      RemoveById(a + [x] + c, id);
      { RemoveByIdAppend(a + [x], c, id); }
      RemoveById(a + [x], id) + RemoveById(c, id);
      { RemoveByIdAppend(a, [x], id); }
      RemoveById(a, id) + RemoveById(c, id);
      { RemoveByIdAbsent(a, id); RemoveByIdAbsent(c, id); }
      a + c;
    }
  }

  /** Removing one element keeps ids unique. */
  lemma RemoveAtKeepsUnique(items: seq<StockItem>, i: nat)
    requires Unique(ItemIds(items)) && i < |items|
    ensures Unique(ItemIds(RemoveAt(items, i)))
  {
    var r := RemoveAt(items, i);
    forall a, b | 0 <= a < b < |r| ensures ItemIds(r)[a] != ItemIds(r)[b] {
      var a' := if a < i then a else a + 1;
      var b' := if b < i then b else b + 1;
      assert ItemIds(items)[a'] != ItemIds(items)[b'];
    }
  }

  /** The name search: items whose lower-cased name contains the lower-cased query. */
  function SearchItems(items: seq<StockItem>, query: string, lower: Text.CaseFold): (r: seq<StockItem>)
    ensures |r| <= |items|
    ensures forall x :: x in r <==> x in items && Text.Includes(lower(x.name), lower(query))
  {
    if items == [] then []
    else (if Text.Includes(lower(items[0].name), lower(query)) then [items[0]] else [])
         + SearchItems(items[1..], query, lower)
  }

  /** The search keeps the list's order: a concatenation is searched part by part. */
  lemma {:induction false} SearchItemsAppend(a: seq<StockItem>, b: seq<StockItem>, query: string, lower: Text.CaseFold)
    ensures SearchItems(a + b, query, lower) == SearchItems(a, query, lower) + SearchItems(b, query, lower)
  {
    if a == [] {
      assert a + b == b;
    } else {
      assert (a + b)[0] == a[0];
      assert (a + b)[1..] == a[1..] + b;
      SearchItemsAppend(a[1..], b, query, lower);
    }
  }

  /** The page's low-stock list is the store's low-stock list. */
  function PageLowStock(items: seq<StockItem>): (r: seq<StockItem>)
    ensures r == Store.LowStock(items)
    ensures forall x :: x in r <==> x in items && x.quantity <= x.criticalLevel
  {
    Store.LowStock(items)
  }

  class StockPage {
    const store: Store.RecordStore
    var items: seq<StockItem>
    var form: StockForm
    /** The item the edit dialog is open for, if any. */
    var editItem: Option<StockItem>

    /** The page's list is the store's list and its ids are unique. */
    ghost predicate Valid()
      reads this, store
    {
      items == store.stock && Unique(ItemIds(items))
    }

    /** The page opens on the stored stock list with an empty form. */
    constructor (store: Store.RecordStore)
      ensures this.store == store && items == store.stock
      ensures form == EmptyForm && editItem.None?
    {
      this.store := store;
      items := store.stock;
      form := EmptyForm;
      editItem := None;
    }

    /**
     * Adds the dialog's item: refused (nothing changes) when the name or the
     * quantity text is empty; otherwise the store appends the new item, the
     * page appends the same item and the form is cleared.
     */
    method HandleAdd(now: Time)
      modifies this, store
      ensures old(form.name == "" || form.quantity.text == "") ==> unchanged(this) && unchanged(store)
      ensures old(form.name != "" && form.quantity.text != "") ==>
        var item := Store.NewItem(FormDraft(old(form)), Store.IdOf(old(store.idCounter)), now);
        && store.stock == old(store.stock) + [item]
        && items == old(items) + [item]
        && form == EmptyForm
        && store.records == old(store.records) && store.lastUpdated == now
        && store.authed == old(store.authed) && store.idCounter == old(store.idCounter) + 1
      ensures editItem == old(editItem)
      ensures old(Valid() && store.CounterFresh()) ==> Valid()
    {
      if form.name == "" || form.quantity.text == "" {
        return;
      }
      var item := store.AddStockItem(FormDraft(form), now);
      items := items + [item];
      form := EmptyForm;
    }

    /**
     * Saves the edit dialog: nothing happens without an open item or with an
     * empty name. Otherwise the store merges name, quantity and critical
     * level into the item; if it found the item, every local entry with that
     * id is replaced by the result. The dialog is closed either way.
     */
    method HandleEdit(now: Time)
      modifies this, store
      ensures old(editItem.None? || form.name == "") ==> unchanged(this) && unchanged(store)
      ensures old(editItem.Some? && form.name != "") ==>
        && editItem.None? && form == EmptyForm
        && match FirstIndex(ItemIds(old(store.stock)), old(editItem).value.id)
           case None => unchanged(store) && items == old(items)
           case Some(i) =>
             var d := FormDraft(old(form));
             var m := Store.MergeItem(old(store.stock)[i],
                        StockPatch(None, Some(d.name), Some(d.quantity), Some(d.criticalLevel), None, None), now);
             && store.stock == old(store.stock)[i := m] && items == ReplaceById(old(items), m)
             && store.records == old(store.records) && store.lastUpdated == now
             && store.authed == old(store.authed) && store.idCounter == old(store.idCounter)
      ensures old(Valid()) ==> Valid()
    {
      if editItem.None? || form.name == "" {
        return;
      }
      var d := FormDraft(form);
      var updated := store.UpdateStockItem(editItem.value.id,
                       StockPatch(None, Some(d.name), Some(d.quantity), Some(d.criticalLevel), None, None), now);
      if updated.Some? {
        ghost var i := FirstIndex(ItemIds(old(store.stock)), old(editItem).value.id).value;
        if old(Valid()) {
          ReplaceByIdUnique(items, i, updated.value);
        }
        items := ReplaceById(items, updated.value);
      }
      editItem := None;
      form := EmptyForm;
    }

    /** Deletes in the store (first item with the id) and drops every local item with that id. */
    method HandleDelete(id: string, now: Time)
      modifies this, store
      ensures items == RemoveById(old(items), id)
      ensures id in ItemIds(old(store.stock)) ==>
        && store.stock == RemoveAt(old(store.stock), FirstIndex(ItemIds(old(store.stock)), id).value)
        && store.records == old(store.records) && store.lastUpdated == now
        && store.authed == old(store.authed) && store.idCounter == old(store.idCounter)
      ensures id !in ItemIds(old(store.stock)) ==> unchanged(store)
      ensures form == old(form) && editItem == old(editItem)
      ensures old(Valid()) ==> Valid()
    {
      var found := store.DeleteStockItem(id, now);
      if old(Valid()) {
        if found {
          RemoveByIdUnique(items, id);
          RemoveAtKeepsUnique(items, FirstIndex(ItemIds(items), id).value);
        } else {
          RemoveByIdAbsent(items, id);
        }
      }
      items := RemoveById(items, id);
    }

    /**
     * Presses + or - on an item: nothing happens when the id is not in the
     * local list. Otherwise the store sets the quantity to the clamped
     * value of the local item, and the local list takes the stored result.
     */
    method HandleQuantityChange(id: string, delta: int, now: Time)
      modifies this, store
      ensures id !in ItemIds(old(items)) ==> unchanged(this) && unchanged(store)
      ensures id in ItemIds(old(items)) ==>
        var q := ClampQuantity(FindById(old(items), id).value.quantity, delta);
        match FirstIndex(ItemIds(old(store.stock)), id)
        case None => unchanged(store) && items == old(items)
        case Some(i) =>
          var m := Store.MergeItem(old(store.stock)[i], EmptyStockPatch.(quantity := Some(q)), now);
          && store.stock == old(store.stock)[i := m]
          && store.records == old(store.records) && store.lastUpdated == now
          && store.authed == old(store.authed) && store.idCounter == old(store.idCounter)
          && items == ReplaceById(old(items), m)
          && m.quantity >= 0
      ensures form == old(form) && editItem == old(editItem)
      ensures old(Valid()) ==> Valid()
    {
      var item := FindById(items, id);
      if item.None? {
        return;
      }
      var newQuantity := ClampQuantity(item.value.quantity, delta);
      var updated := store.UpdateStockItem(id, EmptyStockPatch.(quantity := Some(newQuantity)), now);
      if updated.Some? {
        ghost var i := FirstIndex(ItemIds(old(store.stock)), id).value;
        if old(Valid()) {
          ReplaceByIdUnique(items, i, updated.value);
        }
        items := ReplaceById(items, updated.value);
      }
    }
  }
}
