/** The Item `on_update` hook that keeps a Website Item's `is_kitchen_item`
    and `supplier` in step with its Item (`crud_events/item/sync_kitchen_item.py`).
    `is_kitchen_item` is stored on the Website Item as the text "Evet" / "Hayır"
    so that the storefront's Check facet can find it; the supplier is the
    Item's first supplier row. Database reads are parameters and the write is
    the returned outcome. */
module KitchenItemSync {
  import opened Basics
  import Facets

  /** The Item being saved, with what `has_value_changed` reports. */
  datatype ItemDoc = ItemDoc(
    doctype: string,
    itemCode: string,
    isKitchenItem: bool,
    kitchenItemChanged: bool,
    supplierItemsChanged: bool,
    supplierRows: seq<string>)   // the `supplier` of each `supplier_items` row, in order

  /** The fields to set on the Website Item; a supplier of `None` is NULL. */
  type Updates = seq<(string, Option<string>)>

  /** What happened to the Website Item. A failed write is logged and does not
      reach the caller. */
  datatype SyncOutcome =
    | NoWrite
    | Written(webItem: string, updates: Updates)
    | WriteFailed(webItem: string, updates: Updates)

  /** The stored form of the kitchen flag. */
  function KitchenText(isKitchenItem: bool): string
  {
    if isKitchenItem then Facets.Yes else Facets.No
  }

  /** The first supplier row's supplier, if there is a row. */
  function FirstSupplier(rows: seq<string>): Option<string>
  {
    if rows != [] then Some(rows[0]) else None
  }

  /** The `updates` dict, given the Website Item's current supplier. */
  function SyncUpdates(doc: ItemDoc, currentSupplier: Option<string>): Updates
  {
    var kitchen: Updates := if doc.kitchenItemChanged then [("is_kitchen_item", Some(KitchenText(doc.isKitchenItem)))] else [];
    if (doc.supplierItemsChanged || Lookup(kitchen, "is_kitchen_item").Some?)
       && currentSupplier != FirstSupplier(doc.supplierRows)
    then Put(kitchen, "supplier", FirstSupplier(doc.supplierRows))
    else kitchen
  }

  /** `execute`. `webItem` is the Website Item of the Item's code, if any,
      `currentSupplier` its stored supplier, and `writeSucceeds` whether the
      database accepts the write. */
  method Execute(doc: ItemDoc, webItem: Option<string>, currentSupplier: Option<string>, writeSucceeds: bool)
    returns (outcome: SyncOutcome)
    ensures doc.doctype != "Item" || webItem.None? ==> outcome == NoWrite
    ensures doc.doctype == "Item" && webItem.Some? ==>
      var updates := SyncUpdates(doc, currentSupplier);
      outcome == if updates == [] then NoWrite
                 else if writeSucceeds then Written(webItem.value, updates)
                 else WriteFailed(webItem.value, updates)
  {
    if doc.doctype != "Item" {
      return NoWrite;
    }
    if webItem.None? {
      return NoWrite;
    }
    var webItemName := webItem.value;

    var updates: Updates := [];
    if doc.kitchenItemChanged {
      updates := Put(updates, "is_kitchen_item", Some(KitchenText(doc.isKitchenItem)));
    }

    if doc.supplierItemsChanged || Lookup(updates, "is_kitchen_item").Some? {
      var supplier: Option<string> := None;
      if doc.supplierRows != [] && |doc.supplierRows| > 0 {
        supplier := Some(doc.supplierRows[0]);
      }
      if currentSupplier != supplier {
        updates := Put(updates, "supplier", supplier);
      }
    }

    if updates != [] {
      if writeSucceeds {
        return Written(webItemName, updates);
      }
      return WriteFailed(webItemName, updates);
    }
    return NoWrite;
  }

  /** The kitchen flag is written exactly when it changed, as "Evet" for a
      kitchen item and "Hayır" otherwise. */
  lemma KitchenFlagWritten(doc: ItemDoc, currentSupplier: Option<string>)
    ensures Lookup(SyncUpdates(doc, currentSupplier), "is_kitchen_item")
      == if doc.kitchenItemChanged then Some(Some(if doc.isKitchenItem then Facets.Yes else Facets.No)) else None
  {
  }

  /** The supplier is written exactly when the supplier rows or the kitchen
      flag changed and the first row's supplier (or NULL without rows)
      differs from the stored one; it is then that supplier. */
  lemma SupplierWritten(doc: ItemDoc, currentSupplier: Option<string>)
    ensures var written := Lookup(SyncUpdates(doc, currentSupplier), "supplier");
      && (written.Some? <==>
            (doc.supplierItemsChanged || doc.kitchenItemChanged)
            && currentSupplier != FirstSupplier(doc.supplierRows))
      && (written.Some? ==> written.value == FirstSupplier(doc.supplierRows))
      && (written.Some? && doc.supplierRows == [] ==> written.value.None?)
  {
  }

  /** Nothing is written when neither the kitchen flag nor the supplier rows
      changed. */
  lemma UnchangedItemWritesNothing(doc: ItemDoc, currentSupplier: Option<string>)
    requires !doc.kitchenItemChanged && !doc.supplierItemsChanged
    ensures SyncUpdates(doc, currentSupplier) == []
  {
  }

  /** The updates applied to a Website Item's stored fields. */
  function ApplyUpdates(item: Facets.WebItem, updates: Updates): Facets.WebItem
  {
    if updates == [] then item
    else
      var (field, value) := updates[|updates| - 1];
      var before := ApplyUpdates(item, updates[..|updates| - 1]);
      before.(fields := if value.Some? then before.fields[field := value.value] else before.fields - {field})
  }

  lemma {:induction false} ApplyUpdatesField(item: Facets.WebItem, updates: Updates, field: string, value: string)
    requires KeysDistinct(updates) && Lookup(updates, field) == Some(Some(value))
    ensures field in ApplyUpdates(item, updates).fields && ApplyUpdates(item, updates).fields[field] == value
    ensures ApplyUpdates(item, updates).published == item.published
  {
    var n := |updates|;
    var front := updates[..n - 1];
    LookupAbsent(updates, field);
    if updates[n - 1].0 != field {
      assert KeysDistinct(front);
      assert Lookup(front, field) == Some(Some(value)) by {
        LookupPrefix(updates, field);
      }
      ApplyUpdatesField(item, front, field, value);
    } else {
      assert Lookup(updates, field) == Some(updates[n - 1].1) by {
        LookupLast(updates);
      }
      ApplyUpdatesPublished(item, front);
    }
  }

  lemma {:induction false} ApplyUpdatesPublished(item: Facets.WebItem, updates: Updates)
    ensures ApplyUpdates(item, updates).published == item.published
  {
    if updates != [] {
      ApplyUpdatesPublished(item, updates[..|updates| - 1]);
    }
  }

  /** A published Website Item whose Item became a kitchen item carries "Evet"
      after the write, so the storefront's Check facet on `is_kitchen_item`
      appears. */
  lemma KitchenItemShowsCheckFacet(doc: ItemDoc, currentSupplier: Option<string>,
                                   items: seq<Facets.WebItem>, k: int)
    requires doc.kitchenItemChanged && doc.isKitchenItem
    requires 0 <= k < |items| && items[k].published
    ensures Facets.HasYes(items[k := ApplyUpdates(items[k], SyncUpdates(doc, currentSupplier))], "is_kitchen_item")
  {
    var updates := SyncUpdates(doc, currentSupplier);
    KitchenFlagWritten(doc, currentSupplier);
    var synced := ApplyUpdates(items[k], updates);
    ApplyUpdatesField(items[k], updates, "is_kitchen_item", Facets.Yes);
    var after := items[k := synced];
    assert after[k] in after;
  }
}
