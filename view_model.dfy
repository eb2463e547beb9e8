/** `ScannedItemViewModel`: an ordered in-memory cache of scanned items that
    mirrors a persistence context, with add, list, index lookup, remove,
    update and save.

    The persistence engine is abstracted to three fields: the objects the
    context holds and has not deleted (`rows`, what a fetch returns), the
    records durably committed by the last successful save (`saved`), and the
    context's pending-changes flag (`hasChanges`). The outcome of every
    commit and fetch is a parameter; so are the clock (`now`) and the date
    formatter (`format`). */
module ViewModel {
  import opened Wrappers
  import opened Entities
  import opened Collections

  /** The pattern the remind date is formatted with to identify an item. */
  const DateFormat: string := "yyyy-MM-dd"

  /** The message of the error reported for an empty selection. */
  const RemoveError: string := "ERROR removing item!"

  /** The failures `addScannedItems` collects: one (error, item name) pair for
      each input whose save failed, in input order. */
  function Failures(items: seq<UserItem>, outcomes: seq<Option<Error>>): (r: seq<(Error, string)>)
    requires |items| == |outcomes|
    ensures |r| <= |items|
    ensures r == [] <==> forall i :: 0 <= i < |outcomes| ==> outcomes[i].None?
    ensures forall k :: 0 <= k < |r| ==>
              exists i :: 0 <= i < |items| && outcomes[i] == Some(r[k].0) && items[i].name == r[k].1
  {
    if items == [] then []
    else
      var n := |items| - 1;
      Failures(items[..n], outcomes[..n])
      + (if outcomes[n].Some? then [(outcomes[n].value, items[n].name)] else [])
  }

  /** Failures of a later batch come after those of an earlier batch: the
      collected list keeps input order. */
  lemma {:induction false} FailuresAppend(a: seq<UserItem>, b: seq<UserItem>, oa: seq<Option<Error>>, ob: seq<Option<Error>>)
    requires |a| == |oa| && |b| == |ob|
    ensures Failures(a + b, oa + ob) == Failures(a, oa) + Failures(b, ob)
  {
    if b != [] {
      var n := |b| - 1;
      FailuresAppend(a, b[..n], oa, ob[..n]);
      assert (a + b)[..|a| + n] == a + b[..n];
      assert (oa + ob)[..|a| + n] == oa + ob[..n];
    } else {
      assert a + b == a && oa + ob == oa;
    }
  }

  /** The two date guards of `updateScannedItem`, as written: the purchase
      date may be neither after now or the new remind date, nor before now
      or the old remind date. Together they admit only a purchase today. */
  function Admissible(purchaseDate: Date, remindDate: Date, oldRemindDate: Date, now: Date): (r: bool)
    ensures r <==> purchaseDate == now && purchaseDate <= remindDate && oldRemindDate <= purchaseDate
  {
    !(purchaseDate > now || purchaseDate > remindDate)
    && !(purchaseDate < now || purchaseDate < oldRemindDate)
  }

  /** `first(where: { $0.name == name })`: the position of the first item with that name. */
  function IndexOfName(items: seq<ScannedItem>, name: string): (r: Option<nat>)
    reads items
    ensures r.Some? ==> r.value < |items| && items[r.value].name == name
    ensures r.Some? ==> forall j :: 0 <= j < r.value ==> items[j].name != name
    ensures r.None? ==> forall j :: 0 <= j < |items| ==> items[j].name != name
  {
    if items == [] then None
    else if items[0].name == name then Some(0)
    else
      match IndexOfName(items[1..], name)
      case None => None
      case Some(k) => Some(k + 1)
  }

  class ScannedItemViewModel {
    /** The cache the UI shows, in insertion or fetch order. */
    var scannedItems: seq<ScannedItem>
    /** The objects the context holds and has not deleted, in insertion order. */
    var rows: seq<ScannedItem>
    /** The records committed by the last successful save. */
    var saved: seq<Record>
    /** Whether the context holds inserts, deletions or edits not yet committed. */
    var hasChanges: bool

    ghost predicate Valid()
      reads this, rows
    {
      Distinct(scannedItems) && Distinct(rows)
      && (!hasChanges ==> saved == Snapshot(rows))
    }

    /** The cache and the context hold the same objects in the same order. */
    ghost predicate InStep()
      reads this
    {
      scannedItems == rows
    }

    /** The attribute values of the cached items, in cache order. */
    function Contents(): seq<Record>
      reads this, scannedItems
    {
      Snapshot(scannedItems)
    }

    /** `oldItem?.dateToRemind ?? Date.now`, where `oldItem` is the first
        cached item named `oldName`. */
    function RemindDateOf(oldName: string, now: Date): (d: Date)
      reads this, scannedItems
      ensures (forall j :: 0 <= j < |scannedItems| ==> scannedItems[j].name != oldName) ==> d == now
      ensures forall k :: 0 <= k < |scannedItems| && scannedItems[k].name == oldName
                          && (forall j :: 0 <= j < k ==> scannedItems[j].name != oldName) ==>
                          d == (if scannedItems[k].dateToRemind.Some? then scannedItems[k].dateToRemind.value else now)
    {
      match IndexOfName(scannedItems, oldName)
      case None => now
      case Some(k) => scannedItems[k].dateToRemind.GetOr(now)
    }

    /** Opening the container, whose store holds `persisted`, then the initial
        fetch; a failed fetch leaves the cache empty. */
    constructor (persisted: seq<Record>, fetchError: Option<Error>)
      ensures Valid() && !hasChanges
      ensures saved == persisted && Snapshot(rows) == persisted
      ensures fetchError.None? ==> InStep()
      ensures fetchError.Some? ==> scannedItems == []
    {
      var objects: seq<ScannedItem> := [];
      for i := 0 to |persisted|
        invariant |objects| == i && Distinct(objects)
        invariant forall j :: 0 <= j < i ==> objects[j].AsRecord() == persisted[j]
      {
        var item := new ScannedItem(persisted[i]);
        objects := objects + [item];
      }
      scannedItems := [];
      rows := objects;
      saved := persisted;
      hasChanges := false;
      new;
      var failure := GetScannedItems(fetchError);
    }

    /** `getScannedItems`: on success the cache becomes what the context holds;
        on failure the cache is left as it was and the handler gets the error. */
    method GetScannedItems(fetchError: Option<Error>) returns (failure: Option<Error>)
      requires Valid()
      modifies this`scannedItems
      ensures Valid()
      ensures failure == fetchError
      ensures fetchError.None? ==> scannedItems == rows
      ensures fetchError.Some? ==> scannedItems == old(scannedItems)
    {
      if fetchError.Some? {
        failure := fetchError;
      } else {
        scannedItems := rows;
        failure := None;
      }
    }

    /** `getNumberScannedItems`. */
    method GetNumberScannedItems() returns (n: nat)
      ensures n == |scannedItems|
    {
      n := |scannedItems|;
    }

    /** `getItemAtOffset`: nil for an empty selection, otherwise the item at the
        selection's smallest index (which must be in range). */
    method GetItemAtOffset(offsets: set<nat>) returns (item: Option<ScannedItem>)
      requires First(offsets).Some? ==> First(offsets).value < |scannedItems|
      ensures item.None? <==> offsets == {}
      ensures item.Some? ==> item.value == scannedItems[First(offsets).value]
    {
      var first := First(offsets);
      if first.None? {
        return None;
      }
      item := Some(scannedItems[first.value]);
    }

    /** `ScannedItem(context:)`: a new object, registered with the context. */
    method Insert(r: Record) returns (item: ScannedItem)
      requires Valid()
      modifies this`rows, this`hasChanges
      ensures Valid() && fresh(item) && item.AsRecord() == r
      ensures rows == old(rows) + [item] && hasChanges
    {
      item := new ScannedItem(r);
      rows := rows + [item];
      hasChanges := true;
    }

    /** `viewContext.delete`: the object leaves the context; the cache is untouched. */
    method Delete(item: ScannedItem)
      requires Valid()
      modifies this`rows, this`hasChanges
      ensures Valid()
      ensures rows == Without(old(rows), {item}) && hasChanges
    {
      WithoutKeepsDistinct(rows, {item});
      rows := Without(rows, {item});
      hasChanges := true;
    }

    /** `saveScannedItems`: commits only when the context has changes; the
        handler is called only when that commit fails. A failed commit keeps
        the changes pending. */
    method SaveScannedItems(commitError: Option<Error>) returns (failure: Option<Error>)
      requires Valid()
      modifies this`saved, this`hasChanges
      ensures Valid()
      ensures failure == if old(hasChanges) then commitError else None
      ensures failure.None? ==> !hasChanges && saved == Snapshot(rows)
      ensures failure.Some? ==> hasChanges && saved == old(saved)
      ensures !old(hasChanges) ==> saved == old(saved)
    {
      failure := None;
      if hasChanges {
        if commitError.Some? {
          failure := commitError;
        } else {
          saved := Snapshot(rows);
          hasChanges := false;
        }
      }
    }

    /** `addScannedItem`: the new item is appended to the cache before the
        save and stays there whether or not the save succeeds. */
    method AddScannedItem(userItem: UserItem, commitError: Option<Error>) returns (failure: Option<Error>)
      requires Valid()
      modifies this
      ensures Valid()
      ensures |scannedItems| == |old(scannedItems)| + 1
      ensures scannedItems[..|old(scannedItems)|] == old(scannedItems)
      ensures fresh(scannedItems[|old(scannedItems)|])
      ensures Contents() == old(Contents()) + [FromUserItem(userItem)]
      ensures rows == old(rows) + [scannedItems[|old(scannedItems)|]]
      ensures failure == commitError
      ensures commitError.None? ==> !hasChanges && saved == Snapshot(rows)
      ensures commitError.Some? ==> hasChanges && saved == old(saved)
      ensures old(InStep()) ==> InStep()
    {
      var item := Insert(FromUserItem(userItem));
      scannedItems := scannedItems + [item];
      assert Snapshot(scannedItems) == old(Snapshot(scannedItems)) + [item.AsRecord()];
      failure := SaveScannedItems(commitError);
    }

    /** `addScannedItems`: every input is added, whatever happened to the
        earlier ones; the result lists the failures in input order, or is nil
        when there were none. */
    method AddScannedItems(userItems: seq<UserItem>, commitErrors: seq<Option<Error>>)
      returns (failures: Option<seq<(Error, string)>>)
      requires Valid()
      requires |commitErrors| == |userItems|
      modifies this
      ensures Valid()
      ensures |scannedItems| == |old(scannedItems)| + |userItems|
      ensures scannedItems[..|old(scannedItems)|] == old(scannedItems)
      ensures forall i :: |old(scannedItems)| <= i < |scannedItems| ==> fresh(scannedItems[i])
      ensures Contents() == old(Contents()) + Records(userItems)
      ensures failures == if Failures(userItems, commitErrors) == [] then None
                          else Some(Failures(userItems, commitErrors))
      ensures rows == old(rows) + scannedItems[|old(scannedItems)|..]
      ensures userItems == [] ==> hasChanges == old(hasChanges) && saved == old(saved)
      ensures userItems != [] ==>
        (commitErrors[|userItems| - 1].None? <==> !hasChanges)
        && (commitErrors[|userItems| - 1].None? ==> saved == Snapshot(rows))
      ensures old(InStep()) ==> InStep()
    {
      var results: seq<(Error, string)> := [];
      for i := 0 to |userItems|
        invariant Valid()
        invariant |scannedItems| == |old(scannedItems)| + i
        invariant scannedItems[..|old(scannedItems)|] == old(scannedItems)
        invariant forall j :: |old(scannedItems)| <= j < |scannedItems| ==> fresh(scannedItems[j])
        invariant Contents() == old(Contents()) + Records(userItems[..i])
        invariant results == Failures(userItems[..i], commitErrors[..i])
        invariant rows == old(rows) + scannedItems[|old(scannedItems)|..]
        invariant i == 0 ==> hasChanges == old(hasChanges) && saved == old(saved)
        invariant i > 0 ==>
          (commitErrors[i - 1].None? <==> !hasChanges)
          && (commitErrors[i - 1].None? ==> saved == Snapshot(rows))
        invariant old(InStep()) ==> InStep()
      {
        var failure := AddScannedItem(userItems[i], commitErrors[i]);
        if failure.Some? {
          results := results + [(failure.value, userItems[i].name)];
        }
        assert userItems[..i + 1][..i] == userItems[..i];
        assert commitErrors[..i + 1][..i] == commitErrors[..i];
        assert Records(userItems[..i + 1]) == Records(userItems[..i]) + [FromUserItem(userItems[i])];
      }
      assert userItems[..|userItems|] == userItems;
      assert commitErrors[..|commitErrors|] == commitErrors;
      failures := if |results| > 0 then Some(results) else None;
    }

    /** `deleteScannedItem`: the object leaves the context and the change is
        saved; the cache is not touched. */
    method DeleteScannedItem(item: ScannedItem, commitError: Option<Error>) returns (failure: Option<Error>)
      requires Valid()
      modifies this`rows, this`hasChanges, this`saved
      ensures Valid()
      ensures rows == Without(old(rows), {item})
      ensures failure == commitError
      ensures commitError.None? ==> !hasChanges && saved == Snapshot(rows)
      ensures commitError.Some? ==> hasChanges && saved == old(saved)
    {
      Delete(item);
      failure := SaveScannedItems(commitError);
    }

    /** `removeScannedItem(at:)`, the pessimistic remove: the cache loses the
        selected item only after the save succeeded, and the result is the
        item's formatted remind date. */
    method RemoveScannedItem(offsets: set<nat>, format: (Date, string) -> string, commitError: Option<Error>)
      returns (identifier: Option<string>)
      requires Valid()
      requires First(offsets).Some? ==> First(offsets).value < |scannedItems|
      modifies this`rows, this`hasChanges, this`saved, this`scannedItems
      ensures Valid()
      ensures offsets == {} ==> identifier.None? && unchanged(this)
      ensures offsets != {} ==>
        var i := First(offsets).value;
        var item := old(scannedItems[i]);
        (item.dateToRemind.None? ==> identifier.None? && unchanged(this))
        && (item.dateToRemind.Some? ==>
              rows == Without(old(rows), {item})
              && (commitError.Some? ==>
                    identifier.None? && scannedItems == old(scannedItems) && hasChanges && saved == old(saved))
              && (commitError.None? ==>
                    identifier == Some(format(item.dateToRemind.value, DateFormat))
                    && scannedItems == RemoveAt(old(scannedItems), i)
                    && !hasChanges && saved == Snapshot(rows)))
      ensures old(InStep()) && identifier.Some? ==> InStep()
    {
      var first := First(offsets);
      if first.None? {
        return None;
      }
      var index := first.value;
      var item := scannedItems[index];
      if item.dateToRemind.None? {
        return None;
      }
      var id := format(item.dateToRemind.value, DateFormat);
      Delete(item);
      var failure := SaveScannedItems(commitError);
      if failure.Some? {
        return None;
      }
      RemoveAtKeepsDistinct(scannedItems, index);
      if old(InStep()) {
        WithoutSelected(old(rows), index);
      }
      scannedItems := RemoveAt(scannedItems, index);
      identifier := Some(id);
    }

    /** `removeScannedItem(at:completionHandler:)`, the optimistic remove: the
        cache loses the selected item before the save, so it is gone even when
        the save fails. The handler is called for an empty selection and for a
        failed save; a missing remind date calls nothing. The save never calls
        its handler on success, so no identifier is ever reported. */
    method RemoveScannedItemWithHandler(offsets: set<nat>, commitError: Option<Error>)
      returns (reported: Option<Result<string, Error>>)
      requires Valid()
      requires First(offsets).Some? ==> First(offsets).value < |scannedItems|
      modifies this`rows, this`hasChanges, this`saved, this`scannedItems
      ensures Valid()
      ensures offsets == {} ==>
        reported == Some(Failure(ReceiptScanningError(RemoveError))) && unchanged(this)
      ensures offsets != {} ==>
        var i := First(offsets).value;
        var item := old(scannedItems[i]);
        (item.dateToRemind.None? ==> reported.None? && unchanged(this))
        && (item.dateToRemind.Some? ==>
              scannedItems == RemoveAt(old(scannedItems), i)
              && rows == Without(old(rows), {item})
              && reported == (if commitError.Some? then Some(Failure(commitError.value)) else None)
              && (commitError.None? ==> !hasChanges && saved == Snapshot(rows))
              && (commitError.Some? ==> hasChanges && saved == old(saved)))
      ensures old(InStep()) ==> InStep()
    {
      var first := First(offsets);
      if first.None? {
        return Some(Failure(ReceiptScanningError(RemoveError)));
      }
      var index := first.value;
      var item := scannedItems[index];
      if item.dateToRemind.None? {
        return None;
      }
      Delete(item);
      RemoveAtKeepsDistinct(scannedItems, index);
      if old(InStep()) {
        WithoutSelected(old(rows), index);
      }
      scannedItems := RemoveAt(scannedItems, index);
      var failure := SaveScannedItems(commitError);
      reported := if failure.Some? then Some(Failure(failure.value)) else None;
    }

    /** `createScannedItem`: a new object registered with the context but
        neither cached nor saved. */
    method CreateScannedItem(name: string, purchaseDate: Date, remindDate: Date) returns (item: ScannedItem)
      requires Valid()
      modifies this`rows, this`hasChanges
      ensures Valid() && fresh(item)
      ensures item.AsRecord() == Record(name, purchaseDate, Some(remindDate))
      ensures rows == old(rows) + [item] && hasChanges
    {
      item := Insert(Record(name, purchaseDate, Some(remindDate)));
    }

    /** `updateScannedItem`: after the date guards pass, the first cached item
        named `oldName` takes the new name and dates and the context is saved;
        the result is false when a guard fails or the save fails. */
    method UpdateScannedItem(oldName: string, name: string, purchaseDate: Date, remindDate: Date,
                             now: Date, commitError: Option<Error>) returns (ok: bool)
      requires Valid()
      modifies this`hasChanges, this`saved, scannedItems
      ensures Valid()
      ensures ok ==> purchaseDate == now
      ensures !old(Admissible(purchaseDate, remindDate, RemindDateOf(oldName, now), now)) ==>
        !ok && unchanged(this) && Contents() == old(Contents())
      ensures old(Admissible(purchaseDate, remindDate, RemindDateOf(oldName, now), now)) ==>
        var k := old(IndexOfName(scannedItems, oldName));
        (k.Some? ==> scannedItems[k.value].AsRecord() == Record(name, purchaseDate, Some(remindDate)))
        && (forall j :: 0 <= j < |scannedItems| && k != Some(j) ==>
              scannedItems[j].AsRecord() == old(scannedItems[j].AsRecord()))
        && (ok <==> !(old(hasChanges) || k.Some?) || commitError.None?)
      ensures old(Admissible(purchaseDate, remindDate, RemindDateOf(oldName, now), now)) && !ok ==> hasChanges
      ensures ok ==> !hasChanges && saved == Snapshot(rows)
      ensures !ok ==> saved == old(saved)
    {
      var k := IndexOfName(scannedItems, oldName);
      var oldRemindDate := RemindDateOf(oldName, now);
      if purchaseDate > now || purchaseDate > remindDate {
        return false;
      }
      if purchaseDate < now || purchaseDate < oldRemindDate {
        return false;
      }
      if k.Some? {
        var item := scannedItems[k.value];
        item.name := name;
        item.dateOfPurchase := purchaseDate;
        item.dateToRemind := Some(remindDate);
        hasChanges := true;
      }
      var failure := SaveScannedItems(commitError);
      ok := failure.None?;
    }

    /** `removeAllItems`: every cached object is deleted from the context and
        the cache is emptied; nothing is saved. */
    method RemoveAllItems()
      requires Valid()
      modifies this`rows, this`hasChanges, this`scannedItems
      ensures Valid()
      ensures scannedItems == []
      ensures rows == Without(old(rows), Elements(old(scannedItems)))
      ensures hasChanges == (old(hasChanges) || old(scannedItems) != [])
      ensures old(InStep()) ==> rows == []
    {
      WithoutDisjoint(rows, {});
      assert Elements(scannedItems[..0]) == {};
      for i := 0 to |scannedItems|
        invariant Valid()
        invariant scannedItems == old(scannedItems)
        invariant rows == Without(old(rows), Elements(scannedItems[..i]))
        invariant hasChanges == (old(hasChanges) || i > 0)
      {
        WithoutOneMore(old(rows), Elements(scannedItems[..i]), scannedItems[i]);
        assert Elements(scannedItems[..i + 1]) == Elements(scannedItems[..i]) + {scannedItems[i]};
        Delete(scannedItems[i]);
      }
      assert scannedItems[..|scannedItems|] == scannedItems;
      if old(InStep()) {
        WithoutEverything(old(rows), Elements(old(scannedItems)));
      }
      scannedItems := [];
    }
  }
}
