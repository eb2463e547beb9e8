# ScannedItemViewModel in Dafny

This is a model of `ScannedItemViewModel` from the sYg app. The view model keeps `scannedItems`, an ordered in-memory cache of the `ScannedItem` objects a user scanned from receipts. The cache mirrors a Core Data persistence context. Over it the view model offers list, count, index lookup, add (one or a batch), two kinds of remove, delete, create, update, save and remove-all.

The model is imperative, like the source. `ScannedItem` is a class whose fields `name`, `dateOfPurchase` and `dateToRemind` are updated in place. The cache and the context share these objects by reference. `ScannedItemViewModel` is a class whose methods change the cache and an abstract persistence context. The context has three parts:

- `rows`: the objects the context holds and has not deleted. A fetch returns these.
- `saved`: the records durably committed by the last successful save.
- `hasChanges`: the context's pending-changes flag. Every insert, delete and attribute edit sets it. A successful commit clears it.

The invariant `Valid()` says three things: the cache has no repeated object, the context has no repeated object, and with no pending changes the committed records are exactly the context's records. `InStep()` says the cache and the context hold the same objects in the same order.

Some inputs are parameters:

- `commitError` / `fetchError`: the outcome of each commit and fetch.
- `now`: the clock (`Date.now`).
- `format`: the date formatter (`getFormattedDate`), applied with the pattern `"yyyy-MM-dd"`.

Dates are integers. An index selection (`IndexSet`) is a `set<nat>`, and its `first` is its smallest element.

What the model shows about the source, as written:

- **Adding is optimistic.** The new item is appended to the cache before the save. It stays in the cache when the save fails.
- **`removeScannedItem(at:)` is pessimistic.** The cache loses the item only after the save succeeds. On failure the context has already dropped the object and the change stays pending, so the cache and the context are no longer in step.
- **`removeScannedItem(at:completionHandler:)` is optimistic.** The cache loses the item before the save.
- **`saveScannedItems` calls its handler only when a commit fails.** So the completion-handler remove never delivers `.success(identifier)`: a successful removal reports nothing. The model follows the code here. It does not follow the documented intent that success reports the formatted remind date.
- **The two date guards of `updateScannedItem` admit only `purchaseDate == now`, when `now` is one reading of the clock.** The old remind date (or `now` when there is none) must also not be after the purchase date. The source reads the clock separately in each guard, so it also rejects every update when the clock advances between the two guards. The model keeps these guards as written. It does not use a corrected rule.
- **An update with no item named `oldName` mutates nothing and still saves.** It returns true unless a pending commit fails. It does not report "not found".

## Model

| member | source | states |
|---|---|---|
| `ViewModel.ScannedItemViewModel.constructor` | sYg/ViewModels/ScannedItemViewModel.swift:25-46 | the context starts with the persisted records and nothing pending; after a successful initial fetch the cache mirrors the context, after a failed one it is empty |
| `ViewModel.ScannedItemViewModel.GetScannedItems` | sYg/ViewModels/ScannedItemViewModel.swift:55-62 | on success the cache becomes exactly what the context holds; on failure the cache is unchanged and the handler receives the fetch error |
| `ViewModel.ScannedItemViewModel.GetNumberScannedItems` | sYg/ViewModels/ScannedItemViewModel.swift:67-69 | the count is the cache length |
| `ViewModel.ScannedItemViewModel.GetItemAtOffset` | sYg/ViewModels/ScannedItemViewModel.swift:75-81 | nil exactly for an empty selection; otherwise the cached item at the selection's smallest index, which must be in range |
| `Collections.First` | sYg/ViewModels/ScannedItemViewModel.swift:76 | `IndexSet.first` is none exactly for an empty set, and otherwise a member no larger than any other member |
| `ViewModel.ScannedItemViewModel.AddScannedItems` | sYg/ViewModels/ScannedItemViewModel.swift:87-101 | every input is attempted: the cache grows by the number of inputs, keeps its old prefix, and ends with fresh items carrying the inputs' fields in input order; the context gains the same new objects in the same order; after a non-empty batch the last input's commit decides whether changes are pending, and on its success the store holds the context's records; an empty batch leaves the flag and the store as they were; the result is nil when no save failed, otherwise exactly the failures in input order |
| `ViewModel.Failures` | sYg/ViewModels/ScannedItemViewModel.swift:88-99 | the collected failures are empty exactly when no save failed, are at most one per input, and each pairs a failing input's error with that input's name |
| `ViewModel.FailuresAppend` | sYg/ViewModels/ScannedItemViewModel.swift:89-99 | failures of a concatenated batch are those of the first part followed by those of the second, so input order is kept |
| `ViewModel.ScannedItemViewModel.AddScannedItem` | sYg/ViewModels/ScannedItemViewModel.swift:107-115 | exactly one fresh item with name, purchase date and remind date copied from the input is appended to the cache and the context, whatever the save does; the handler receives the commit error; on success the store holds the context's records |
| `Entities.FromUserItem` | sYg/ViewModels/ScannedItemViewModel.swift:109-111 | a new item's name, purchase date and remind date are copied verbatim from the input item |
| `ViewModel.ScannedItemViewModel.Insert` | sYg/ViewModels/ScannedItemViewModel.swift:108-111 | a new managed object with the given attribute values is registered at the end of the context and marks it changed |
| `ViewModel.ScannedItemViewModel.DeleteScannedItem` | sYg/ViewModels/ScannedItemViewModel.swift:122-126 | the object leaves the context, the cache is untouched, and the save's outcome is reported to the handler |
| `ViewModel.ScannedItemViewModel.Delete` | sYg/ViewModels/ScannedItemViewModel.swift:124 | the deleted object is removed from the context and the context is marked changed |
| `Collections.Without` | sYg/ViewModels/ScannedItemViewModel.swift:149 | deleting a set of objects keeps exactly the other elements and never lengthens the list |
| `ViewModel.ScannedItemViewModel.RemoveScannedItem` | sYg/ViewModels/ScannedItemViewModel.swift:134-168 | an empty selection or a missing remind date returns nil and changes nothing; otherwise the object leaves the context; a failed save returns nil with the cache unchanged; a successful one removes that index from the cache and returns the formatted remind date; success keeps cache and context in step |
| `Collections.RemoveAt` | sYg/ViewModels/ScannedItemViewModel.swift:166 | `remove(at:)` shortens by one, keeps the elements before the index and shifts the later ones down |
| `Collections.WithoutSelected` | sYg/ViewModels/ScannedItemViewModel.swift:149-166 | in a list without repetitions, deleting the object at an index is the same as removing that index |
| `ViewModel.ScannedItemViewModel.RemoveScannedItemWithHandler` | sYg/ViewModels/ScannedItemViewModel.swift:178-206 | an empty selection reports a ReceiptScanningError; a missing remind date changes nothing and reports nothing; otherwise the cache loses the index before the save, even if the save fails; only a failed save is reported; cache and context stay in step |
| `ViewModel.ScannedItemViewModel.CreateScannedItem` | sYg/ViewModels/ScannedItemViewModel.swift:213-220 | a fresh object with the given attributes is registered in the context; it is not cached and not saved |
| `ViewModel.ScannedItemViewModel.UpdateScannedItem` | sYg/ViewModels/ScannedItemViewModel.swift:222-262 | a true result implies purchaseDate == now; when a guard fails, false and nothing changes; otherwise only the first item named oldName takes the new name and dates, every other cached item is untouched, and the result is false exactly when a commit was due and failed, in which case the edits stay pending |
| `ViewModel.IndexOfName` | sYg/ViewModels/ScannedItemViewModel.swift:224 | the result is the first position whose name matches, or none when no item has that name |
| `ViewModel.ScannedItemViewModel.RemindDateOf` | sYg/ViewModels/ScannedItemViewModel.swift:224-225 | the old remind date is now when no cached item has the old name; otherwise it is the remind date of the first item with that name, or now when that item has none |
| `ViewModel.Admissible` | sYg/ViewModels/ScannedItemViewModel.swift:227-239 | the two guards pass exactly when purchaseDate == now, purchaseDate <= remindDate and the old remind date is not after purchaseDate |
| `ViewModel.ScannedItemViewModel.SaveScannedItems` | sYg/ViewModels/ScannedItemViewModel.swift:268-277 | without pending changes nothing happens and nothing is reported; otherwise a successful commit makes the store equal the context's records and clears the flag, and a failed one keeps the store and the pending changes and reports the engine's error unchanged |
| `ViewModel.ScannedItemViewModel.RemoveAllItems` | sYg/ViewModels/ScannedItemViewModel.swift:286-291 | every cached object leaves the context, the cache is empty, nothing is committed, and a context in step with the cache ends empty |
| `Collections.WithoutOneMore` | sYg/ViewModels/ScannedItemViewModel.swift:287-289 | deleting one more object after a batch is deleting the enlarged batch (the loop step of removeAllItems) |
| `Collections.WithoutEverything` | sYg/ViewModels/ScannedItemViewModel.swift:286-290 | deleting every element of a list leaves it empty |

## Left out

- UpdateScannedItem: the source reads `Date.now` three times (the default old remind date and each of the two guards). The model uses one parameter `now` for all three readings. So it does not show that a clock tick between the two guards rejects an update that a single reading would admit.

- Opening the container (`loadPersistentStores` and its `fatalError`) is framework I/O. The constructor receives the persisted records and models only the initial fetch.
- `NSFetchRequest`, `viewContext.save` and the `NSManagedObject` lifecycle are replaced by the abstract context described above. Three consequences:
  - Core Data gives no fetch order without sort descriptors. The model returns the context's insertion order.
  - A delete of an unsaved insert still leaves `hasChanges` set. Core Data would cancel the insert.
  - Faulting and merge policies are not modelled.
- Engine errors are opaque values (`EngineError(code)`) passed on unchanged.
- `@Published`, `ObservableObject` and the `static var shared` singleton exist for UI binding and global access, and have no behaviour to verify.
- `print` logging is diagnostic output only.
- The implementation of `getFormattedDate` is a parameter `format`, and `Date.now` is a parameter `now`.
- `UserItem` is not part of this model. Its three fields are taken to be a name and two non-optional dates.
- `addSampleItems` depends on `UserItem.samples`, which is not part of this model. It is only a call to `addScannedItems`.
- Swift's `Int` bounds are not modelled. Counts and indices are unbounded naturals.
