/** The persisted entity `ScannedItem` and the values that flow in and out of the view model. */
module Entities {
  import opened Wrappers

  /** Swift's `Date`, compared by its position on the time line. */
  type Date = int

  /** The errors a completion handler can receive: the persistence engine's own
      errors, passed on unchanged, and the app's `ReceiptScanningError`. */
  datatype Error = EngineError(code: int) | ReceiptScanningError(message: string)

  /** An item decoded from a receipt (`UserItem`). */
  datatype UserItem = UserItem(name: string, dateOfPurchase: Date, dateToRemind: Date)

  /** The attribute values of one `ScannedItem`, as a value. */
  datatype Record = Record(name: string, dateOfPurchase: Date, dateToRemind: Option<Date>)

  /** The record a new `ScannedItem` receives from a `UserItem`: every field copied verbatim. */
  function FromUserItem(u: UserItem): (r: Record)
    ensures r.name == u.name && r.dateOfPurchase == u.dateOfPurchase
    ensures r.dateToRemind == Some(u.dateToRemind)
  {
    Record(u.name, u.dateOfPurchase, Some(u.dateToRemind))
  }

  function Records(us: seq<UserItem>): seq<Record> {
    seq(|us|, i requires 0 <= i < |us| => FromUserItem(us[i]))
  }

  /** A managed object of entity `ScannedItem`; the cache and the context share it by reference. */
  class ScannedItem {
    var name: string
    var dateOfPurchase: Date
    var dateToRemind: Option<Date>

    constructor (r: Record)
      ensures AsRecord() == r
    {
      name, dateOfPurchase, dateToRemind := r.name, r.dateOfPurchase, r.dateToRemind;
    }

    function AsRecord(): Record
      reads this
    {
      Record(name, dateOfPurchase, dateToRemind)
    }
  }

  /** The attribute values of a list of managed objects, in list order. */
  function Snapshot(items: seq<ScannedItem>): seq<Record>
    reads items
  {
    seq(|items|, i requires 0 <= i < |items| reads items => items[i].AsRecord())
  }
}
