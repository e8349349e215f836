/** The `Notification` collection: "user A contacted user B about listing L". */
module Notifications {
  import opened Common
  import opened Query

  datatype Notification = Notification(
    fromUser: UserId,
    toUser: UserId,
    listingId: ListingId,
    propertyTitle: string,
    sentAt: int,
    isRead: bool)

  /** The schema marks all four given fields `required`; a document missing one of them
      fails validation on `save()`. */
  predicate HasRequiredFields(n: Notification)
  {
    n.fromUser != "" && n.toUser != "" && n.listingId != "" && n.propertyTitle != ""
  }

  class NotificationStore {
    var records: map<nat, Notification>
    var nextId: nat

    ghost predicate Valid()
      reads this
    {
      forall id :: id in records ==> id < nextId
    }

    constructor ()
      ensures Valid() && records == map[]
    {
      records := map[];
      nextId := 0;
    }

    /** `new Notification(...).save()`. It stores `n` under a fresh id unless schema
        validation rejects it or the database write fails (`writeFails`); `saved` says which. */
    method Insert(n: Notification, writeFails: bool) returns (saved: bool)
      requires Valid()
      modifies this
      ensures Valid()
      ensures saved == (HasRequiredFields(n) && !writeFails)
      ensures records == if saved then old(records)[old(nextId) := n] else old(records)
      ensures old(nextId) !in old(records)
    {
      saved := HasRequiredFields(n) && !writeFails;
      if saved {
        records := records[nextId := n];
        nextId := nextId + 1;
      }
    }

    /** `doc.save()` of a document that was found by id. */
    method Save(id: nat, n: Notification)
      requires Valid() && id in records
      modifies this
      ensures Valid() && nextId == old(nextId)
      ensures records == old(records)[id := n]
    {
      records := records[id := n];
    }

    /** All documents satisfying `p`, in insertion order. */
    function Find(p: Notification -> bool): (r: seq<Row<Notification>>)
      reads this
      requires Valid()
      ensures forall x :: x in r <==> (x.id in records && records[x.id] == x.rec && p(x.rec))
      ensures IdsIncreasing(r)
    {
      Select(records, nextId, p)
    }
  }
}
