/** The notification controller: best-effort creation, the per-recipient listing, and the
    read flag of a `Notification` document. */
module NotificationsController {
  import opened Common
  import opened Seqs
  import opened Query
  import opened Notifications

  /** `createNotification`. It never fails towards its caller: a rejected or failed save is
      swallowed, and the collection either gains exactly the new unread notification,
      stamped `now`, or stays as it was. */
  method CreateNotification(store: NotificationStore, fromUser: UserId, toUser: UserId,
                            listingId: ListingId, propertyTitle: string, now: int, writeFails: bool)
    requires store.Valid()
    modifies store
    ensures store.Valid()
    ensures var n := Notification(fromUser, toUser, listingId, propertyTitle, now, false);
      store.records == if HasRequiredFields(n) && !writeFails
                       then old(store.records)[old(store.nextId) := n]
                       else old(store.records)
    ensures old(store.nextId) !in old(store.records)
  {
    var n := Notification(fromUser, toUser, listingId, propertyTitle, now, false);
    var _ := store.Insert(n, writeFails);
  }

  /** Sort key of `.sort({ sentAt: -1 })`. */
  function NewestSentFirst(r: Row<Notification>): int
  {
    -r.rec.sentAt
  }

  /** `getNotifications`: every notification addressed to `u`, each exactly once, newest first;
      nothing is merged or de-duplicated. */
  function GetNotifications(store: NotificationStore, u: UserId): (r: seq<Row<Notification>>)
    reads store
    requires store.Valid()
    ensures forall x :: x in r <==> (x.id in store.records && store.records[x.id] == x.rec && x.rec.toUser == u)
    ensures forall i, j :: 0 <= i < j < |r| ==> r[i].rec.sentAt >= r[j].rec.sentAt
    ensures forall i, j :: 0 <= i < j < |r| ==> r[i].id != r[j].id
  {
    var found := store.Find((n: Notification) => n.toUser == u);
    IncreasingIdsDistinct(found);
    SortByMembers(found, NewestSentFirst);
    var r := SortBy(found, NewestSentFirst);
    assert forall i, j :: 0 <= i < j < |r| ==> NewestSentFirst(r[i]) <= NewestSentFirst(r[j]);
    DistinctRowsDistinctIds(store.records, r);
    r
  }

  /** `markNotificationAsRead`: 404 for an unknown id; otherwise only that notification's
      `isRead` becomes true. Marking an already read notification changes nothing. */
  method MarkNotificationAsRead(store: NotificationStore, id: nat) returns (status: Status)
    requires store.Valid()
    modifies store
    ensures store.Valid() && store.nextId == old(store.nextId)
    ensures status == NotFound404 <==> id !in old(store.records)
    ensures status == NotFound404 || status == Ok200
    ensures status == NotFound404 ==> store.records == old(store.records)
    ensures status == Ok200 ==> store.records == old(store.records)[id := old(store.records)[id].(isRead := true)]
    ensures status == Ok200 && old(store.records)[id].isRead ==> store.records == old(store.records)
  {
    if id !in store.records {
      return NotFound404;
    }
    var n := store.records[id];
    n := n.(isRead := true);
    store.Save(id, n);
    status := Ok200;
  }
}
