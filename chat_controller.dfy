/** The chat controller: the conversation query, sending a message about a listing,
    the five-minute soft delete, and the read flag of a message. */
module ChatController {
  import opened Common
  import opened Query
  import opened Messages
  import Notifications
  import NotificationsController

  /** `m` was sent from `a` to `b` or from `b` to `a`. */
  predicate Between(m: Message, a: UserId, b: UserId)
  {
    (m.sender == a && m.receiver == b) || (m.sender == b && m.receiver == a)
  }

  function SentAtKey(r: Row<Message>): int
  {
    r.rec.sentAt
  }

  /** `getMessages`: the messages between the two users in either direction that are not
      soft-deleted, each exactly once, oldest first. */
  function GetMessages(store: MessageStore, a: UserId, b: UserId): (r: seq<Row<Message>>)
    reads store
    requires store.Valid()
    ensures forall x :: x in r <==>
      (x.id in store.messages && store.messages[x.id] == x.rec && !x.rec.deleted && Between(x.rec, a, b))
    ensures forall i, j :: 0 <= i < j < |r| ==> r[i].rec.sentAt <= r[j].rec.sentAt
    ensures forall i, j :: 0 <= i < j < |r| ==> r[i].id != r[j].id
  {
    var found := store.Find((m: Message) => !m.deleted && Between(m, a, b));
    IncreasingIdsDistinct(found);
    SortByMembers(found, SentAtKey);
    var r := SortBy(found, SentAtKey);
    assert forall i, j :: 0 <= i < j < |r| ==> SentAtKey(r[i]) <= SentAtKey(r[j]);
    DistinctRowsDistinctIds(store.messages, r);
    r
  }

  /** The conversation does not depend on which participant asks: the two argument orders
      give the same sequence, not just the same set. */
  lemma {:induction false} GetMessagesSymmetric(store: MessageStore, a: UserId, b: UserId)
    requires store.Valid()
    ensures GetMessages(store, a, b) == GetMessages(store, b, a)
  {
    SelectSameFilter(store.messages, store.nextId,
      (m: Message) => !m.deleted && Between(m, a, b),
      (m: Message) => !m.deleted && Between(m, b, a));
  }

  /** `sendMessage`. The sender is the authenticated user; any of the four values missing
      (empty) gives 400 and nothing is stored. Otherwise the message is stored first, unread,
      not deleted and stamped `now`; only then is the listing looked up, so an unknown listing
      answers 404 with the message already stored and no notification created. For a known
      listing a notification carrying the listing's name is attempted, and whether that
      attempt fails (`notifyFails`) has no effect on the answer, 201, or on the message. */
  method SendMessage(store: MessageStore, notifications: Notifications.NotificationStore,
                     listings: map<ListingId, string>, senderId: UserId, receiverId: UserId,
                     text: string, listingId: ListingId, now: int, notifyFails: bool)
    returns (status: Status, created: Option<nat>)
    requires store.Valid() && notifications.Valid()
    modifies store, notifications
    ensures store.Valid() && notifications.Valid()
    ensures status == BadRequest400 <==> (senderId == "" || receiverId == "" || text == "" || listingId == "")
    ensures status == BadRequest400 ==>
      created == None && store.messages == old(store.messages) && notifications.records == old(notifications.records)
    ensures status != BadRequest400 ==>
      created == Some(old(store.nextId)) && old(store.nextId) !in old(store.messages) &&
      store.messages == old(store.messages)[old(store.nextId) := NewMessage(senderId, receiverId, text, Some(listingId), now)]
    ensures status == NotFound404 <==> status != BadRequest400 && listingId !in listings
    ensures status == NotFound404 ==> notifications.records == old(notifications.records)
    ensures status == Created201 <==> status != BadRequest400 && listingId in listings
    ensures status == Created201 ==>
      var n := Notifications.Notification(senderId, receiverId, listingId, listings[listingId], now, false);
      notifications.records == if Notifications.HasRequiredFields(n) && !notifyFails
                               then old(notifications.records)[old(notifications.nextId) := n]
                               else old(notifications.records)
  {
    if senderId == "" || receiverId == "" || text == "" || listingId == "" {
      return BadRequest400, None;
    }
    var id := store.Insert(NewMessage(senderId, receiverId, text, Some(listingId), now));
    created := Some(id);
    if listingId !in listings {
      return NotFound404, created;
    }
    var name := listings[listingId];
    NotificationsController.CreateNotification(notifications, senderId, receiverId, listingId, name, now, notifyFails);
    status := Created201;
  }

  /** Five minutes, in milliseconds. */
  const DeleteWindow: int := 5 * 60 * 1000

  /** `deleteMessage`. 404 for an unknown id; 500 when the stored sender or receiver no
      longer resolves to a user; 403 exactly when the message was sent strictly more than
      five minutes before `now` (a message exactly five minutes old can still be deleted);
      otherwise 200 and the message is only flagged `deleted`, staying in the collection.
      Who asks (`principal`) plays no part: the sender check is disabled in the source.
      An already deleted message inside the window is deleted again without complaint. */
  method DeleteMessage(store: MessageStore, users: set<UserId>, principal: UserId, messageId: nat, now: int)
    returns (status: Status)
    requires store.Valid()
    modifies store
    ensures store.Valid() && store.nextId == old(store.nextId)
    ensures status == NotFound404 <==> messageId !in old(store.messages)
    ensures status == Internal500 <==> (messageId in old(store.messages) &&
      (old(store.messages)[messageId].sender !in users || old(store.messages)[messageId].receiver !in users))
    ensures status == Forbidden403 <==> (messageId in old(store.messages) &&
      old(store.messages)[messageId].sender in users && old(store.messages)[messageId].receiver in users &&
      old(store.messages)[messageId].sentAt < now - DeleteWindow)
    ensures status == NotFound404 || status == Internal500 || status == Forbidden403 || status == Ok200
    ensures status != Ok200 ==> store.messages == old(store.messages)
    ensures status == Ok200 ==>
      store.messages == old(store.messages)[messageId := old(store.messages)[messageId].(deleted := true)]
  {
    if messageId !in store.messages {
      return NotFound404;
    }
    var message := store.messages[messageId];
    if message.sender !in users || message.receiver !in users {
      return Internal500;
    }
    var fiveMinutesAgo := now - DeleteWindow;
    if message.sentAt < fiveMinutesAgo {
      return Forbidden403;
    }
    message := message.(deleted := true);
    store.Save(messageId, message);
    status := Ok200;
  }

  /** `markNotificationAsRead` of the chat controller (routed as the notifications' mark-read):
      404 for an unknown message id; otherwise only that message's `read` becomes true, which
      changes nothing when it already was. Soft-deleted messages are found too. */
  method MarkMessageAsRead(store: MessageStore, messageId: nat) returns (status: Status)
    requires store.Valid()
    modifies store
    ensures store.Valid() && store.nextId == old(store.nextId)
    ensures status == NotFound404 <==> messageId !in old(store.messages)
    ensures status == NotFound404 || status == Ok200
    ensures status == NotFound404 ==> store.messages == old(store.messages)
    ensures status == Ok200 ==>
      store.messages == old(store.messages)[messageId := old(store.messages)[messageId].(read := true)]
    ensures status == Ok200 && old(store.messages)[messageId].read ==> store.messages == old(store.messages)
  {
    if messageId !in store.messages {
      return NotFound404;
    }
    var message := store.messages[messageId];
    message := message.(read := true);
    store.Save(messageId, message);
    status := Ok200;
  }
}
