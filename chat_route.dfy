/** The older chat routes: `/send` without listing, the unfiltered conversation query,
    and the hard delete. */
module ChatRoute {
  import opened Common
  import opened Query
  import opened Messages
  import ChatController

  /** `POST /send`. The handler checks nothing itself, but the schema requires sender,
      receiver and text, so a save with any of them missing (empty) throws and the handler
      answers 500 with nothing stored. Otherwise the message is stored without a listing,
      stamped `now`, and the answer is 200 with the new document's id. */
  method Send(store: MessageStore, senderId: UserId, receiverId: UserId, text: string, now: int)
    returns (status: Status, created: Option<nat>)
    requires store.Valid()
    modifies store
    ensures store.Valid()
    ensures status == Internal500 <==> (senderId == "" || receiverId == "" || text == "")
    ensures status == Internal500 || status == Ok200
    ensures status == Internal500 ==> created == None && store.messages == old(store.messages)
    ensures status == Ok200 ==>
      created == Some(old(store.nextId)) && old(store.nextId) !in old(store.messages) &&
      store.messages == old(store.messages)[old(store.nextId) := NewMessage(senderId, receiverId, text, None, now)]
  {
    if senderId == "" || receiverId == "" || text == "" {
      return Internal500, None;
    }
    var id := store.Insert(NewMessage(senderId, receiverId, text, None, now));
    status, created := Ok200, Some(id);
  }

  function CreatedAtKey(r: Row<Message>): int
  {
    r.rec.createdAt
  }

  /** `GET /:userId/:receiverId`: the messages between the two users in either direction,
      soft-deleted ones included, each exactly once, oldest `createdAt` first. */
  function GetMessages(store: MessageStore, userId: UserId, receiverId: UserId): (r: seq<Row<Message>>)
    reads store
    requires store.Valid()
    ensures forall x :: x in r <==>
      (x.id in store.messages && store.messages[x.id] == x.rec && ChatController.Between(x.rec, userId, receiverId))
    ensures forall i, j :: 0 <= i < j < |r| ==> r[i].rec.createdAt <= r[j].rec.createdAt
    ensures forall i, j :: 0 <= i < j < |r| ==> r[i].id != r[j].id
  {
    var found := store.Find((m: Message) => ChatController.Between(m, userId, receiverId));
    IncreasingIdsDistinct(found);
    SortByMembers(found, CreatedAtKey);
    var r := SortBy(found, CreatedAtKey);
    assert forall i, j :: 0 <= i < j < |r| ==> CreatedAtKey(r[i]) <= CreatedAtKey(r[j]);
    DistinctRowsDistinctIds(store.messages, r);
    r
  }

  /** The route shows what the controller's query hides: every message the controller
      returns is also returned here, and the extra ones are exactly the soft-deleted ones. */
  lemma RouteShowsDeleted(store: MessageStore, a: UserId, b: UserId)
    requires store.Valid()
    ensures forall x :: x in ChatController.GetMessages(store, a, b) ==> x in GetMessages(store, a, b)
    ensures forall x :: x in GetMessages(store, a, b) && x !in ChatController.GetMessages(store, a, b) ==> x.rec.deleted
  {
  }

  /** `DELETE /delete/:id`: 404 for an unknown id; otherwise 200 and the document is removed
      from the collection, with no time window and no ownership check. */
  method Delete(store: MessageStore, id: nat) returns (status: Status)
    requires store.Valid()
    modifies store
    ensures store.Valid() && store.nextId == old(store.nextId)
    ensures status == NotFound404 <==> id !in old(store.messages)
    ensures status == NotFound404 || status == Ok200
    ensures status == NotFound404 ==> store.messages == old(store.messages)
    ensures status == Ok200 ==> store.messages == old(store.messages) - {id}
  {
    if id !in store.messages {
      return NotFound404;
    }
    store.Remove(id);
    status := Ok200;
  }
}
