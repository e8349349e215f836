/** The `Message` collection: the chat message document and the collection that holds it. */
module Messages {
  import opened Common
  import opened Query

  /** A chat message document. `sentAt` and `createdAt` are milliseconds since the epoch;
      `listing` is absent on messages stored by the older `/send` route. */
  datatype Message = Message(
    sender: UserId,
    receiver: UserId,
    text: string,
    listing: Option<ListingId>,
    sentAt: int,
    createdAt: int,
    deleted: bool,
    read: bool)

  /** A freshly created message: both timestamps are the creation time and both flags are
      at their schema defaults. */
  function NewMessage(sender: UserId, receiver: UserId, text: string, listing: Option<ListingId>, now: int): Message
  {
    Message(sender, receiver, text, listing, now, now, false, false)
  }

  /** The collection. Documents are keyed by `_id`; `nextId` is the id the next insert gets. */
  class MessageStore {
    var messages: map<nat, Message>
    var nextId: nat

    ghost predicate Valid()
      reads this
    {
      forall id :: id in messages ==> id < nextId
    }

    constructor ()
      ensures Valid() && messages == map[]
    {
      messages := map[];
      nextId := 0;
    }

    /** `Message.create` / `new Message(...).save()`: stores `m` under a fresh id. */
    method Insert(m: Message) returns (id: nat)
      requires Valid()
      modifies this
      ensures Valid()
      ensures id == old(nextId) && id !in old(messages)
      ensures messages == old(messages)[id := m]
    {
      id := nextId;
      messages := messages[id := m];
      nextId := nextId + 1;
    }

    /** `doc.save()` of a document that was found by id. */
    method Save(id: nat, m: Message)
      requires Valid() && id in messages
      modifies this
      ensures Valid() && nextId == old(nextId)
      ensures messages == old(messages)[id := m]
    {
      messages := messages[id := m];
    }

    /** `doc.delete()`: the document leaves the collection. */
    method Remove(id: nat)
      requires Valid()
      modifies this
      ensures Valid() && nextId == old(nextId)
      ensures messages == old(messages) - {id}
    {
      messages := messages - {id};
    }

    /** All documents satisfying `p`, in insertion order. */
    function Find(p: Message -> bool): (r: seq<Row<Message>>)
      reads this
      requires Valid()
      ensures forall x :: x in r <==> (x.id in messages && messages[x.id] == x.rec && p(x.rec))
      ensures IdsIncreasing(r)
    {
      Select(messages, nextId, p)
    }
  }
}
