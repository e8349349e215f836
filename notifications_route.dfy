/** `GET /notifications/:userId`: the notification list derived from the `Message` collection.
    The messages received by the user are sorted newest first, collapsed to one entry per
    (sender, listing) pair by a `seen` set, and projected to display entries. Mark-read is
    delegated to the chat controller. */
module NotificationsRoute {
  import opened Common
  import opened Seqs
  import opened Query
  import opened Messages
  import ChatController

  // ---------------------------------------------------------------------------------------
  // Keeping the first element per key

  /** `s.filter(x => seen.has(key(x)) ? false : (seen.add(key(x)), true))`, started with the
      given `seen` set. */
  function KeepFirst<T, K(==)>(s: seq<T>, key: T -> K, seen: set<K>): seq<T>
  {
    if s == [] then []
    else if key(s[0]) in seen then KeepFirst(s[1..], key, seen)
    else [s[0]] + KeepFirst(s[1..], key, seen + {key(s[0])})
  }

  /** One step of the filter, at position `i`. */
  lemma KeepFirstStep<T, K>(s: seq<T>, key: T -> K, seen: set<K>, i: nat)
    requires i < |s|
    ensures KeepFirst(s[i..], key, seen) ==
      if key(s[i]) in seen then KeepFirst(s[i + 1..], key, seen)
      else [s[i]] + KeepFirst(s[i + 1..], key, seen + {key(s[i])})
  {
    assert s[i..][1..] == s[i + 1..];
  }

  /** The keys occurring in `s`. */
  ghost function KeysOf<T, K>(s: seq<T>, key: T -> K): set<K>
  {
    set x | x in s :: key(x)
  }

  /** The index of the first element of `s` with key `k`, or `|s|` when there is none. */
  function FirstWithKey<T, K(==)>(s: seq<T>, key: T -> K, k: K): (i: nat)
    ensures i <= |s|
    ensures i < |s| ==> key(s[i]) == k
    ensures forall j :: 0 <= j < i ==> key(s[j]) != k
  {
    if s == [] then 0
    else if key(s[0]) == k then 0
    else 1 + FirstWithKey(s[1..], key, k)
  }

  /** No two kept elements share a key, and no kept key was already seen. */
  lemma {:induction false} KeepFirstKeysDistinct<T, K>(s: seq<T>, key: T -> K, seen: set<K>)
    ensures forall x :: x in KeepFirst(s, key, seen) ==> key(x) !in seen
    ensures forall i, j :: 0 <= i < j < |KeepFirst(s, key, seen)| ==>
      key(KeepFirst(s, key, seen)[i]) != key(KeepFirst(s, key, seen)[j])
  {
    if s != [] {
      if key(s[0]) in seen {
        KeepFirstKeysDistinct(s[1..], key, seen);
      } else {
        var seen' := seen + {key(s[0])};
        KeepFirstKeysDistinct(s[1..], key, seen');
        var out := KeepFirst(s, key, seen);
        var tail := KeepFirst(s[1..], key, seen');
        assert out == [s[0]] + tail;
        forall i, j | 0 <= i < j < |out| ensures key(out[i]) != key(out[j]) {
          if i == 0 {
            assert out[j] == tail[j - 1] && tail[j - 1] in tail;
          } else {
            assert out[i] == tail[i - 1] && out[j] == tail[j - 1];
          }
        }
      }
    }
  }

  /** Every key of the input that was not already seen is kept: the kept keys are exactly the
      input's keys minus the seen ones. */
  lemma {:induction false} KeepFirstCoversKeys<T, K>(s: seq<T>, key: T -> K, seen: set<K>)
    ensures KeysOf(KeepFirst(s, key, seen), key) == KeysOf(s, key) - seen
  {
    if s != [] {
      var k := key(s[0]);
      assert KeysOf(s, key) == {k} + KeysOf(s[1..], key) by {
        assert s == [s[0]] + s[1..];
        assert forall x :: x in s <==> x == s[0] || x in s[1..];
      }
      if k in seen {
        KeepFirstCoversKeys(s[1..], key, seen);
      } else {
        KeepFirstCoversKeys(s[1..], key, seen + {k});
        var tail := KeepFirst(s[1..], key, seen + {k});
        assert KeysOf([s[0]] + tail, key) == {k} + KeysOf(tail, key) by {
          assert forall x :: x in [s[0]] + tail <==> x == s[0] || x in tail;
        }
      }
    }
  }

  /** Each kept element is the first element of the input carrying its key. */
  lemma {:induction false} KeepFirstKeepsFirst<T, K>(s: seq<T>, key: T -> K, seen: set<K>)
    ensures forall x :: x in KeepFirst(s, key, seen) ==>
      FirstWithKey(s, key, key(x)) < |s| && x == s[FirstWithKey(s, key, key(x))]
  {
    if s != [] {
      var k := key(s[0]);
      var seen' := if k in seen then seen else seen + {k};
      KeepFirstKeepsFirst(s[1..], key, seen');
      KeepFirstKeysDistinct(s[1..], key, seen');
      forall x | x in KeepFirst(s, key, seen)
        ensures FirstWithKey(s, key, key(x)) < |s| && x == s[FirstWithKey(s, key, key(x))]
      {
        if x in KeepFirst(s[1..], key, seen') {
          assert key(x) != k;
          assert FirstWithKey(s, key, key(x)) == 1 + FirstWithKey(s[1..], key, key(x));
        }
      }
    }
  }

  /** The output is the input with elements dropped, order kept; so it is no longer. */
  lemma {:induction false} KeepFirstIsSubseq<T, K>(s: seq<T>, key: T -> K, seen: set<K>)
    ensures IsSubseq(KeepFirst(s, key, seen), s)
    ensures |KeepFirst(s, key, seen)| <= |s|
  {
    if s != [] {
      var k := key(s[0]);
      if k in seen {
        KeepFirstIsSubseq(s[1..], key, seen);
        SubseqAppendLeft(KeepFirst(s[1..], key, seen), s[1..], s[0]);
      } else {
        KeepFirstIsSubseq(s[1..], key, seen + {k});
        var out := KeepFirst(s, key, seen);
        assert out[0] == s[0] && out[1..] == KeepFirst(s[1..], key, seen + {k});
      }
      assert [s[0]] + s[1..] == s;
      SubseqLength(KeepFirst(s, key, seen), s);
    }
  }

  // ---------------------------------------------------------------------------------------
  // The route

  function NewestCreatedFirst(r: Row<Message>): int
  {
    -r.rec.createdAt
  }

  /** `Message.find({ receiverId: userId, deleted: { $ne: true } }).sort({ createdAt: -1 })`:
      every message received by `u` that is not soft-deleted, each once, newest first. */
  function Candidates(store: MessageStore, u: UserId): (r: seq<Row<Message>>)
    reads store
    requires store.Valid()
    ensures forall x :: x in r <==>
      (x.id in store.messages && store.messages[x.id] == x.rec && x.rec.receiver == u && !x.rec.deleted)
    ensures forall i, j :: 0 <= i < j < |r| ==> r[i].rec.createdAt >= r[j].rec.createdAt
    ensures Distinct(r)
  {
    var found := store.Find((m: Message) => m.receiver == u && !m.deleted);
    IncreasingIdsDistinct(found);
    SortByMembers(found, NewestCreatedFirst);
    var r := SortBy(found, NewestCreatedFirst);
    assert forall i, j :: 0 <= i < j < |r| ==> NewestCreatedFirst(r[i]) <= NewestCreatedFirst(r[j]);
    r
  }

  /** The de-duplication key `${senderId}_${listingId}`. */
  function SenderListing(r: Row<Message>): (UserId, Option<ListingId>)
  {
    (r.rec.sender, r.rec.listing)
  }

  /** The populated sender and listing exist; otherwise `msg.senderId._id` or
      `msg.listingId._id` throws inside the filter. */
  predicate Resolvable(r: Row<Message>, usernames: map<UserId, string>, listings: set<ListingId>)
  {
    r.rec.sender in usernames && r.rec.listing.Some? && r.rec.listing.value in listings
  }

  /** One entry of the JSON answer: `{ _id, fromUser, listingId, sentAt }`. */
  datatype Entry = Entry(id: nat, fromUser: string, listingId: ListingId, sentAt: int)

  function ToEntry(r: Row<Message>, usernames: map<UserId, string>): Entry
    requires r.rec.sender in usernames && r.rec.listing.Some?
  {
    Entry(r.id, usernames[r.rec.sender], r.rec.listing.value, r.rec.sentAt)
  }

  /** The `map` to entries, one entry per kept message, in the same order. */
  function Project(rows: seq<Row<Message>>, usernames: map<UserId, string>): (r: seq<Entry>)
    requires forall x :: x in rows ==> x.rec.sender in usernames && x.rec.listing.Some?
    ensures |r| == |rows|
    ensures forall i :: 0 <= i < |rows| ==> r[i] == ToEntry(rows[i], usernames)
  {
    if rows == [] then [] else [ToEntry(rows[0], usernames)] + Project(rows[1..], usernames)
  }

  /** The `seen`-set filter over the sorted candidates. `ok` is false when some candidate's
      sender or listing does not resolve, which makes the filter throw. */
  method KeepFirstPerSenderListing(messages: seq<Row<Message>>, usernames: map<UserId, string>, listings: set<ListingId>)
    returns (ok: bool, unique: seq<Row<Message>>)
    ensures ok <==> forall x :: x in messages ==> Resolvable(x, usernames, listings)
    ensures ok ==> unique == KeepFirst(messages, SenderListing, {})
  {
    var seen: set<(UserId, Option<ListingId>)> := {};
    unique := [];
    var i := 0;
    while i < |messages|
      invariant 0 <= i <= |messages|
      invariant forall j :: 0 <= j < i ==> Resolvable(messages[j], usernames, listings)
      invariant unique + KeepFirst(messages[i..], SenderListing, seen) == KeepFirst(messages, SenderListing, {})
    {
      var msg := messages[i];
      if !Resolvable(msg, usernames, listings) {
        assert msg in messages;
        return false, [];
      }
      var key := SenderListing(msg);
      KeepFirstStep(messages, SenderListing, seen, i);
      if key !in seen {
        assert unique + KeepFirst(messages[i..], SenderListing, seen)
            == (unique + [msg]) + KeepFirst(messages[i + 1..], SenderListing, seen + {key});
        seen := seen + {key};
        unique := unique + [msg];
      }
      i := i + 1;
    }
    assert messages[i..] == [];
    ok := true;
  }

  /** `GET /:userId`. 500 when some candidate's sender or listing does not resolve (the
      filter throws on it); otherwise 200 with the candidates collapsed to their first,
      that is newest, message per (sender, listing) pair, projected to entries. */
  method GetNotifications(store: MessageStore, usernames: map<UserId, string>, listings: set<ListingId>, userId: UserId)
    returns (status: Status, entries: seq<Entry>)
    requires store.Valid()
    ensures status == Internal500 || status == Ok200
    ensures status == Internal500 <==>
      exists x :: x in Candidates(store, userId) && !Resolvable(x, usernames, listings)
    ensures status == Ok200 ==>
      (forall x :: x in KeepFirst(Candidates(store, userId), SenderListing, {}) ==> Resolvable(x, usernames, listings)) &&
      entries == Project(KeepFirst(Candidates(store, userId), SenderListing, {}), usernames)
  {
    var messages := Candidates(store, userId);
    var ok, unique := KeepFirstPerSenderListing(messages, usernames, listings);
    if !ok {
      return Internal500, [];
    }
    KeepFirstIsSubseq(messages, SenderListing, {});
    SubseqMembers(unique, messages);
    status, entries := Ok200, Project(unique, usernames);
  }

  /** For every kept message, no other candidate from the same sender about the same listing
      is newer: the entry that survives is the most recent one. */
  lemma KeptIsNewest(store: MessageStore, u: UserId)
    requires store.Valid()
    ensures var c := Candidates(store, u);
      forall x, y :: x in KeepFirst(c, SenderListing, {}) && y in c && SenderListing(y) == SenderListing(x) ==>
        y.rec.createdAt <= x.rec.createdAt
  {
    var c := Candidates(store, u);
    KeepFirstKeepsFirst(c, SenderListing, {});
    forall x, y | x in KeepFirst(c, SenderListing, {}) && y in c && SenderListing(y) == SenderListing(x)
      ensures y.rec.createdAt <= x.rec.createdAt
    {
      var i := FirstWithKey(c, SenderListing, SenderListing(x));
      var j :| 0 <= j < |c| && c[j] == y;
      assert i <= j;
    }
  }

  /** `PUT /mark-read/:notifId` is the chat controller's handler: it flips the `read` flag
      of a `Message`, not of a `Notification` document. */
  method MarkRead(store: MessageStore, notifId: nat) returns (status: Status)
    requires store.Valid()
    modifies store
    ensures store.Valid() && store.nextId == old(store.nextId)
    ensures status == NotFound404 <==> notifId !in old(store.messages)
    ensures status == NotFound404 || status == Ok200
    ensures status == NotFound404 ==> store.messages == old(store.messages)
    ensures status == Ok200 ==>
      store.messages == old(store.messages)[notifId := old(store.messages)[notifId].(read := true)]
    ensures status == Ok200 && old(store.messages)[notifId].read ==> store.messages == old(store.messages)
  {
    status := ChatController.MarkMessageAsRead(store, notifId);
  }
}
