# BRICKnCLICK chat, notification and favourites core — a Dafny model

This project models the stateful core of the BRICKnCLICK real-estate app:

- the chat `Message` collection and the handlers that query, send, soft-delete, hard-delete
  and mark messages read (the controller and the older route file);
- the two notification paths: the `Notification` collection with its best-effort creation,
  per-recipient list and read flag, and the routed list derived from messages, de-duplicated
  per (sender, listing) with a `seen` set;
- the user's favourite listings, on the server (add without duplicates, remove by filtering)
  and in the client's `favorites` slice;
- the client's `user` slice, with its avatar URL rule;
- the two analytics charts: the price-range classifier with its tallies and totals, and the
  amenity counters.

A collection is a class holding a map from `_id` to document plus the counter that hands out
ids, so ascending id order is insertion order. A `find(...).sort(...)` query is a selection in
insertion order followed by a stable insertion sort. HTTP answers are `Status` values (200, 201,
400, 403, 404, 500). The clock is passed in as `now`, in milliseconds. Other collections the
handlers consult are parameters: the listings as a map from id to name, the users as a set or a
map from id to username. A missing or empty request field stands for every falsy value the
handlers test (`undefined`, `null`, `""`).

Where the code and its design notes disagree, the model follows the code:

- `deleteMessage` does not check who asks, because the sender check is commented out.
- `deleteMessage` deletes an already soft-deleted message again, with 200, when it is still
  inside the window.
- `sendMessage` stores the message before it looks up the listing. An unknown listing
  therefore gives 404 with the message already stored.
- The `/send` route checks nothing itself. The schema's required fields (sender, receiver,
  text) make `save()` throw, and the handler answers 500.
- The routed notification list is built from `Message` documents. The `Notification`
  collection is written, best-effort, only by the controller's `sendMessage` once the listing
  is found; the `/send` route writes none. The client never lists that collection.
- The routed notification list answers 500 when a received message has no listing, or when its
  sender or listing no longer exists. `msg.senderId._id` or `msg.listingId._id` then throws
  inside the filter.

## Model

| member | source | states |
|---|---|---|
| Messages.MessageStore.Insert | api/controllers/chat.controller.js:43-50 | `Message.create` stores the document under an id not used before and changes no other document |
| Messages.MessageStore.Save | api/controllers/chat.controller.js:122-123 | saving a found document replaces that document only |
| Messages.MessageStore.Remove | api/routes/chat.route.js:66 | deleting a document removes exactly that id from the collection |
| Messages.MessageStore.Find | api/controllers/chat.controller.js:12-18 | `find(filter)` returns exactly the stored documents matching the filter, each once, in insertion order |
| Query.Select | api/controllers/chat.controller.js:12-18 | a selection contains exactly the stored documents satisfying the filter, with strictly increasing ids |
| Query.SortBy | api/controllers/chat.controller.js:22 | `.sort({key: 1})` returns a permutation of its input, ordered by the key, and keeps a duplicate-free input duplicate-free |
| ChatController.GetMessages | api/controllers/chat.controller.js:12-22 | exactly the messages between the two users, in either direction, that are not soft-deleted; each appears once; `sentAt` never decreases |
| ChatController.GetMessagesSymmetric | api/controllers/chat.controller.js:12-18 | swapping the two users gives the same sequence |
| ChatController.SendMessage | api/controllers/chat.controller.js:34-82 | 400 and nothing stored iff sender, receiver, text or listing is missing; otherwise one new unread, undeleted message with `sentAt = now` and the authenticated sender; 404 iff the listing is unknown, with the message already stored and no notification; otherwise 201 whether or not the notification is saved |
| ChatController.DeleteMessage | api/controllers/chat.controller.js:93-131 | 404 iff the id is unknown; 500 iff sender or receiver no longer resolves; 403 iff `sentAt < now - 300000`, so a message exactly 5 minutes old can still be deleted; otherwise 200, only `deleted` becomes true and the document stays; who asks plays no part |
| ChatController.MarkMessageAsRead | api/controllers/chat.controller.js:140-150 | 404 iff the id is unknown and nothing changes; otherwise only `read` becomes true; a second call changes nothing |
| ChatRoute.Send | api/routes/chat.route.js:16-30 | 500 and nothing stored iff sender, receiver or text is missing, because the schema requires them; otherwise 200 and one new message with no listing, stamped `now` |
| ChatRoute.GetMessages | api/routes/chat.route.js:39-49 | exactly the messages between the two users in either direction, soft-deleted ones included; each once; `createdAt` never decreases |
| ChatRoute.RouteShowsDeleted | api/routes/chat.route.js:42-46 | the route returns everything the controller's query returns, and what it adds is soft-deleted |
| ChatRoute.Delete | api/routes/chat.route.js:57-68 | 404 iff the id is unknown, and nothing changes; otherwise 200 and exactly that document is removed, with no time or ownership check |
| NotificationsRoute.Candidates | api/routes/notifications.route.js:9-12 | exactly the received, not soft-deleted messages of the user, each once, `createdAt` never increasing |
| NotificationsRoute.KeepFirstPerSenderListing | api/routes/notifications.route.js:14-21 | the `seen`-set loop fails iff some message does not resolve; otherwise it returns the first message per (sender, listing) key |
| NotificationsRoute.KeepFirstKeysDistinct | api/routes/notifications.route.js:15-21 | no two kept messages share a (sender, listing) key |
| NotificationsRoute.KeepFirstCoversKeys | api/routes/notifications.route.js:15-21 | the kept keys are exactly the keys of the input, so every key appears, and by the previous row exactly once |
| NotificationsRoute.KeepFirstKeepsFirst | api/routes/notifications.route.js:15-21 | each kept message is the first message of the input with its key |
| NotificationsRoute.KeepFirstIsSubseq | api/routes/notifications.route.js:16-21 | the output is a subsequence of the input: relative order kept, length at most the input's |
| NotificationsRoute.KeptIsNewest | api/routes/notifications.route.js:9-21 | no candidate with the same sender and listing is newer than the kept one |
| NotificationsRoute.Project | api/routes/notifications.route.js:23-31 | one entry per kept message, in order, carrying its id, sender's username, listing id and `sentAt` |
| NotificationsRoute.GetNotifications | api/routes/notifications.route.js:7-31 | 500 iff a candidate's sender or listing does not resolve; otherwise 200 with the projection of the first message per key of the newest-first candidates |
| NotificationsRoute.MarkRead | api/routes/notifications.route.js:39 | mark-read is the chat controller's handler: it flips `read` on a message, 404 for an unknown id |
| Notifications.NotificationStore.Insert | api/controllers/notifications.controller.js:6-12 | the notification is stored under a fresh id iff its four required fields are present and the write does not fail; otherwise nothing changes |
| Notifications.NotificationStore.Save | api/controllers/notifications.controller.js:40-41 | saving a found notification replaces that notification only |
| Notifications.NotificationStore.Find | api/controllers/notifications.controller.js:21 | `find(filter)` returns exactly the matching notifications, each once, in insertion order |
| NotificationsController.CreateNotification | api/controllers/notifications.controller.js:4-16 | never fails towards the caller; the store gains exactly one unread notification with the four given fields and `sentAt = now`, or stays unchanged |
| NotificationsController.GetNotifications | api/controllers/notifications.controller.js:19-24 | exactly the notifications addressed to the user, each once (no de-duplication), `sentAt` never increasing |
| NotificationsController.MarkNotificationAsRead | api/controllers/notifications.controller.js:34-42 | 404 iff the id is unknown and nothing changes; otherwise only `isRead` becomes true; repeating it changes nothing |
| FavouritesController.AddFavorite | api/controllers/favourites.controller.js:4-19 | 404 iff the user is unknown; 400 iff the listing is already a favourite; in both cases nothing changes; otherwise 200 and the id is appended; a duplicate-free list stays duplicate-free |
| FavouritesController.RemoveFavorite | api/controllers/favourites.controller.js:25-36 | 404 iff the user is unknown; otherwise 200, also for an absent id, and the list becomes the list without the id |
| FavouritesController.GetFavorites | api/controllers/favourites.controller.js:42-49 | 404 iff the user is unknown; otherwise 200 and the stored list |
| Seqs.Without | api/controllers/favourites.controller.js:33 | filtering removes the id, keeps every other value present, and never lengthens the list |
| Seqs.WithoutIsOrderedRemoval | api/controllers/favourites.controller.js:33 | the filtered list is a subsequence of the original with each other value's multiplicity unchanged |
| Seqs.WithoutAbsentAndIdempotent | api/controllers/favourites.controller.js:33-36 | removing an absent id changes nothing; removing twice is removing once |
| FavoriteSlice.FavoriteIds | client/src/redux/user/favoriteSlice.js:17 | the fetched listings map to their ids one to one, same length and order |
| FavoriteSlice.FavoritesState.constructor | client/src/redux/user/favoriteSlice.js:68-72 | the initial state is no items, not loading, no error |
| FavoriteSlice.FavoritesState.SetFavorites | client/src/redux/user/favoriteSlice.js:74-76 | the items are replaced wholesale; loading and error stay |
| FavoriteSlice.FavoritesState.Pending | client/src/redux/user/favoriteSlice.js:80-83 | each of the three identical pending cases (also lines 92-95, 104-107) sets loading, clears the error and keeps the items |
| FavoriteSlice.FavoritesState.Rejected | client/src/redux/user/favoriteSlice.js:88-91 | each of the three identical rejected cases (also lines 100-103, 112-115) stops loading, stores the payload as error and keeps the items |
| FavoriteSlice.FavoritesState.FetchFulfilled | client/src/redux/user/favoriteSlice.js:84-87 | the fetched ids replace the items; loading stops; the error stays |
| FavoriteSlice.FavoritesState.AddFulfilled | client/src/redux/user/favoriteSlice.js:96-99 | the id is appended with no duplicate check, so the list grows by exactly one |
| FavoriteSlice.FavoritesState.RemoveFulfilled | client/src/redux/user/favoriteSlice.js:108-111 | every occurrence of the id is removed and the remaining ids keep their order |
| UserSlice.NormalizeAvatar | client/src/redux/user/userSlice.js:23-25 | an empty or "http" avatar is unchanged; the result is empty or starts with "http", and it ends with the given avatar |
| UserSlice.NormalizeAvatarIdempotent | client/src/redux/user/userSlice.js:2-25 | normalising twice is normalising once, because `SERVER_URL` starts with "http" |
| UserSlice.WithNormalAvatar | client/src/redux/user/userSlice.js:22-25 | only the avatar field of the signed-in user object changes, to its normalised form |
| UserSlice.WithNormalAvatarIdempotent | client/src/redux/user/userSlice.js:22-25 | signing in with an already normalised user changes nothing further |
| UserSlice.UserState.constructor | client/src/redux/user/userSlice.js:4-9 | the initial state: no user, no token, not loading, no error |
| UserSlice.UserState.SignInStart | client/src/redux/user/userSlice.js:15-18 | loading, error cleared, user and token kept |
| UserSlice.UserState.SignInSuccess | client/src/redux/user/userSlice.js:19-30 | the current user is the user with its avatar normalised, the token is the user's token, not loading, no error |
| UserSlice.UserState.SignInFailure | client/src/redux/user/userSlice.js:31-34 | loading stops and the payload becomes the error; user and token are kept |
| UserSlice.UserState.NoError | client/src/redux/user/userSlice.js:35-37 | only the error is cleared |
| UserSlice.UserState.SignOut | client/src/redux/user/userSlice.js:38-43 | exactly the initial state again |
| UserSlice.UserState.UpdateAvatar | client/src/redux/user/userSlice.js:44-52 | nothing happens with nobody signed in; otherwise only the user's avatar changes, to the normalised payload |
| UserSlice.UserState.UpdateUser | client/src/redux/user/userSlice.js:53-55 | payload fields win, every other field of the current user is kept; with nobody signed in the payload becomes the user |
| PriceDistribution.Bucket | client/src/components/PriceDistribution.jsx:7-17 | each price falls in exactly one of four half-open ranges bounded by 500/1000/1500 for rent and 50000/100000/200000 otherwise |
| PriceDistribution.CategorizePrice | client/src/components/PriceDistribution.jsx:6-18 | total: one of the four rent labels for 'rent', one of the four sale labels otherwise, and a label is returned iff the price lies in its range |
| PriceDistribution.BucketMonotone | client/src/components/PriceDistribution.jsx:7-17 | a higher price never lands in an earlier range |
| PriceDistribution.Tally | client/src/components/PriceDistribution.jsx:20-31 | the loop computes the two per-range tallies |
| PriceDistribution.RentCountsIgnoreOthers | client/src/components/PriceDistribution.jsx:23-31 | records that are not 'rent' never change `rentCounts` |
| PriceDistribution.SellCountsIgnoreRent | client/src/components/PriceDistribution.jsx:23-31 | 'rent' records never change `sellCounts` |
| PriceDistribution.TotalsAreSideSums | client/src/components/PriceDistribution.jsx:86-87 | `totalRent` is the sum of `rent or 0` over the 'rent' records, `totalSell` the sum of `sell or 0` over the others |
| AmenitiesChart.CountBounds | client/src/components/AmenitiesChart.jsx:17-23 | each counter is at most the number of listings, and so is rent plus sell |
| AmenitiesChart.BarData | client/src/components/AmenitiesChart.jsx:15-30 | the counters start at 0; each equals the number of listings with that feature; the data is in the order carParking, discount, furnished, rent, sell |

## Left out

- Socket.io pushes (`newNotification`, `getMessage`, `deleteMessage` events) and the client
  socket code: network delivery is best-effort and outside the stored state.
- Mongoose `populate` of display fields (usernames, avatars, listing names) in the query
  answers. Stored references are opaque ids. Only the lookups whose failure changes the answer
  are modelled: users in `deleteMessage`, listings in `sendMessage`, and sender and listing in
  the notification route.
- The 500 answers for database or network failures, and for ids that are not valid ObjectIds.
  The one failure modelled is the notification write, because its swallowing is the point of
  `createNotification`.
- The check-then-write race in delete: concurrency is not modelled.
- ChatController.SendMessage: returns the new message's id, not the populated document.
- NotificationsRoute.Project: the `propertyTitle` field is not in the entry. It reads `title`
  from a listing whose schema has only `name`, so it is always undefined.
- NotificationsRoute.SenderListing: the key is a pair, not the joined string
  `${sender}_${listing}`. For ObjectIds, which contain no `_`, the two are equivalent.
- Query.SortBy: equal keys keep insertion order. MongoDB leaves that order open, so this
  is one of its allowed orders.
- FavouritesController.AddFavorite and RemoveFavorite take the listing id as a parameter. The
  handlers read it from the request body, while the routes put it in the path.
- Favourites: `populate("favorites")` in `getFavorites`, which drops references to deleted
  listings, is not modelled. The stored list is returned.
- UserSlice: user objects are maps from field name to string. Other JSON value kinds, and the
  in-place rewrite of the action payload in `signInSuccess`, are not modelled.
- PriceDistribution: prices are integers. JavaScript floating point, and missing or NaN
  prices, are not modelled.
- JWT checking, password hashing, uploads, OAuth, the server bootstrap and all page markup and
  form checks are outside this core.
