/** The favourites controller: each user document keeps a `favorites` list of listing ids. */
module FavouritesController {
  import opened Common
  import opened Seqs

  /** The `User` collection, reduced to each user's `favorites` list. */
  class UserStore {
    var favorites: map<UserId, seq<ListingId>>

    constructor (favorites: map<UserId, seq<ListingId>>)
      ensures this.favorites == favorites
    {
      this.favorites := favorites;
    }
  }

  /** `addFavorite`: 404 for an unknown user; 400, list untouched, when the listing is already
      a favourite; otherwise 200 and the listing is appended at the end. A duplicate-free list
      stays duplicate-free. */
  method AddFavorite(users: UserStore, userId: UserId, listingId: ListingId) returns (status: Status)
    modifies users
    ensures status == NotFound404 <==> userId !in old(users.favorites)
    ensures status == BadRequest400 <==> userId in old(users.favorites) && listingId in old(users.favorites)[userId]
    ensures status == NotFound404 || status == BadRequest400 || status == Ok200
    ensures status != Ok200 ==> users.favorites == old(users.favorites)
    ensures status == Ok200 ==>
      users.favorites == old(users.favorites)[userId := old(users.favorites)[userId] + [listingId]]
    ensures userId in old(users.favorites) && Distinct(old(users.favorites)[userId]) ==>
      Distinct(users.favorites[userId])
  {
    if userId !in users.favorites {
      return NotFound404;
    }
    var favs := users.favorites[userId];
    if listingId in favs {
      return BadRequest400;
    }
    users.favorites := users.favorites[userId := favs + [listingId]];
    status := Ok200;
  }

  /** `removeFavorite`: 404 for an unknown user; otherwise 200, also when the listing was not
      a favourite, and every occurrence of the listing is filtered out. */
  method RemoveFavorite(users: UserStore, userId: UserId, listingId: ListingId) returns (status: Status)
    modifies users
    ensures status == NotFound404 <==> userId !in old(users.favorites)
    ensures status == NotFound404 || status == Ok200
    ensures status == NotFound404 ==> users.favorites == old(users.favorites)
    ensures status == Ok200 ==>
      users.favorites == old(users.favorites)[userId := Without(old(users.favorites)[userId], listingId)]
  {
    if userId !in users.favorites {
      return NotFound404;
    }
    users.favorites := users.favorites[userId := Without(users.favorites[userId], listingId)];
    status := Ok200;
  }

  /** `getFavorites`: 404 for an unknown user, otherwise 200 and the user's list as stored. */
  method GetFavorites(users: UserStore, userId: UserId) returns (status: Status, favorites: seq<ListingId>)
    ensures status == NotFound404 <==> userId !in users.favorites
    ensures status == NotFound404 || status == Ok200
    ensures status == Ok200 ==> favorites == users.favorites[userId]
  {
    if userId !in users.favorites {
      return NotFound404, [];
    }
    status, favorites := Ok200, users.favorites[userId];
  }
}
