/** The client's `favorites` slice: the favourite listing ids together with the loading and
    error flags of the three requests that change them (fetch, add and remove). */
module FavoriteSlice {
  import opened Common
  import opened Seqs

  /** A populated listing as `GET /api/favorites` returns it; only `_id` is used here. */
  datatype FavoriteListing = FavoriteListing(id: ListingId, name: string)

  /** The result of `fetchFavorites`: `res.data.map((favorite) => favorite._id)`, one id per
      returned listing, in the same order. */
  function FavoriteIds(listings: seq<FavoriteListing>): (ids: seq<ListingId>)
    ensures |ids| == |listings|
    ensures forall i :: 0 <= i < |listings| ==> ids[i] == listings[i].id
  {
    if listings == [] then [] else [listings[0].id] + FavoriteIds(listings[1..])
  }

  class FavoritesState {
    var items: seq<ListingId>
    var loading: bool
    var error: Option<string>

    /** `initialState`. */
    constructor ()
      ensures items == [] && !loading && error == None
    {
      items, loading, error := [], false, None;
    }

    /** `setFavorites`: replaces the list, nothing else. */
    method SetFavorites(payload: seq<ListingId>)
      modifies this
      ensures items == payload && loading == old(loading) && error == old(error)
    {
      items := payload;
    }

    /** `pending` of fetch, add and remove (the three reducers are identical): loading starts,
        the error is cleared, the list is untouched. */
    method Pending()
      modifies this
      ensures loading && error == None && items == old(items)
    {
      loading := true;
      error := None;
    }

    /** `rejected` of fetch, add and remove (identical): loading stops, the payload becomes
        the error, the list is untouched. */
    method Rejected(payload: string)
      modifies this
      ensures !loading && error == Some(payload) && items == old(items)
    {
      loading := false;
      error := Some(payload);
    }

    /** `fetchFavorites.fulfilled`: the fetched ids replace the list; the error is left as is. */
    method FetchFulfilled(payload: seq<ListingId>)
      modifies this
      ensures !loading && items == payload && error == old(error)
    {
      loading := false;
      items := payload;
    }

    /** `addFavoriteAsync.fulfilled`: the id is pushed at the end with no duplicate check, so
        the list grows by exactly one. */
    method AddFulfilled(payload: ListingId)
      modifies this
      ensures !loading && items == old(items) + [payload] && error == old(error)
      ensures |items| == |old(items)| + 1
    {
      loading := false;
      items := items + [payload];
    }

    /** `removeFavoriteAsync.fulfilled`: every occurrence of the id is filtered out, the other
        ids keep their order. */
    method RemoveFulfilled(payload: ListingId)
      modifies this
      ensures !loading && error == old(error)
      ensures items == Without(old(items), payload)
      ensures payload !in items && IsSubseq(items, old(items))
    {
      loading := false;
      WithoutIsOrderedRemoval(items, payload);
      items := Without(items, payload);
    }
  }
}
