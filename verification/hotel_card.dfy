/** The wishlist heart on a hotel card. The wishlist is a list of hotels
    kept in the browser's local storage under one key; a card starts
    liked when its hotel is on that list, and each press of the heart
    removes the hotel from the list or appends it, writes the list back
    and flips the card's flag. */
module HotelCard {

  import opened Wrappers
  import opened HotelsPage
  import Sequences

  /** Some entry of `list` has the id `id` (`wishlist.some(...)`). */
  function InList(list: seq<Hotel>, id: string): (r: bool)
    ensures r <==> exists k :: 0 <= k < |list| && list[k].id == id
  {
    if list == [] then false
    else
      assert forall k :: 0 < k < |list| ==> list[k] == list[1..][k - 1];
      list[0].id == id || InList(list[1..], id)
  }

  /** `wishlist.filter(item => item._id !== id)`: every entry with that
      id goes, all others stay, in order. */
  function RemoveId(list: seq<Hotel>, id: string): (r: seq<Hotel>)
    ensures !InList(r, id)
    ensures forall h :: h in r <==> h in list && h.id != id
    ensures |r| <= |list|
  {
    if list == [] then []
    else
      assert list == [list[0]] + list[1..];
      var rest := RemoveId(list[1..], id);
      if list[0].id != id then [list[0]] + rest else rest
  }

  /** Every entry with another id stays as many times as the list holds
      it. */
  lemma {:induction false} RemoveIdCounts(list: seq<Hotel>, id: string)
    ensures forall h: Hotel :: h.id != id ==> multiset(RemoveId(list, id))[h] == multiset(list)[h]
  {
    if list != [] {
      RemoveIdCounts(list[1..], id);
      assert list == [list[0]] + list[1..];
    }
  }

  /** Removing an id the list does not hold leaves the list as it is. */
  lemma {:induction false} RemoveAbsentId(list: seq<Hotel>, id: string)
    requires !InList(list, id)
    ensures RemoveId(list, id) == list
  {
    if list != [] {
      assert !InList(list[1..], id);
      RemoveAbsentId(list[1..], id);
      assert list == [list[0]] + list[1..];
    }
  }

  /** Removing from a concatenation removes from each part. */
  lemma {:induction false} RemoveIdConcat(a: seq<Hotel>, b: seq<Hotel>, id: string)
    ensures RemoveId(a + b, id) == RemoveId(a, id) + RemoveId(b, id)
  {
    if a == [] {
      assert a + b == b;
    } else {
      var head := if a[0].id != id then [a[0]] else [];
      assert RemoveId(a + b, id) == head + RemoveId(a[1..] + b, id) by {
        assert (a + b)[0] == a[0] && (a + b)[1..] == a[1..] + b;
      }
      RemoveIdConcat(a[1..], b, id);
      Sequences.ConcatAssociates(head, RemoveId(a[1..], id), RemoveId(b, id));
    }
  }

  /** Liking a hotel the list did not hold and then unliking it gives
      the list back unchanged. */
  lemma LikeThenUnlikeRestores(list: seq<Hotel>, hotel: Hotel)
    requires !InList(list, hotel.id)
    ensures RemoveId(list + [hotel], hotel.id) == list
  {
    RemoveIdConcat(list, [hotel], hotel.id);
    RemoveAbsentId(list, hotel.id);
    assert RemoveId([hotel], hotel.id) == [];
  }

  /** The list a stored value stands for: a missing (or empty) entry is
      an empty list. */
  function Stored(saved: Option<seq<Hotel>>): seq<Hotel>
  {
    if saved.Some? then saved.value else []
  }

  /** The local-storage entry shared by every card. */
  class WishlistStorage {
    /** The parsed value under the wishlist key; `None` when it is not
        set. */
    var saved: Option<seq<Hotel>>

    constructor (saved: Option<seq<Hotel>>)
      ensures this.saved == saved
    {
      this.saved := saved;
    }
  }

  class Card {
    /** The hotel the card shows. */
    const data: Hotel
    var isLiked: bool

    /** The card as it mounts: liked exactly when the stored list holds
        an entry with the hotel's id. */
    constructor (data: Hotel, storage: WishlistStorage)
      ensures this.data == data
      ensures isLiked <==> InList(Stored(storage.saved), data.id)
    {
      this.data := data;
      isLiked := InList(Stored(storage.saved), data.id);
    }

    /** `handleWishlistToggle`. A liked card removes every entry with its
        hotel's id; an unliked one appends the hotel. The new list is
        written back and the flag flips, after which the flag agrees
        with the stored list whatever it was before. */
    method Toggle(storage: WishlistStorage)
      modifies this, storage
      ensures isLiked == !old(isLiked)
      ensures old(isLiked) ==> storage.saved == Some(RemoveId(Stored(old(storage.saved)), data.id))
      ensures !old(isLiked) ==> storage.saved == Some(Stored(old(storage.saved)) + [data])
      ensures isLiked <==> InList(Stored(storage.saved), data.id)
    {
      var wishlist := Stored(storage.saved);
      if isLiked {
        wishlist := RemoveId(wishlist, data.id);
      } else {
        wishlist := wishlist + [data];
        assert wishlist[|wishlist| - 1] == data;
      }
      storage.saved := Some(wishlist);
      isLiked := !isLiked;
    }
  }
}
