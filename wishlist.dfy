/**
 * `addToWishlist` of assets/JS/product-details.js: the wishlist is a list
 * of product ids kept in the browser's storage; a signed-in user's click
 * appends the product unless it is already there.  Whether the user is
 * signed in is an input.
 */
module Wishlist {

  /** Which notification the click produces. */
  datatype AddOutcome = SignInRequired | Added | AlreadyInWishlist

  /** No id occurs twice. */
  predicate NoDuplicates(ids: seq<int>)
  {
    forall i, j :: 0 <= i < j < |ids| ==> ids[i] != ids[j]
  }

  /**
   * The wishlist after the click: unchanged when signed out or when the
   * id is already present, otherwise one longer with the id at the end.
   */
  function AfterAdd(wishlist: seq<int>, productId: int, authenticated: bool): (r: seq<int>)
    ensures |wishlist| <= |r| <= |wishlist| + 1
    ensures r[..|wishlist|] == wishlist
    ensures !authenticated || productId in wishlist ==> r == wishlist
    ensures authenticated ==> productId in r
    ensures NoDuplicates(wishlist) ==> NoDuplicates(r)
  {
    if authenticated && productId !in wishlist then wishlist + [productId] else wishlist
  }

  /** The notification shown for the click. */
  function Outcome(wishlist: seq<int>, productId: int, authenticated: bool): (r: AddOutcome)
    ensures r == SignInRequired <==> !authenticated
    ensures r == Added <==> AfterAdd(wishlist, productId, authenticated) != wishlist
    ensures r == AlreadyInWishlist <==> authenticated && productId in wishlist
  {
    if !authenticated then SignInRequired
    else if productId in wishlist then AlreadyInWishlist
    else Added
  }

  /** A new id lands at the end, after all earlier entries in their order. */
  lemma AddAppends(wishlist: seq<int>, productId: int)
    requires productId !in wishlist
    ensures AfterAdd(wishlist, productId, true) == wishlist + [productId]
    ensures Outcome(wishlist, productId, true) == Added
  {
    var r := AfterAdd(wishlist, productId, true);
    assert |r| == |wishlist| + 1;
    assert r == r[..|wishlist|] + [r[|wishlist|]];
  }

  /** The stored wishlist. */
  class WishlistStore {
    var wishlist: seq<int>

    constructor (stored: seq<int>)
      ensures wishlist == stored
    {
      wishlist := stored;
    }

    /**
     * `addToWishlist`: a signed-out user is only told to sign in; a new id
     * is pushed onto the list and the list written back.
     */
    method AddToWishlist(productId: int, authenticated: bool) returns (outcome: AddOutcome)
      modifies this
      ensures wishlist == AfterAdd(old(wishlist), productId, authenticated)
      ensures outcome == Outcome(old(wishlist), productId, authenticated)
    {
      if !authenticated {
        return SignInRequired;
      }
      if productId !in wishlist {
        wishlist := wishlist + [productId];
        outcome := Added;
      } else {
        outcome := AlreadyInWishlist;
      }
    }
  }
}
