/**
 * The favorites store of `src/store/favoritesStore.js`: the favourite
 * products as listed by the server, and the set of their ids that the
 * heart buttons consult.
 */
module FavoritesStore {
  import opened Wrappers
  import opened Text

  /** A product as listed: MongoDB's `_id`, or a plain `id`. */
  datatype Product = Product(mongoId: Option<string>, id: Option<string>)

  /** `p._id || p.id`: the `_id` when it is truthy, otherwise `id` (possibly absent). */
  function Key(p: Product): Option<string> {
    if Truthy(p.mongoId) then p.mongoId else p.id
  }

  /** `new Set(products.map(p => p._id || p.id))`. */
  function IdsOf(ps: seq<Product>): set<Option<string>> {
    set i | 0 <= i < |ps| :: Key(ps[i])
  }

  /** `favorites.filter(p => (p._id || p.id) !== productId)`. */
  function Without(ps: seq<Product>, productId: string): (r: seq<Product>)
    ensures |r| <= |ps|
    ensures forall p :: p in r <==> p in ps && Key(p) != Some(productId)
    decreases |ps|
  {
    if ps == [] then []
    else
      var rest := Without(ps[1..], productId);
      if Key(ps[0]) != Some(productId) then [ps[0]] + rest else rest
  }

  /**
   * The filter keeps the surviving products in their original order: it
   * distributes over concatenation, so with the membership clause above it
   * determines the result completely.
   */
  lemma {:induction false} WithoutAppend(a: seq<Product>, b: seq<Product>, productId: string)
    ensures Without(a + b, productId) == Without(a, productId) + Without(b, productId)
    decreases |a|
  {
    if a == [] {
      assert a + b == b;
    } else {
      assert (a + b)[0] == a[0];
      assert (a + b)[1..] == a[1..] + b;
      WithoutAppend(a[1..], b, productId);
    }
  }

  /** Removing an id nobody has changes nothing. */
  lemma {:induction false} WithoutAbsentIsIdentity(ps: seq<Product>, productId: string)
    requires forall i :: 0 <= i < |ps| ==> Key(ps[i]) != Some(productId)
    ensures Without(ps, productId) == ps
    decreases |ps|
  {
    if ps != [] {
      WithoutAbsentIsIdentity(ps[1..], productId);
      assert [ps[0]] + ps[1..] == ps;
    }
  }

  /** Every listed product's id is among the favourite ids. */
  ghost predicate ListedAreFavorite(ps: seq<Product>, ids: set<Option<string>>) {
    forall p :: p in ps ==> Key(p) in ids
  }

  /**
   * `setFavorites` establishes the invariant, and the id set it builds holds
   * the listed products' keys and nothing else.
   */
  lemma SetEstablishesListed(ps: seq<Product>)
    ensures ListedAreFavorite(ps, IdsOf(ps))
    ensures forall k :: k in IdsOf(ps) <==> exists p :: p in ps && Key(p) == k
  {
    forall p | p in ps ensures Key(p) in IdsOf(ps) {
      var i :| 0 <= i < |ps| && ps[i] == p;
    }
  }

  /** `removeFavorite` preserves it: the products it drops are exactly those with that id. */
  lemma RemovePreservesListed(ps: seq<Product>, ids: set<Option<string>>, productId: string)
    requires ListedAreFavorite(ps, ids)
    ensures ListedAreFavorite(Without(ps, productId), ids - {Some(productId)})
  {
  }

  /** `addFavorite` preserves it too, since it only grows the set. */
  lemma AddPreservesListed(ps: seq<Product>, ids: set<Option<string>>, productId: string)
    requires ListedAreFavorite(ps, ids)
    ensures ListedAreFavorite(ps, ids + {Some(productId)})
  {
  }

  class Store {
    var favorites: seq<Product>
    var favoriteIds: set<Option<string>>
    var isLoading: bool

    /** `isFavorite`: membership in the id set, and nothing else. */
    predicate IsFavorite(productId: string)
      reads this
    {
      Some(productId) in favoriteIds
    }

    constructor ()
      ensures favorites == [] && favoriteIds == {} && !isLoading
    {
      favorites, favoriteIds, isLoading := [], {}, false;
    }

    method SetFavorites(ps: seq<Product>)
      modifies this
      ensures favorites == ps && favoriteIds == IdsOf(ps) && isLoading == old(isLoading)
      ensures ListedAreFavorite(favorites, favoriteIds)
    {
      favorites := ps;
      favoriteIds := IdsOf(ps);
    }

    /** Adds the id; the product list is untouched, and adding a present id changes nothing. */
    method AddFavorite(productId: string)
      modifies this
      ensures favoriteIds == old(favoriteIds) + {Some(productId)}
      ensures favorites == old(favorites) && isLoading == old(isLoading)
      ensures IsFavorite(productId)
      ensures old(IsFavorite(productId)) ==> favoriteIds == old(favoriteIds)
    {
      favoriteIds := favoriteIds + {Some(productId)};
    }

    /** Removes the id, and drops every listed product with that id, keeping the others in order. */
    method RemoveFavorite(productId: string)
      modifies this
      ensures favoriteIds == old(favoriteIds) - {Some(productId)}
      ensures favorites == Without(old(favorites), productId)
      ensures isLoading == old(isLoading)
      ensures !IsFavorite(productId)
    {
      favoriteIds := favoriteIds - {Some(productId)};
      favorites := Without(favorites, productId);
    }

    method ClearFavorites()
      modifies this
      ensures favorites == [] && favoriteIds == {} && isLoading == old(isLoading)
    {
      favorites, favoriteIds := [], {};
    }

    method SetLoading(b: bool)
      modifies this
      ensures isLoading == b && favorites == old(favorites) && favoriteIds == old(favoriteIds)
    {
      isLoading := b;
    }
  }
}
