/**
 * The pure logic of the product detail page
 * (`src/pages/user/ProductDetailPage.jsx`): the image URL rule, the bounded
 * quantity stepper, the favourite flag and its toggle, and the login guards
 * in front of the cart and favourite mutations.
 */
module ProductDetail {
  import opened Wrappers
  import opened Text
  import FavoritesStore

  /**
   * `getImageUrl`: a missing or empty image gives no URL, a root-relative
   * path is served from the API server, anything else is used as it is.
   * `serverUrl` is the configured `SERVER_URL`.
   */
  function ImageUrl(serverUrl: string, image: Option<string>): Option<string> {
    if !Truthy(image) then None
    else if StartsWith(image.value, "/") then Some(serverUrl + image.value)
    else image
  }

  /** With an absolute server URL, resolving an already resolved URL changes nothing. */
  lemma ImageUrlIdempotent(serverUrl: string, image: Option<string>)
    requires serverUrl != "" && serverUrl[0] != '/'
    ensures ImageUrl(serverUrl, image).Some? ==>
      ImageUrl(serverUrl, ImageUrl(serverUrl, image)) == ImageUrl(serverUrl, image)
  {
    if Truthy(image) && StartsWith(image.value, "/") {
      var r := serverUrl + image.value;
      assert r[..1] == serverUrl[..1];
    }
  }

  // ---------------------------------------------------------------- quantity

  const INITIAL_QUANTITY := 1

  /** `product?.stock || 1`: a missing product or a stock of 0 caps the quantity at 1. */
  function Cap(stock: Option<int>): int {
    if stock.Some? && stock.value != 0 then stock.value else 1
  }

  /** `handleQuantityChange`: the step is taken only if it lands within 1..cap. */
  function QuantityChange(quantity: int, change: int, stock: Option<int>): (q: int)
    ensures q == quantity || q == quantity + change
    ensures q == quantity + change <==> (1 <= quantity + change <= Cap(stock) || change == 0)
  {
    var n := quantity + change;
    if n >= 1 && n <= Cap(stock) then n else quantity
  }

  /** Starting from 1, the quantity stays at least 1, and within the stock once it is. */
  lemma QuantityStaysInRange(quantity: int, change: int, stock: Option<int>)
    requires quantity >= 1
    ensures QuantityChange(quantity, change, stock) >= 1
    ensures quantity <= Cap(stock) ==> QuantityChange(quantity, change, stock) <= Cap(stock)
  {
  }

  /**
   * The stepper's buttons are disabled at quantity <= 1 and quantity >= stock;
   * with some stock in hand, a click on an enabled button always moves the
   * quantity by one.
   */
  lemma EnabledButtonsMove(quantity: int, stock: int)
    requires stock > 0 && 1 <= quantity <= stock
    ensures !(quantity <= 1) ==> QuantityChange(quantity, -1, Some(stock)) == quantity - 1
    ensures !(quantity >= stock) ==> QuantityChange(quantity, 1, Some(stock)) == quantity + 1
  {
  }

  // ---------------------------------------------------------------- favourites

  /** `isFavorited`: a product is loaded and its id is in the favourite set. */
  predicate IsFavorited(productId: Option<string>, favoriteIds: set<Option<string>>) {
    productId.Some? && Some(productId.value) in favoriteIds
  }

  /** The toggle response: the server's `isFavorited` decides whether the id is added or removed. */
  function ToggleApplied(favoriteIds: set<Option<string>>, productId: string, isFavorited: bool): (ids: set<Option<string>>)
    ensures ids - {Some(productId)} == favoriteIds - {Some(productId)}
  {
    if isFavorited then favoriteIds + {Some(productId)} else favoriteIds - {Some(productId)}
  }

  /** After the toggle, the page shows what the server answered, and no other product changes. */
  lemma ToggleShowsServerAnswer(favoriteIds: set<Option<string>>, productId: string, isFavorited: bool, other: string)
    ensures IsFavorited(Some(productId), ToggleApplied(favoriteIds, productId, isFavorited)) == isFavorited
    ensures other != productId ==>
      IsFavorited(Some(other), ToggleApplied(favoriteIds, productId, isFavorited)) == IsFavorited(Some(other), favoriteIds)
  {
  }

  /** The toggle mutation's success handler, applied to the favourites store. */
  method OnToggleSuccess(store: FavoritesStore.Store, productId: string, isFavorited: bool)
    modifies store
    ensures store.favoriteIds == ToggleApplied(old(store.favoriteIds), productId, isFavorited)
    ensures store.IsFavorite(productId) == isFavorited
    ensures store.favorites == (if isFavorited then old(store.favorites) else FavoritesStore.Without(old(store.favorites), productId))
    ensures store.isLoading == old(store.isLoading)
  {
    if isFavorited {
      store.AddFavorite(productId);
    } else {
      store.RemoveFavorite(productId);
    }
  }

  // ---------------------------------------------------------------- login guards

  datatype Action = AddToCart | ToggleFavorite

  /** What a click leads to: a toast and a visit to /login, or the mutation. */
  datatype Outcome = LoginRequired(toast: string, navigateTo: string) | Mutate(action: Action)

  function GuardMessage(a: Action): string {
    match a
    case AddToCart => "Please login to add items to cart"
    case ToggleFavorite => "Please login to add items to favorites"
  }

  /** `handleAddToCart` and `handleToggleFavorite`. */
  function HandleAction(isAuthenticated: bool, a: Action): Outcome {
    if !isAuthenticated then LoginRequired(GuardMessage(a), "/login") else Mutate(a)
  }

  /** A signed-out visitor never reaches a mutation and is sent to /login; a signed-in one always does. */
  lemma GuardIff(isAuthenticated: bool, a: Action)
    ensures HandleAction(isAuthenticated, a).Mutate? <==> isAuthenticated
    ensures HandleAction(isAuthenticated, a).Mutate? ==> HandleAction(isAuthenticated, a).action == a
    ensures !isAuthenticated ==> HandleAction(isAuthenticated, a).navigateTo == "/login"
  {
  }
}
