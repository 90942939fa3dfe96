/** `RecipeDetailComponent`: how the detail page picks its data (navigation
    state, else the route id looked up in history and favorites), loads the
    recipe and its cover image, and reports errors.

    Each awaited call is split in two: the method that starts it records a
    `Request` and returns, and a second method applies the call's outcome
    when it settles. */
module RecipeDetail {
  import opened Wrappers
  import opened Models
  import opened JsValue
  import opened History
  import opened Favorites

  const MissingIdMessage: string := "加载菜谱失败：未找到菜谱ID。"
  const NotFoundMessage: string := "加载菜谱失败：找不到菜谱数据，它可能来自旧的会话。请返回主页生成新菜单。"
  const DefaultLoadMessage: string := "加载菜谱详情失败，请稍后重试。"

  /** The `imageUrl` signal: `undefined` while an image is being generated,
      `null` when there is none or generation failed, or a URL. */
  datatype ImageSlot = Pending | Failed | Loaded(url: string)

  /** An item's optional `imageUrl` put into the signal: absent is
      `undefined`. */
  function SlotOf(imageUrl: Option<string>): (s: ImageSlot)
    ensures s.Pending? <==> imageUrl.None?
    ensures s.Loaded? ==> imageUrl == Some(s.url)
  {
    match imageUrl
    case None => Pending
    case Some(u) => Loaded(u)
  }

  /** `this.imageUrl()` is truthy: a non-empty URL. */
  predicate HasImage(s: ImageSlot) {
    s.Loaded? && s.url != ""
  }

  /** A call to the AI service that was started and not yet applied. */
  datatype Request = RecipeRequest(dishName: string) | ImageRequest(prompt: string)

  /** `xs.find(i => i.id === id)`: the first record with that id. */
  function FindById(xs: seq<MenuItem>, id: string): (r: Option<MenuItem>)
    ensures r.Some? <==> HasId(xs, id)
    ensures r.Some? ==> r.value.id == id
                        && exists i | 0 <= i < |xs| :: xs[i] == r.value
                             && forall j | 0 <= j < i :: xs[j].id != id
  {
    if |xs| == 0 then None
    else if xs[0].id == id then Some(xs[0])
    else
      var r := FindById(xs[1..], id);
      HasIdSplit(xs, id);
      if r.Some? then
        var i :| 0 <= i < |xs[1..]| && xs[1..][i] == r.value
                 && forall j | 0 <= j < i :: xs[1..][j].id != id;
        assert xs[i + 1] == r.value;
        assert forall j | 0 <= j < i + 1 :: xs[j].id != id by {
          forall j | 0 <= j < i + 1
            ensures xs[j].id != id
          {
            if j > 0 {
              assert xs[j] == xs[1..][j - 1];
            }
          }
        }
        r
      else
        r
  }

  class RecipeDetailComponent {
    const historyService: HistoryService
    const favoriteService: FavoriteService
    var menuItem: Option<MenuItem>
    var recipe: Option<Recipe>
    var imageUrl: ImageSlot
    var isLoading: bool
    var error: Option<string>
    /** Calls to the AI service started by this page, oldest first. */
    var requests: seq<Request>

    /** An error is only ever shown once loading has stopped. */
    predicate Valid()
      reads this
    {
      error.Some? ==> !isLoading
    }

    /** The signals' initial values: no item, no recipe, image `null`,
        loading, no error. */
    constructor (historyService: HistoryService, favoriteService: FavoriteService)
      ensures this.historyService == historyService && this.favoriteService == favoriteService
      ensures menuItem.None? && recipe.None? && imageUrl == Failed
      ensures isLoading && error.None? && requests == []
      ensures Valid()
    {
      this.historyService := historyService;
      this.favoriteService := favoriteService;
      menuItem := None;
      recipe := None;
      imageUrl := Failed;
      isLoading := true;
      error := None;
      requests := [];
    }

    /** The item a route id names: history first, then favorites. */
    function Lookup(id: string): (r: Option<MenuItem>)
      reads this, historyService, favoriteService
      ensures r.Some? <==> HasId(historyService.history, id) || HasId(favoriteService.favorites, id)
      ensures r.Some? ==> r.value.id == id
      ensures HasId(historyService.history, id) ==> r == FindById(historyService.history, id)
      ensures !HasId(historyService.history, id) ==> r == FindById(favoriteService.favorites, id)
    {
      match FindById(historyService.history, id)
      case Some(item) => Some(item)
      case None => FindById(favoriteService.favorites, id)
    }

    /** `handleError`: show the message and stop loading. */
    method HandleError(message: string)
      modifies this
      ensures error == Some(message) && !isLoading
      ensures menuItem == old(menuItem) && recipe == old(recipe) && imageUrl == old(imageUrl)
      ensures requests == old(requests)
      ensures Valid()
    {
      error := Some(message);
      isLoading := false;
    }

    /** The synchronous part of `generateImage`: the image shows as loading
        and the request is sent. */
    method GenerateImage(prompt: string)
      modifies this
      ensures imageUrl == Pending
      ensures requests == old(requests) + [ImageRequest(prompt)]
      ensures menuItem == old(menuItem) && recipe == old(recipe)
      ensures isLoading == old(isLoading) && error == old(error)
    {
      imageUrl := Pending;
      requests := requests + [ImageRequest(prompt)];
    }

    /** The rest of `generateImage`, once the service has settled: the URL,
        or `null` on any failure. */
    method ImageArrived(outcome: Outcome<string>)
      modifies this
      ensures outcome.Ok? ==> imageUrl == Loaded(outcome.value)
      ensures outcome.Err? ==> imageUrl == Failed
      ensures menuItem == old(menuItem) && recipe == old(recipe) && requests == old(requests)
      ensures isLoading == old(isLoading) && error == old(error)
    {
      match outcome
      case Ok(url) => imageUrl := Loaded(url);
      case Err(_) => imageUrl := Failed;
    }

    /** The synchronous part of `loadRecipe`: loading starts, the error is
        cleared, a forced reload drops the shown recipe, and the recipe is
        requested. */
    method LoadRecipe(dishName: string, forceRegenerate: bool)
      modifies this
      ensures isLoading && error.None?
      ensures recipe == if forceRegenerate then None else old(recipe)
      ensures requests == old(requests) + [RecipeRequest(dishName)]
      ensures menuItem == old(menuItem) && imageUrl == old(imageUrl)
      ensures Valid()
    {
      isLoading := true;
      error := None;
      if forceRegenerate {
        recipe := None;
      }
      requests := requests + [RecipeRequest(dishName)];
    }

    /** The rest of `loadRecipe`, once the service has settled. On success
        the recipe is shown and a cover image is requested exactly when
        there is none or the load was forced; on failure the error (or a
        default) is shown. Loading has stopped either way. */
    method RecipeArrived(forceRegenerate: bool, outcome: Outcome<Recipe>)
      requires Valid()
      modifies this
      ensures !isLoading && Valid()
      ensures outcome.Ok? ==> recipe == Some(outcome.value) && error == old(error)
      ensures outcome.Ok? && (!HasImage(old(imageUrl)) || forceRegenerate) ==>
                imageUrl == Pending
                && requests == old(requests) + [ImageRequest(outcome.value.coverImagePrompt)]
      ensures outcome.Ok? && HasImage(old(imageUrl)) && !forceRegenerate ==>
                imageUrl == old(imageUrl) && requests == old(requests)
      ensures outcome.Err? ==>
                error == Some(if outcome.message == "" then DefaultLoadMessage else outcome.message)
                && recipe == old(recipe) && imageUrl == old(imageUrl) && requests == old(requests)
      ensures menuItem == old(menuItem)
    {
      match outcome {
        case Ok(fullRecipe) =>
          recipe := Some(fullRecipe);
          if !HasImage(imageUrl) || forceRegenerate {
            GenerateImage(fullRecipe.coverImagePrompt);
          }
        case Err(message) =>
          HandleError(if message == "" then DefaultLoadMessage else message);
      }
      if error.None? {
        isLoading := false;
      }
    }

    /** `ngOnInit`. With a menu item and a recipe in the navigation state,
        both are shown at once and an image is requested only when the item
        has none. With only a menu item, its recipe is loaded. Otherwise the
        route id is looked up; a missing id or an unknown one is an error. */
    method NgOnInit(state: Js, routeId: Option<string>)
      requires Valid()
      modifies this
      ensures Valid()
      ensures var mi := StateField(state, "menuItem"); var rs := StateField(state, "recipe");
        IsMenuItem(mi) && IsRecipe(rs) ==>
          menuItem == Some(MenuItemOf(mi)) && recipe == Some(RecipeOf(rs))
          && !isLoading && error == old(error)
          && (HasImage(SlotOf(MenuItemOf(mi).imageUrl)) ==>
                imageUrl == SlotOf(MenuItemOf(mi).imageUrl) && requests == old(requests))
          && (!HasImage(SlotOf(MenuItemOf(mi).imageUrl)) ==>
                imageUrl == Pending
                && requests == old(requests) + [ImageRequest(RecipeOf(rs).coverImagePrompt)])
      ensures var mi := StateField(state, "menuItem"); var rs := StateField(state, "recipe");
        IsMenuItem(mi) && !IsRecipe(rs) ==>
          menuItem == Some(MenuItemOf(mi)) && imageUrl == SlotOf(MenuItemOf(mi).imageUrl)
          && isLoading && error.None? && recipe == old(recipe)
          && requests == old(requests) + [RecipeRequest(MenuItemOf(mi).title)]
      ensures !IsMenuItem(StateField(state, "menuItem")) && routeId.GetOr("") == "" ==>
          error == Some(MissingIdMessage) && !isLoading
          && menuItem == old(menuItem) && recipe == old(recipe) && imageUrl == old(imageUrl)
          && requests == old(requests)
      ensures !IsMenuItem(StateField(state, "menuItem")) && routeId.GetOr("") != ""
              && old(Lookup(routeId.GetOr(""))).None? ==>
          error == Some(NotFoundMessage) && !isLoading
          && menuItem == old(menuItem) && recipe == old(recipe) && imageUrl == old(imageUrl)
          && requests == old(requests)
      ensures !IsMenuItem(StateField(state, "menuItem")) && routeId.GetOr("") != ""
              && old(Lookup(routeId.GetOr(""))).Some? ==>
          var item := old(Lookup(routeId.GetOr(""))).value;
          menuItem == Some(item) && imageUrl == SlotOf(item.imageUrl)
          && isLoading && error.None? && recipe == old(recipe)
          && requests == old(requests) + [RecipeRequest(item.title)]
    {
      var menuItemFromState := StateField(state, "menuItem");
      var recipeFromState := StateField(state, "recipe");
      if IsMenuItem(menuItemFromState) {
        var item := MenuItemOf(menuItemFromState);
        menuItem := Some(item);
        imageUrl := SlotOf(item.imageUrl);
        if IsRecipe(recipeFromState) {
          var full := RecipeOf(recipeFromState);
          recipe := Some(full);
          isLoading := false;
          if !HasImage(imageUrl) {
            GenerateImage(full.coverImagePrompt);
          }
        } else {
          LoadRecipe(item.title, false);
        }
      } else {
        var recipeId := routeId.GetOr("");
        if recipeId == "" {
          HandleError(MissingIdMessage);
        } else {
          var foundItem := Lookup(recipeId);
          match foundItem {
            case Some(item) =>
              menuItem := Some(item);
              imageUrl := SlotOf(item.imageUrl);
              LoadRecipe(item.title, false);
            case None =>
              HandleError(NotFoundMessage);
          }
        }
      }
    }

    /** `regenerate`: a forced reload of the shown item's recipe; nothing
        without an item. */
    method Regenerate()
      requires Valid()
      modifies this
      ensures Valid()
      ensures old(menuItem).None? ==>
                recipe == old(recipe) && isLoading == old(isLoading) && error == old(error)
                && requests == old(requests)
      ensures old(menuItem).Some? ==>
                recipe.None? && isLoading && error.None?
                && requests == old(requests) + [RecipeRequest(old(menuItem).value.title)]
      ensures menuItem == old(menuItem) && imageUrl == old(imageUrl)
    {
      if menuItem.Some? {
        LoadRecipe(menuItem.value.title, true);
      }
    }

    /** `toggleFavorite`: toggles the shown item; nothing without one. */
    method ToggleFavorite()
      modifies favoriteService, favoriteService.store
      ensures menuItem.None? ==> favoriteService.favorites == old(favoriteService.favorites)
      ensures menuItem.Some? ==>
                favoriteService.favorites == Toggled(old(favoriteService.favorites), menuItem.value)
      ensures favoriteService.store.available == old(favoriteService.store.available)
      ensures menuItem.Some? && favoriteService.store.available ==>
                favoriteService.store.entries
                == old(favoriteService.store.entries)[FavoritesKey := favoriteService.codec.stringify(favoriteService.favorites)]
      ensures menuItem.None? || !favoriteService.store.available ==>
                favoriteService.store.entries == old(favoriteService.store.entries)
    {
      if menuItem.Some? {
        favoriteService.ToggleFavorite(menuItem.value);
      }
    }

    /** `isFavorite`: false without an item. */
    method IsFavorite() returns (b: bool)
      ensures b <==> menuItem.Some? && HasId(favoriteService.favorites, menuItem.value.id)
    {
      if menuItem.Some? {
        b := favoriteService.IsFavorite(menuItem.value.id);
      } else {
        b := false;
      }
    }
  }
}
