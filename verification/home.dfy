/** `HomeComponent`: the menu form, generating a menu (or a single dish's
    full recipe), the per-item image generation, and opening a dish.

    Each awaited call is split in two: the method that starts it records an
    `Event` and returns, and a second method applies the call's outcome
    when it settles. Menu items are values here; a menu set from a reply
    gets a fresh `generation` number, which stands for the identity of its
    item objects, so an image reply meant for an earlier menu's items
    changes nothing that is shown. */
module Home {
  import opened Wrappers
  import opened Models
  import opened JsText
  import opened JsValue
  import opened History

  const DefaultErrorMessage: string := "An unknown error occurred."
  const GeneratingMarker: string := "generating"
  const BaseInstructions: string := "The output must be in Chinese (Simplified) and strictly adhere to the provided JSON schema. Do not output any text outside the JSON structure. For each ID, generate a unique UUID. The generated_at value should be the current date in ISO format."

  /** The line break and indentation between the lines of a prompt
      template. */
  const Indent: string := "\n        "

  const SingleDishLead: string := "Generate a dinner menu containing ONLY the dish \""

  /** The four choices of the form that go into a prompt. */
  datatype Choices = Choices(servings: string, flavor: string, spiciness: string, restrictions: string)

  /** The `preferences` sentence built from the form's choices. */
  function Preferences(c: Choices): string {
    "为 " + c.servings + " 准备。口味偏好: " + c.flavor + "。辣度要求: " + c.spiciness
    + "。饮食限制: " + c.restrictions + "。"
  }

  /** The single-dish prompt: its opening, the dish name, and the rest. */
  function SingleDishPrompt(dish: string, preferences: string): string {
    SingleDishLead + dish + SingleDishRest(preferences)
  }

  function SingleDishRest(preferences: string): string {
    "\"."
    + Indent + "Incorporate the following preferences when generating the details for this single dish: " + preferences + "."
    + Indent + "The menu's 'items' array should contain exactly one dish."
    + Indent + "The 'menu_title' should be the name of the dish."
    + Indent + BaseInstructions
  }

  function RandomMenuPrompt(preferences: string): string {
    "Generate a random, balanced, and appealing home-style dinner menu with 3 dishes."
    + Indent + "The menu should include a mix of meat and vegetable dishes and avoid repeating main ingredients."
    + Indent + "Incorporate the following preferences for the overall menu: " + preferences + "."
    + Indent + "Give the menu an appealing and creative title for 'menu_title'."
    + Indent + BaseInstructions
  }

  /** Which of the two menu prompts `generate` sends. */
  datatype MenuRequest = SingleDish(dish: string, choices: Choices) | RandomMenu(choices: Choices)

  /** A non-empty (trimmed) dish name asks for that dish alone; an empty one
      for a random three-dish menu. */
  function MenuRequestFor(dish: string, choices: Choices): MenuRequest {
    if dish != "" then SingleDish(dish, choices) else RandomMenu(choices)
  }

  /** The text of the prompt `generate` sends. */
  function PromptText(request: MenuRequest): string {
    match request
    case SingleDish(dish, choices) => SingleDishPrompt(dish, Preferences(choices))
    case RandomMenu(choices) => RandomMenuPrompt(Preferences(choices))
  }

  /** `text` opens with `lead`, and `middle` follows right after it. */
  predicate FollowsLead(text: string, lead: string, middle: string) {
    lead <= text && |lead| + |middle| <= |text| && text[|lead|..|lead| + |middle|] == middle
  }

  /** Where the middle part of a three-part text sits. */
  lemma SpliceParts(lead: string, middle: string, rest: string)
    ensures FollowsLead(lead + middle + rest, lead, middle)
    ensures |lead + middle + rest| == |lead| + |middle| + |rest|
  {
    var p := lead + middle + rest;
    assert p[..|lead|] == lead;
  }

  /** The single-dish prompt quotes the dish name right after its fixed
      opening. */
  lemma {:induction false} PromptTextQuotesDish(dish: string, choices: Choices)
    ensures FollowsLead(PromptText(SingleDish(dish, choices)), SingleDishLead, dish)
    ensures |PromptText(SingleDish(dish, choices))|
            == |SingleDishLead| + |dish| + |SingleDishRest(Preferences(choices))|
  {
    SpliceParts(SingleDishLead, dish, SingleDishRest(Preferences(choices)));
  }

  /** The prompt names the dish: two dish names give the same prompt only
      when they are the same name. */
  lemma {:induction false} PromptTextNamesDish(d1: string, d2: string, choices: Choices)
    ensures PromptText(SingleDish(d1, choices)) == PromptText(SingleDish(d2, choices)) ==> d1 == d2
  {
    PromptTextQuotesDish(d1, choices);
    PromptTextQuotesDish(d2, choices);
  }

  /** What the page has started or done, oldest first. */
  datatype Event =
    | MenuRequested(request: MenuRequest)
    | RecipeRequested(dishName: string)
    | ImageRequested(generation: nat, index: nat, prompt: string)
    | Navigated(id: string, state: Js)

  /** The navigation state handed to the detail page. */
  function DetailState(item: MenuItem, recipe: Option<Recipe>): Js {
    match recipe
    case Some(r) => Obj(map["menuItem" := MenuItemToJs(item), "recipe" := RecipeToJs(r)])
    case None => Obj(map["menuItem" := MenuItemToJs(item)])
  }

  /** After a single-dish generation the detail page finds both the item
      and the recipe in the state, unchanged (its first case). */
  lemma {:induction false} DetailStateWithRecipe(item: MenuItem, recipe: Recipe)
    ensures var s := DetailState(item, Some(recipe));
      IsMenuItem(StateField(s, "menuItem")) && IsRecipe(StateField(s, "recipe"))
      && MenuItemOf(StateField(s, "menuItem")) == item && RecipeOf(StateField(s, "recipe")) == recipe
  {
    var s := DetailState(item, Some(recipe));
    assert StateField(s, "menuItem") == MenuItemToJs(item);
    assert StateField(s, "recipe") == RecipeToJs(recipe);
    MenuItemRoundTrip(item);
    RecipeRoundTrip(recipe);
  }

  /** After `viewRecipe` the detail page finds the item and no recipe, so it
      loads the recipe (its second case). */
  lemma {:induction false} DetailStateWithoutRecipe(item: MenuItem)
    ensures var s := DetailState(item, None);
      IsMenuItem(StateField(s, "menuItem")) && !IsRecipe(StateField(s, "recipe"))
      && MenuItemOf(StateField(s, "menuItem")) == item
  {
    var s := DetailState(item, None);
    assert StateField(s, "menuItem") == MenuItemToJs(item);
    assert StateField(s, "recipe") == Undefined;
    MenuItemRoundTrip(item);
  }

  /** Every item marked as having its image generated; nothing else about
      the items changes. */
  function MarkedGenerating(items: seq<MenuItem>): (r: seq<MenuItem>)
    ensures |r| == |items|
    ensures forall i | 0 <= i < |r| :: r[i].imageUrl == Some(GeneratingMarker)
    ensures forall i | 0 <= i < |r| :: r[i].(imageUrl := items[i].imageUrl) == items[i]
  {
    seq(|items|, i requires 0 <= i < |items| => items[i].(imageUrl := Some(GeneratingMarker)))
  }

  /** One image request per item, in item order. */
  function ImageRequests(generation: nat, items: seq<MenuItem>): (r: seq<Event>)
    ensures |r| == |items|
    ensures forall i | 0 <= i < |r| :: r[i] == ImageRequested(generation, i, items[i].imagePrompt)
  {
    seq(|items|, i requires 0 <= i < |items| => ImageRequested(generation, i, items[i].imagePrompt))
  }

  class HomeComponent {
    const historyService: HistoryService
    var dishName: string
    var flavor: string
    var spiciness: string
    var servings: string
    var restrictions: string
    var isLoading: bool
    var error: Option<string>
    var menu: Option<GeneratedMenu>
    /** Identity of the item objects of the menu last set from a reply. */
    var generation: nat
    var events: seq<Event>

    /** The four choices currently on the form. */
    function Form(): Choices
      reads this
    {
      Choices(servings, flavor, spiciness, restrictions)
    }

    /** The form's initial values. */
    constructor (historyService: HistoryService)
      ensures this.historyService == historyService
      ensures dishName == "" && flavor == "正常" && spiciness == "微辣"
      ensures servings == "2人" && restrictions == "无"
      ensures !isLoading && error.None? && menu.None? && generation == 0 && events == []
    {
      this.historyService := historyService;
      dishName := "";
      flavor := "正常";
      spiciness := "微辣";
      servings := "2人";
      restrictions := "无";
      isLoading := false;
      error := None;
      menu := None;
      generation := 0;
      events := [];
    }

    /** The synchronous part of `generate`. While a generation runs nothing
        changes. Otherwise loading starts, error and menu are cleared, and
        the menu is requested with the prompt for the trimmed dish name;
        `dish` is that name, which the rest of `generate` needs. */
    method Generate() returns (started: bool, dish: string)
      modifies this
      ensures started <==> !old(isLoading)
      ensures !started ==> isLoading && error == old(error) && menu == old(menu) && events == old(events)
      ensures started ==>
                isLoading && error.None? && menu.None?
                && dish == Trim(dishName)
                && events == old(events) + [MenuRequested(MenuRequestFor(dish, old(Form())))]
      ensures dishName == old(dishName) && Form() == old(Form()) && generation == old(generation)
    {
      if isLoading {
        return false, "";
      }
      var choices := Form();
      isLoading, error, menu := true, None, None;
      dish := Trim(dishName);
      events := events + [MenuRequested(MenuRequestFor(dish, choices))];
      started := true;
    }

    /** `generateRandom`: clears the dish name, then `generate`, which then
        sends the random-menu prompt. */
    method GenerateRandom() returns (started: bool)
      modifies this
      ensures started <==> !old(isLoading)
      ensures !started ==> dishName == old(dishName) && error == old(error) && menu == old(menu)
                           && events == old(events)
      ensures started ==>
                dishName == "" && isLoading && error.None? && menu.None?
                && events == old(events) + [MenuRequested(RandomMenu(old(Form())))]
      ensures isLoading && Form() == old(Form()) && generation == old(generation)
    {
      if isLoading {
        return false;
      }
      dishName := "";
      assert TrimStart(dishName) == "";
      var dish;
      started, dish := Generate();
    }

    /** The synchronous part of `generateImageForItem` for item `index` of
        the menu shown: the item is marked as generating and its image is
        requested under the current generation; nothing else changes. */
    method GenerateImageForItem(index: nat)
      requires menu.Some? && index < |menu.value.items|
      modifies this
      ensures menu == Some(old(menu.value).(items := old(menu.value.items)[index :=
                old(menu.value.items[index]).(imageUrl := Some(GeneratingMarker))]))
      ensures events == old(events) + [ImageRequested(generation, index, old(menu.value.items[index].imagePrompt))]
      ensures isLoading == old(isLoading) && error == old(error) && generation == old(generation)
      ensures dishName == old(dishName) && Form() == old(Form())
    {
      var items := menu.value.items;
      menu := Some(menu.value.(items := items[index := items[index].(imageUrl := Some(GeneratingMarker))]));
      events := events + [ImageRequested(generation, index, items[index].imagePrompt)];
    }

    /** The `forEach` over the new menu's items: each item's image is
        marked as generating and requested, in item order. */
    method StartImages()
      requires menu.Some?
      modifies this
      ensures menu == Some(old(menu.value).(items := MarkedGenerating(old(menu.value.items))))
      ensures events == old(events) + ImageRequests(generation, old(menu.value.items))
      ensures isLoading == old(isLoading) && error == old(error) && generation == old(generation)
      ensures dishName == old(dishName) && Form() == old(Form())
    {
      var original := menu.value.items;
      var i := 0;
      while i < |original|
        invariant 0 <= i <= |original|
        invariant menu.Some? && |menu.value.items| == |original|
        invariant menu.value.items[..i] == MarkedGenerating(original)[..i]
        invariant menu.value.items[i..] == original[i..]
        invariant menu == Some(old(menu.value).(items := menu.value.items))
        invariant events == old(events) + ImageRequests(generation, original)[..i]
        invariant isLoading == old(isLoading) && error == old(error) && generation == old(generation)
        invariant dishName == old(dishName) && Form() == old(Form())
      {
        ghost var before := menu.value.items;
        assert before[i] == original[i] by { assert before[i..][0] == original[i..][0]; }
        GenerateImageForItem(i);
        assert menu.value.items == before[i := before[i].(imageUrl := Some(GeneratingMarker))];
        assert ImageRequests(generation, original)[..i + 1]
               == ImageRequests(generation, original)[..i] + [ImageRequested(generation, i, original[i].imagePrompt)];
        i := i + 1;
      }
      assert menu.value.items == MarkedGenerating(original);
    }

    /** The rest of `generate`, once the menu call has settled. A
        single-dish request answered with exactly one item goes on to fetch
        that item's recipe (loading continues and the menu stays unset).
        Otherwise a menu is shown under a new generation with all images
        started, or the error (or a default) is shown; loading stops. */
    method MenuArrived(dish: string, outcome: Outcome<GeneratedMenu>)
      modifies this
      ensures outcome.Ok? && dish != "" && |outcome.value.items| == 1 ==>
                isLoading == old(isLoading) && menu == old(menu) && error == old(error)
                && generation == old(generation)
                && events == old(events) + [RecipeRequested(outcome.value.items[0].title)]
      ensures outcome.Ok? && !(dish != "" && |outcome.value.items| == 1) ==>
                !isLoading && error == old(error) && generation == old(generation) + 1
                && menu == Some(outcome.value.(items := MarkedGenerating(outcome.value.items)))
                && events == old(events) + ImageRequests(generation, outcome.value.items)
      ensures outcome.Err? ==>
                !isLoading && error == Some(if outcome.message == "" then DefaultErrorMessage else outcome.message)
                && menu == old(menu) && generation == old(generation) && events == old(events)
      ensures dishName == old(dishName) && Form() == old(Form())
    {
      match outcome {
        case Ok(generatedMenu) =>
          if dish != "" && |generatedMenu.items| == 1 {
            events := events + [RecipeRequested(generatedMenu.items[0].title)];
            return;
          }
          menu := Some(generatedMenu);
          generation := generation + 1;
          StartImages();
        case Err(message) =>
          error := Some(if message == "" then DefaultErrorMessage else message);
      }
      isLoading := false;
    }

    /** The rest of a single-dish `generate`, once the recipe call has
        settled: the item is added to history and only then is the detail
        page opened with the item and the recipe; on failure the error is
        shown. Loading stops either way; the menu is never set. */
    method RecipeArrived(item: MenuItem, outcome: Outcome<Recipe>)
      modifies this, historyService, historyService.store
      ensures !isLoading && menu == old(menu) && generation == old(generation)
      ensures dishName == old(dishName) && Form() == old(Form())
      ensures historyService.store.available == old(historyService.store.available)
      ensures outcome.Ok? && historyService.store.available ==>
                historyService.store.entries
                == old(historyService.store.entries)[HistoryKey := historyService.codec.stringify(historyService.history)]
      ensures outcome.Err? || !historyService.store.available ==>
                historyService.store.entries == old(historyService.store.entries)
      ensures outcome.Ok? ==>
                historyService.history == Added(old(historyService.history), item)
                && error == old(error)
                && events == old(events) + [Navigated(item.id, DetailState(item, Some(outcome.value)))]
      ensures outcome.Err? ==>
                historyService.history == old(historyService.history)
                && error == Some(if outcome.message == "" then DefaultErrorMessage else outcome.message)
                && events == old(events)
    {
      match outcome {
        case Ok(fullRecipe) =>
          historyService.AddRecord(item);
          events := events + [Navigated(item.id, DetailState(item, Some(fullRecipe)))];
        case Err(message) =>
          error := Some(if message == "" then DefaultErrorMessage else message);
      }
      isLoading := false;
    }

    /** The rest of `generateImageForItem`, once the image call has settled:
        the item gets the URL, or loses its image on failure. Only an item
        of the menu now shown is visibly changed. */
    method ImageArrived(forGeneration: nat, index: nat, outcome: Outcome<string>)
      modifies this
      ensures var url := if outcome.Ok? then Some(outcome.value) else None;
        old(menu).Some? && forGeneration == generation && index < |old(menu).value.items| ==>
          menu == Some(old(menu).value.(items := old(menu).value.items[index := old(menu).value.items[index].(imageUrl := url)]))
      ensures !(old(menu).Some? && forGeneration == generation && index < |old(menu).value.items|) ==>
                menu == old(menu)
      ensures isLoading == old(isLoading) && error == old(error) && generation == old(generation)
      ensures dishName == old(dishName) && Form() == old(Form()) && events == old(events)
    {
      var url := if outcome.Ok? then Some(outcome.value) else None;
      if menu.Some? && forGeneration == generation && index < |menu.value.items| {
        var items := menu.value.items;
        menu := Some(menu.value.(items := items[index := items[index].(imageUrl := url)]));
      }
    }

    /** `viewRecipe`: the item is added to history, then the detail page is
        opened with the item alone. */
    method ViewRecipe(item: MenuItem)
      modifies this, historyService, historyService.store
      ensures historyService.history == Added(old(historyService.history), item)
      ensures events == old(events) + [Navigated(item.id, DetailState(item, None))]
      ensures isLoading == old(isLoading) && error == old(error) && menu == old(menu)
      ensures generation == old(generation) && dishName == old(dishName) && Form() == old(Form())
      ensures historyService.store.available == old(historyService.store.available)
      ensures historyService.store.entries ==
                if historyService.store.available
                then old(historyService.store.entries)[HistoryKey := historyService.codec.stringify(historyService.history)]
                else old(historyService.store.entries)
    {
      historyService.AddRecord(item);
      events := events + [Navigated(item.id, DetailState(item, None))];
    }
  }
}
