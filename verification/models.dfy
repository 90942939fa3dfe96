/** The records exchanged between the pages, the services and the AI model
    (src/models.ts). Numbers the source keeps as JavaScript numbers are
    integers here; `difficulty` stays a string, as it is at run time. */
module Models {
  import opened Wrappers

  /** One dish of a generated menu. `imageUrl` is filled in by the client:
      absent, the marker "generating", or a URL. */
  datatype MenuItem = MenuItem(
    id: string,
    title: string,
    tags: seq<string>,
    timeMin: int,
    difficulty: string,
    servings: int,
    imagePrompt: string,
    imageUrl: Option<string>)

  datatype GeneratedMenu = GeneratedMenu(
    menuTitle: string,
    generatedAt: string,
    items: seq<MenuItem>)

  datatype Ingredient = Ingredient(
    name: string,
    amount: string,
    note: Option<string>,
    substitute: Option<string>)

  datatype RecipeStep = RecipeStep(
    step: int,
    title: string,
    instruction: string,
    durationMin: int,
    heat: string,
    tip: string)

  datatype Nutrition = Nutrition(kcal: int, proteinG: int, fatG: int, carbG: int)

  datatype Recipe = Recipe(
    id: string,
    title: string,
    summary: string,
    tags: seq<string>,
    timeMin: int,
    difficulty: string,
    servings: int,
    coverImagePrompt: string,
    ingredients: seq<Ingredient>,
    steps: seq<RecipeStep>,
    chefTips: seq<string>,
    nutrition: Nutrition)
}
