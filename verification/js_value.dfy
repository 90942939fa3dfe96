/** The JavaScript values that travel as router navigation state between the
    pages, the checks the detail page makes on them (truthiness, `typeof`,
    the `in` operator, `Array.isArray`), and how the records are carried in
    them. */
module JsValue {
  import opened Wrappers
  import opened Models

  /** A JavaScript value. Numbers are integers, as in the records. */
  datatype Js =
    | Undefined
    | Null
    | Bool(b: bool)
    | Num(n: int)
    | Str(s: string)
    | Arr(elems: seq<Js>)
    | Obj(fields: map<string, Js>)

  /** `v[key]` on a value known to be truthy: an own property of an object,
      `undefined` for anything else. */
  function Get(v: Js, key: string): Js {
    if v.Obj? && key in v.fields then v.fields[key] else Undefined
  }

  /** `typeof v`: arrays and `null` are "object" too. */
  function TypeOf(v: Js): string {
    match v
    case Undefined => "undefined"
    case Bool(_) => "boolean"
    case Num(_) => "number"
    case Str(_) => "string"
    case _ => "object"
  }

  /** Truthiness: `undefined`, `null`, `false`, `0` and `""` are falsy. */
  predicate Truthy(v: Js) {
    match v
    case Undefined => false
    case Null => false
    case Bool(b) => b
    case Num(n) => n != 0
    case Str(s) => s != ""
    case _ => true
  }

  /** `state && typeof state === 'object' && key in state ? state[key] : undefined`:
      the property of an object state, and `undefined` otherwise. */
  function StateField(state: Js, key: string): (r: Js)
    ensures state.Obj? && key in state.fields ==> r == state.fields[key]
    ensures !(state.Obj? && key in state.fields) ==> r == Undefined
  {
    if Truthy(state) && TypeOf(state) == "object" && state.Obj? && key in state.fields
    then Get(state, key)
    else Undefined
  }

  /** `isMenuItem`: a truthy object whose `id` and `title` are strings. That
      is exactly an object holding `id` and `title` string properties. */
  predicate IsMenuItem(v: Js)
    ensures IsMenuItem(v) <==> v.Obj? && "id" in v.fields && v.fields["id"].Str?
                               && "title" in v.fields && v.fields["title"].Str?
  {
    Truthy(v) && TypeOf(v) == "object"
    && TypeOf(Get(v, "id")) == "string" && TypeOf(Get(v, "title")) == "string"
  }

  /** `isRecipe`: a truthy object whose `id` is a string and whose `steps`
      is an array. */
  predicate IsRecipe(v: Js)
    ensures IsRecipe(v) <==> v.Obj? && "id" in v.fields && v.fields["id"].Str?
                             && "steps" in v.fields && v.fields["steps"].Arr?
  {
    Truthy(v) && TypeOf(v) == "object"
    && TypeOf(Get(v, "id")) == "string" && Get(v, "steps").Arr?
  }

  // ---------------------------------------------------------------------
  // Carrying records in values. Reading a field that is missing or has the
  // wrong type gives "" / 0 / [] / None.
  // ---------------------------------------------------------------------

  function StrOf(v: Js): string { if v.Str? then v.s else "" }
  function NumOf(v: Js): int { if v.Num? then v.n else 0 }
  function OptStrOf(v: Js): Option<string> { if v.Str? then Some(v.s) else None }
  function ElemsOf(v: Js): seq<Js> { if v.Arr? then v.elems else [] }

  function OptStrToJs(o: Option<string>): Js {
    match o
    case Some(s) => Str(s)
    case None => Undefined
  }

  function StrsToJs(xs: seq<string>): Js {
    Arr(seq(|xs|, i requires 0 <= i < |xs| => Str(xs[i])))
  }

  function StrsOf(v: Js): seq<string> {
    var es := ElemsOf(v);
    seq(|es|, i requires 0 <= i < |es| => StrOf(es[i]))
  }

  function MenuItemToJs(m: MenuItem): Js {
    Obj(map[
      "id" := Str(m.id), "title" := Str(m.title), "tags" := StrsToJs(m.tags),
      "time_min" := Num(m.timeMin), "difficulty" := Str(m.difficulty),
      "servings" := Num(m.servings), "image_prompt" := Str(m.imagePrompt),
      "imageUrl" := OptStrToJs(m.imageUrl)])
  }

  /** The menu item read back from a value. On a value that passes
      `isMenuItem` its `id` and `title` are the value's own. */
  function MenuItemOf(v: Js): (m: MenuItem)
    ensures IsMenuItem(v) ==> m.id == v.fields["id"].s && m.title == v.fields["title"].s
  {
    MenuItem(
      StrOf(Get(v, "id")), StrOf(Get(v, "title")), StrsOf(Get(v, "tags")),
      NumOf(Get(v, "time_min")), StrOf(Get(v, "difficulty")),
      NumOf(Get(v, "servings")), StrOf(Get(v, "image_prompt")),
      OptStrOf(Get(v, "imageUrl")))
  }

  function IngredientToJs(x: Ingredient): Js {
    Obj(map[
      "name" := Str(x.name), "amount" := Str(x.amount),
      "note" := OptStrToJs(x.note), "substitute" := OptStrToJs(x.substitute)])
  }

  function IngredientOf(v: Js): Ingredient {
    Ingredient(StrOf(Get(v, "name")), StrOf(Get(v, "amount")),
               OptStrOf(Get(v, "note")), OptStrOf(Get(v, "substitute")))
  }

  function StepToJs(x: RecipeStep): Js {
    Obj(map[
      "step" := Num(x.step), "title" := Str(x.title), "instruction" := Str(x.instruction),
      "duration_min" := Num(x.durationMin), "heat" := Str(x.heat), "tip" := Str(x.tip)])
  }

  function StepOf(v: Js): RecipeStep {
    RecipeStep(NumOf(Get(v, "step")), StrOf(Get(v, "title")), StrOf(Get(v, "instruction")),
               NumOf(Get(v, "duration_min")), StrOf(Get(v, "heat")), StrOf(Get(v, "tip")))
  }

  function NutritionToJs(x: Nutrition): Js {
    Obj(map[
      "kcal" := Num(x.kcal), "protein_g" := Num(x.proteinG),
      "fat_g" := Num(x.fatG), "carb_g" := Num(x.carbG)])
  }

  function NutritionOf(v: Js): Nutrition {
    Nutrition(NumOf(Get(v, "kcal")), NumOf(Get(v, "protein_g")),
              NumOf(Get(v, "fat_g")), NumOf(Get(v, "carb_g")))
  }

  function IngredientsToJs(xs: seq<Ingredient>): Js {
    Arr(seq(|xs|, i requires 0 <= i < |xs| => IngredientToJs(xs[i])))
  }

  function IngredientsOf(v: Js): seq<Ingredient> {
    var es := ElemsOf(v);
    seq(|es|, i requires 0 <= i < |es| => IngredientOf(es[i]))
  }

  function StepsToJs(xs: seq<RecipeStep>): Js {
    Arr(seq(|xs|, i requires 0 <= i < |xs| => StepToJs(xs[i])))
  }

  function StepsOf(v: Js): (r: seq<RecipeStep>)
    ensures |r| == |ElemsOf(v)|
  {
    var es := ElemsOf(v);
    seq(|es|, i requires 0 <= i < |es| => StepOf(es[i]))
  }

  function RecipeToJs(r: Recipe): Js {
    Obj(map[
      "id" := Str(r.id), "title" := Str(r.title), "summary" := Str(r.summary),
      "tags" := StrsToJs(r.tags), "time_min" := Num(r.timeMin),
      "difficulty" := Str(r.difficulty), "servings" := Num(r.servings),
      "cover_image_prompt" := Str(r.coverImagePrompt),
      "ingredients" := IngredientsToJs(r.ingredients), "steps" := StepsToJs(r.steps),
      "chef_tips" := StrsToJs(r.chefTips),
      "nutrition" := NutritionToJs(r.nutrition)])
  }

  /** The recipe read back from a value. On a value that passes `isRecipe`
      its `id` is the value's own and it has one step per array element. */
  function RecipeOf(v: Js): (r: Recipe)
    ensures IsRecipe(v) ==> r.id == v.fields["id"].s && |r.steps| == |v.fields["steps"].elems|
  {
    Recipe(
      StrOf(Get(v, "id")), StrOf(Get(v, "title")), StrOf(Get(v, "summary")),
      StrsOf(Get(v, "tags")), NumOf(Get(v, "time_min")), StrOf(Get(v, "difficulty")),
      NumOf(Get(v, "servings")), StrOf(Get(v, "cover_image_prompt")),
      IngredientsOf(Get(v, "ingredients")), StepsOf(Get(v, "steps")),
      StrsOf(Get(v, "chef_tips")), NutritionOf(Get(v, "nutrition")))
  }

  lemma StrsRoundTrip(xs: seq<string>)
    ensures StrsOf(StrsToJs(xs)) == xs
  {
  }

  /** A menu item carried in a value passes `isMenuItem` and reads back
      as itself. */
  lemma {:induction false} MenuItemRoundTrip(m: MenuItem)
    ensures IsMenuItem(MenuItemToJs(m))
    ensures MenuItemOf(MenuItemToJs(m)) == m
  {
    StrsRoundTrip(m.tags);
  }

  lemma IngredientsRoundTrip(xs: seq<Ingredient>)
    ensures IngredientsOf(IngredientsToJs(xs)) == xs
  {
    var ys := IngredientsOf(IngredientsToJs(xs));
    forall i | 0 <= i < |xs|
      ensures ys[i] == xs[i]
    {
      assert ys[i] == IngredientOf(IngredientToJs(xs[i]));
    }
  }

  lemma StepsRoundTrip(xs: seq<RecipeStep>)
    ensures StepsOf(StepsToJs(xs)) == xs
  {
    var ys := StepsOf(StepsToJs(xs));
    forall i | 0 <= i < |xs|
      ensures ys[i] == xs[i]
    {
      assert ys[i] == StepOf(StepToJs(xs[i]));
    }
  }

  /** A recipe carried in a value passes `isRecipe` and reads back as
      itself. */
  lemma {:induction false} RecipeRoundTrip(r: Recipe)
    ensures IsRecipe(RecipeToJs(r))
    ensures RecipeOf(RecipeToJs(r)) == r
  {
    RecipeFields(r);
    StrsRoundTrip(r.tags);
    StrsRoundTrip(r.chefTips);
    IngredientsRoundTrip(r.ingredients);
    StepsRoundTrip(r.steps);
  }

  /** Each property of a carried recipe holds the field of the same name. */
  lemma RecipeFields(r: Recipe)
    ensures var v := RecipeToJs(r);
            Get(v, "id") == Str(r.id) && Get(v, "title") == Str(r.title)
            && Get(v, "summary") == Str(r.summary) && Get(v, "tags") == StrsToJs(r.tags)
            && Get(v, "time_min") == Num(r.timeMin) && Get(v, "difficulty") == Str(r.difficulty)
            && Get(v, "servings") == Num(r.servings)
            && Get(v, "cover_image_prompt") == Str(r.coverImagePrompt)
            && Get(v, "ingredients") == IngredientsToJs(r.ingredients)
            && Get(v, "steps") == StepsToJs(r.steps)
            && Get(v, "chef_tips") == StrsToJs(r.chefTips)
            && Get(v, "nutrition") == NutritionToJs(r.nutrition)
  {
    RecipeHeadFields(r);
    RecipeMiddleFields(r);
    RecipeTailFields(r);
  }

  lemma RecipeHeadFields(r: Recipe)
    ensures var v := RecipeToJs(r);
            Get(v, "id") == Str(r.id) && Get(v, "title") == Str(r.title)
            && Get(v, "summary") == Str(r.summary) && Get(v, "tags") == StrsToJs(r.tags)
  {
  }

  lemma RecipeMiddleFields(r: Recipe)
    ensures var v := RecipeToJs(r);
            Get(v, "time_min") == Num(r.timeMin) && Get(v, "difficulty") == Str(r.difficulty)
            && Get(v, "servings") == Num(r.servings)
            && Get(v, "cover_image_prompt") == Str(r.coverImagePrompt)
  {
  }

  lemma RecipeTailFields(r: Recipe)
    ensures var v := RecipeToJs(r);
            Get(v, "ingredients") == IngredientsToJs(r.ingredients)
            && Get(v, "steps") == StepsToJs(r.steps)
            && Get(v, "chef_tips") == StrsToJs(r.chefTips)
            && Get(v, "nutrition") == NutritionToJs(r.nutrition)
  {
  }

  /** A menu item never passes for a recipe: it has no `steps`. */
  lemma MenuItemIsNoRecipe(m: MenuItem)
    ensures !IsRecipe(MenuItemToJs(m))
  {
  }
}
