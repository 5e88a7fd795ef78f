/**
  The analysis result as the page receives it, and the templates that put its
  free text into markup: each ingredient, step or recipe is turned into one
  fragment and the fragments are joined in order with nothing between. Every
  text field passes through `EscapeHTML`, so the tags of a rendered card are
  those of the template alone.
 */
module Templates {
  import opened JsString
  import opened Escape

  /** The four numbers of `estimatedNutrition`; a missing number is `None`. */
  datatype Nutrition = Nutrition(calories: Option<real>, protein: Option<real>,
                                 carbs: Option<real>, fat: Option<real>)

  /** One suggested recipe. Text fields hold whatever JSON value the service
      sent; `ingredients` and `instructions` are arrays. */
  datatype Recipe = Recipe(recipeName: JsValue, description: JsValue,
                           ingredients: seq<JsValue>, instructions: seq<JsValue>)

  /** A parsed response object. `None` in a field stands for a member that is
      missing or holds a falsy value (`null`, `false`, `0`, `""`); an empty
      recipe array is truthy and so is `Some([])`. */
  datatype Analysis = Analysis(estimatedNutrition: Option<Nutrition>,
                               healthAnalysis: JsValue,
                               suggestedRecipes: Option<seq<Recipe>>)

  /** Each element turned into its fragment by `f`, and the fragments joined
      in order with no separator: an empty array gives the empty string and
      a single element gives its own fragment and nothing more. */
  function JoinMapped<T>(xs: seq<T>, f: T -> string): (r: string)
    ensures xs == [] ==> r == []
    ensures |xs| == 1 ==> r == f(xs[0])
    ensures xs != [] ==> StartsWith(r, f(xs[0]))
  {
    if xs == [] then [] else f(xs[0]) + JoinMapped(xs[1..], f)
  }

  /** Joining the fragments of two runs one after the other is joining their
      concatenation. */
  lemma {:induction false} JoinMappedAppend<T>(xs: seq<T>, ys: seq<T>, f: T -> string)
    ensures JoinMapped(xs + ys, f) == JoinMapped(xs, f) + JoinMapped(ys, f)
  {
    if xs == [] {
      assert xs + ys == ys;
    } else {
      assert (xs + ys)[0] == xs[0] && (xs + ys)[1..] == xs[1..] + ys;
      JoinMappedAppend(xs[1..], ys, f);
    }
  }

  const ItemOpen: string := "<li>"
  const ItemClose: string := "</li>"

  /** One list item: the escaped item between an opening and a closing `li`
      tag. */
  function ItemHTML(item: JsValue): (html: string)
    ensures Count(html, '<') == 2 && Count(html, '>') == 2
  {
    var text := EscapeHTML(item);
    CountZero(text, '<');
    CountZero(text, '>');
    CountAppend(ItemOpen, text, '<');
    CountAppend(ItemOpen + text, ItemClose, '<');
    CountAppend(ItemOpen, text, '>');
    CountAppend(ItemOpen + text, ItemClose, '>');
    ItemOpen + text + ItemClose
  }

  /** The list of an ingredient or instruction array. */
  function ListItems(items: seq<JsValue>): (html: string)
    ensures Count(html, '<') == 2 * |items| && Count(html, '>') == 2 * |items|
  {
    ListItemsTags(items);
    JoinMapped(items, ItemHTML)
  }

  lemma {:induction false} ListItemsTags(items: seq<JsValue>)
    ensures Count(JoinMapped(items, ItemHTML), '<') == 2 * |items|
    ensures Count(JoinMapped(items, ItemHTML), '>') == 2 * |items|
  {
    if items != [] {
      ListItemsTags(items[1..]);
      CountAppend(ItemHTML(items[0]), JoinMapped(items[1..], ItemHTML), '<');
      CountAppend(ItemHTML(items[0]), JoinMapped(items[1..], ItemHTML), '>');
    }
  }

  /** The text a list item shows once its entities are read: the string
      itself, or nothing for a value that is not a string. */
  function TextOf(x: JsValue): string
  {
    match x
    case Str(s) => s
    case NotStr => []
  }

  function Texts(items: seq<JsValue>): (ts: seq<string>)
    ensures |ts| == |items|
  {
    if items == [] then [] else [TextOf(items[0])] + Texts(items[1..])
  }

  /** Reads back a list: `<li>`, escaped text up to the next `<`, `</li>`,
      repeated to the end. */
  function ParseItems(html: string): Option<seq<string>>
    decreases |html|
  {
    if html == [] then Some([])
    else if !StartsWith(html, ItemOpen) then None
    else
      var body := html[|ItemOpen|..];
      var k := IndexOf(body, '<');
      if !StartsWith(body[k..], ItemClose) then None
      else
        match (Unescape(body[..k]), ParseItems(body[k + |ItemClose|..]))
        case (Some(text), Some(rest)) => Some([text] + rest)
        case _ => None
  }

  /** Reading a rendered list back gives every item's text, in order: no
      item's text can close its item early or open another. */
  lemma {:induction false} ParseListItems(items: seq<JsValue>)
    ensures ParseItems(ListItems(items)) == Some(Texts(items))
  {
    if items != [] {
      var text := EscapeHTML(items[0]);
      var rest := JoinMapped(items[1..], ItemHTML);
      assert ListItems(items) == ItemOpen + text + ItemClose + rest;
      ParseListItems(items[1..]);
      ParseItemStep(text, rest);
    }
  }

  /** One item is read up to the first `<`, which a text without markup
      cannot hold. */
  lemma ParseItemStep(text: string, rest: string)
    requires forall i | 0 <= i < |text| :: !IsMarkup(text[i])
    ensures ParseItems(ItemOpen + text + ItemClose + rest)
         == match (Unescape(text), ParseItems(rest))
            case (Some(t), Some(ts)) => Some([t] + ts)
            case _ => None
  {
    var tail := ItemClose + rest;
    var body := text + tail;
    assert ItemOpen + text + ItemClose + rest == ItemOpen + body;
    StartsWithAppend(ItemOpen, body);
    StartsWithAppend(ItemClose, rest);
    FirstTagAfterText(text, tail);
    assert body[|text|..] == tail;
    assert body[..|text|] == text;
    assert body[|text| + |ItemClose|..] == rest;
  }

  lemma StartsWithAppend(p: string, s: string)
    ensures StartsWith(p + s, p) && (p + s)[|p|..] == s
  {
    assert (p + s)[..|p|] == p;
  }

  /** The first `<` of a text without one, followed by a tag, is the tag's. */
  lemma FirstTagAfterText(text: string, tail: string)
    requires forall i | 0 <= i < |text| :: !IsMarkup(text[i])
    requires tail != [] && tail[0] == '<'
    ensures IndexOf(text + tail, '<') == |text|
  {
    var k := IndexOf(text + tail, '<');
    assert (text + tail)[|text|] == '<';
  }

  // The fixed markup of a recipe card, cut at its five holes.
  const CardHead: string :=
    "\n    <div class=\"bg-base-100 rounded-2xl shadow-lg overflow-hidden hover:scale-[1.02] transition\">"
    + "\n      <div class=\"p-6\">"
    + "\n        <h4 class=\"text-xl font-bold text-primary mb-2\">"
  const CardAfterName: string :=
    "</h4>"
    + "\n        <p class=\"mb-4\">"
  const CardAfterDescription: string :=
    "</p>"
    + "\n        <div class=\"space-y-4\">"
    + "\n          <div>"
    + "\n            <h5 class=\"font-semibold mb-2\">Ingredients</h5>"
    + "\n            <ul class=\"list-disc list-inside space-y-1\">"
    + "\n              "
  const CardAfterIngredients: string :=
    "\n            </ul>"
    + "\n          </div>"
    + "\n          <div>"
    + "\n            <h5 class=\"font-semibold mb-2\">Instructions</h5>"
    + "\n            <ol class=\"list-decimal list-inside space-y-1\">"
    + "\n              "
  const CardTail: string :=
    "\n            </ol>"
    + "\n          </div>"
    + "\n        </div>"
    + "\n      </div>"
    + "\n    </div>"
    + "\n"

  /** The card of one recipe: the escaped name and description and the two
      item lists put into the card template. Its tag brackets are the
      template's plus one `<li>` and one `</li>` per list item: no recipe
      text adds or removes a tag. */
  function RecipeCard(r: Recipe): (card: string)
    ensures forall c | c == '<' || c == '>' :: Count(card, c) == TemplateCount(c) + 2 * ItemCount(r)
  {
    var name := EscapeHTML(r.recipeName);
    var desc := EscapeHTML(r.description);
    var ingredients := ListItems(r.ingredients);
    var steps := ListItems(r.instructions);
    forall c | c == '<' || c == '>'
      ensures Count(CardHead + name + CardAfterName + desc + CardAfterDescription + ingredients
                    + CardAfterIngredients + steps + CardTail, c)
           == TemplateCount(c) + 2 * ItemCount(r)
    {
      CountZero(name, c);
      CountZero(desc, c);
      CardPartsCount(name, desc, ingredients, steps, c);
    }
    CardHead + name + CardAfterName + desc + CardAfterDescription + ingredients
    + CardAfterIngredients + steps + CardTail
  }

  /** Occurrences of `c` in the card template's own markup. */
  function TemplateCount(c: char): nat
  {
    Count(CardHead, c) + Count(CardAfterName, c) + Count(CardAfterDescription, c)
    + Count(CardAfterIngredients, c) + Count(CardTail, c)
  }

  /** Number of list items a recipe renders. */
  function ItemCount(r: Recipe): nat
  {
    |r.ingredients| + |r.instructions|
  }

  lemma CardPartsCount(name: string, desc: string, ingredients: string, steps: string, c: char)
    ensures Count(CardHead + name + CardAfterName + desc + CardAfterDescription + ingredients
                  + CardAfterIngredients + steps + CardTail, c)
         == Count(CardHead, c) + Count(name, c) + Count(CardAfterName, c) + Count(desc, c)
            + Count(CardAfterDescription, c) + Count(ingredients, c)
            + Count(CardAfterIngredients, c) + Count(steps, c) + Count(CardTail, c)
  {
    var p1 := CardHead + name;
    var p2 := p1 + CardAfterName;
    var p3 := p2 + desc;
    var p4 := p3 + CardAfterDescription;
    var p5 := p4 + ingredients;
    var p6 := p5 + CardAfterIngredients;
    var p7 := p6 + steps;
    CountAppend(CardHead, name, c);
    CountAppend(p1, CardAfterName, c);
    CountAppend(p2, desc, c);
    CountAppend(p3, CardAfterDescription, c);
    CountAppend(p4, ingredients, c);
    CountAppend(p5, CardAfterIngredients, c);
    CountAppend(p6, steps, c);
    CountAppend(p7, CardTail, c);
  }

  /** The recipe section: the cards of the suggested recipes joined in order.
      It carries the template's tags once per recipe plus two per list item,
      whatever the recipes' text. */
  function RecipeCards(recipes: seq<Recipe>): (html: string)
    ensures forall c | c == '<' || c == '>' ::
      Count(html, c) == |recipes| * TemplateCount(c) + 2 * TotalItems(recipes)
  {
    forall c | c == '<' || c == '>'
      ensures Count(JoinMapped(recipes, RecipeCard), c)
           == |recipes| * TemplateCount(c) + 2 * TotalItems(recipes)
    {
      RecipeCardsTags(recipes, c);
    }
    JoinMapped(recipes, RecipeCard)
  }

  /** Total list items over a run of recipes. */
  function TotalItems(recipes: seq<Recipe>): nat
  {
    if recipes == [] then 0 else ItemCount(recipes[0]) + TotalItems(recipes[1..])
  }

  lemma {:induction false} RecipeCardsTags(recipes: seq<Recipe>, c: char)
    requires c == '<' || c == '>'
    ensures Count(JoinMapped(recipes, RecipeCard), c)
         == |recipes| * TemplateCount(c) + 2 * TotalItems(recipes)
  {
    if recipes != [] {
      var first, others := recipes[0], recipes[1..];
      var k := TemplateCount(c);
      assert |recipes| * k == k + |others| * k;
      RecipeCardsTags(others, c);
      var card, rest := RecipeCard(first), JoinMapped(others, RecipeCard);
      assert JoinMapped(recipes, RecipeCard) == card + rest;
      CountAppend(card, rest, c);
    }
  }

  /** The recipe section is the cards of the recipes in order: the section of
      a longer list extends that of its first part by one card. */
  lemma RecipeCardsSnoc(recipes: seq<Recipe>, r: Recipe)
    ensures RecipeCards(recipes + [r]) == RecipeCards(recipes) + RecipeCard(r)
  {
    JoinMappedSnoc(recipes, r, RecipeCard);
  }

  lemma JoinMappedSnoc<T>(xs: seq<T>, x: T, f: T -> string)
    ensures JoinMapped(xs + [x], f) == JoinMapped(xs, f) + f(x)
  {
    JoinMappedAppend(xs, [x], f);
    assert JoinMapped([x], f) == f(x) + JoinMapped([x][1..], f);
  }
}
