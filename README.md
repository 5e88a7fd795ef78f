# Nutritional meal analyser: the local logic, modelled in Dafny

The page takes a free-text meal description, asks a generative-AI service for
a nutrition estimate and recipe suggestions, and renders the JSON it gets back
as HTML. The nutrition work itself is done by the service. The page does
three things on its own, and this project models and proves all three:

- **HTML escaping** (`escapeHTML`). Each of `& < > " '` becomes a fixed
  entity. Every other character is copied through. A value that is not a
  string gives `""`. Module `Escape`, file `escape.dfy`.
- **List rendering** in recipe cards. Each ingredient or step is escaped and
  wrapped in `<li>…</li>`. Each recipe becomes a card. The fragments are
  joined in order with nothing between. Module `Templates`, file
  `templates.dfy`, which also holds the shape of the parsed result.
- **The submit handler's decision.** The input is trimmed and an empty input
  is refused. Next comes the client check, then the call. A result lacking
  `estimatedNutrition` or `suggestedRecipes` becomes an "incomplete data"
  error. A caught error's message is mapped to one of three user texts by
  substring, in a fixed priority. Module `Submit`, file `submit.dfy`.

The string built-ins these rely on are written out in module `JsString`,
file `js_string.dfy`: `trim` with the ECMAScript whitespace set, `includes`,
and prefix tests.

The handler is a pure function, `HandleSubmit(rawInput, hasClient,
analyze)`. The analysis call is the parameter `analyze`. It receives the
trimmed text and either returns parsed JSON or throws a value, seen through
its `message` member, which may or may not be a string. The outcome records
the text sent to the service, or `None` when no call is made, and the view
shown: an error text, the rendered result, or the loading spinner left in
place when the error handler itself fails.

`Unescape` is an independent decoder of the five entities. It is proved to be
the exact inverse of escaping in both directions. `ParseItems` reads a
rendered list back. It is proved to recover every item's text in order.

## Model

| member | source | states |
|---|---|---|
| `JsString.Trim` | script.js:230 | the result is `s` with a whitespace-only run removed from each end; it is empty exactly when `s` is all whitespace; otherwise it starts and ends with a non-whitespace character |
| `JsString.TrimStartIndex` | script.js:230 | every character before the index is whitespace and the one at the index is not |
| `JsString.TrimEndIndex` | script.js:230 | every character from the index on is whitespace and the one before it is not |
| `JsString.TrimIdempotent` | script.js:230 | trimming a trimmed text changes nothing |
| `JsString.Includes` | script.js:254-256 | the empty text is included in every text, and an included text is no longer than the text searched; its exact meaning is `IncludesIffOccurs` |
| `JsString.IncludesIffOccurs` | script.js:254-256 | `includes` holds exactly when the text occurs at some position |
| `JsString.MissingCharExcludes` | script.js:254-256 | a text that lacks one of the characters of `sub` does not include `sub` |
| `Escape.EscapeChar` | script.js:121-122 | a special character becomes an entity that starts with `&` and ends with `;`; any other character is kept as it is |
| `Escape.EscapeChars` | script.js:121-122 | the output contains none of `<`, `>`, `"`, `'` and is at least as long as the input |
| `Escape.EscapeHTML` | script.js:119-124 | a non-string gives `""`; a string gives markup-free text that decodes back to that string |
| `Escape.EntityAt` | script.js:122 | a character it reports is special, and its entity begins the text |
| `Escape.UnescapeEscape` | script.js:121-122 | decoding the escaped text gives the input back |
| `Escape.EscapeUnescape` | script.js:121-122 | every text that decodes is the escape of what it decodes to, so the escaped texts are exactly the decodable ones |
| `Escape.EscapeInjective` | script.js:121-122 | distinct strings escape differently |
| `Escape.EscapeAppend` | script.js:121 | escaping works character by character: escaping `a + b` gives the escape of `a` followed by the escape of `b` |
| `Escape.EscapeLength` | script.js:121-122 | the output length is the input length plus 4, 3, 3, 5 or 4 for each `&`, `<`, `>`, `"` or `'` |
| `Escape.EscapeIdentity` | script.js:121 | a string is returned unchanged exactly when it has none of the five special characters |
| `Escape.NoSpecialUnchanged` | script.js:121 | a string without special characters is copied through unchanged |
| `Escape.AmpersandsOpenEntities` | script.js:121-122 | every `&` in the output starts one of `&amp;`, `&lt;`, `&gt;`, `&quot;`, `&#39;` |
| `Templates.JoinMapped` | script.js:135-141 | mapping an array and joining with `''` (also script.js:202): an empty array gives `""`, one element gives exactly its fragment with no separator, and the first fragment begins the result; `JoinMappedAppend` states how it splits |
| `Templates.JoinMappedAppend` | script.js:202 | mapping then joining two runs one after the other gives the join of their concatenation |
| `Templates.ItemHTML` | script.js:135 | one list item holds exactly two `<` and two `>`: its own tags |
| `Templates.ListItems` | script.js:135-141 | a list of n items holds exactly 2n `<` and 2n `>`, whatever the items' text |
| `Templates.ListItemsTags` | script.js:135-141 | the count of tag brackets in the joined items, by induction over the items |
| `Templates.ParseListItems` | script.js:135-141 | reading a rendered list back gives every item's text in order; a non-string item reads as `""` |
| `Templates.ParseItemStep` | script.js:135 | one item is read up to its closing tag, which text without markup cannot imitate |
| `Templates.RecipeCard` | script.js:126-147 | a card's `<` and `>` are the template's own plus two per list item, whatever the recipe's name, description and items say |
| `Templates.RecipeCards` | script.js:202 | the recipe section holds the template's tags once per recipe plus two per list item, whatever the recipes' text |
| `Templates.RecipeCardsTags` | script.js:202 | the bracket count of the joined cards, by induction over the recipes |
| `Templates.RecipeCardsSnoc` | script.js:202 | the recipe section is the cards in order with nothing between; a corollary of `JoinMappedAppend` for a single last recipe |
| `Submit.IsComplete` | script.js:246 | the completeness test: the call returned an object with both `estimatedNutrition` and `suggestedRecipes`; its consequences are stated by `Attempt` and `ResultsOnlyWhenComplete` |
| `Submit.IsRenderable` | script.js:194 | a complete object whose calorie count is present, so `toFixed` does not throw; its consequences are stated by `Attempt` and `UnrenderableResultShowsGeneric` |
| `Submit.Attempt` | script.js:244-250 | results are kept exactly when the call returned an object with both required members and a calorie count. An incomplete object becomes the "incomplete data" error. A complete one without calories throws in `toFixed`. A thrown value keeps its `message`, string or not |
| `Submit.ErrorMessageFor` | script.js:253-258 | the invalid-key text exactly when the message includes "API key not valid"; the bad-input text exactly when it includes "400" and not that text; the generic text exactly when it includes neither |
| `Submit.HandleSubmit` | script.js:228-262 | every error shown is one of the five handler texts. The service is called exactly when the input is not blank and a client exists, and it receives the trimmed, non-empty input. The spinner stays exactly when the call threw a value without a string message |
| `Submit.BlankInputIsRefused` | script.js:230-235 | all-whitespace input gives the "please enter" text and no call, whether or not a client exists and whatever the service would answer |
| `Submit.MissingClientIsRefused` | script.js:237-240 | non-blank input without a client gives the configuration text and no call |
| `Submit.ResultsOnlyWhenComplete` | script.js:245-247 | results are shown exactly when the input is not blank, a client exists, and the call returned a complete object with calories; what is shown is that object |
| `Submit.UnrenderableResultShowsGeneric` | script.js:246-258 | a returned value that is incomplete, or lacks calories, is never rendered: the generic text is shown after the call |
| `Submit.IncompleteDataIsGeneric` | script.js:249-258 | "AI returned incomplete data." includes neither trigger, so it maps to the generic text |
| `Submit.MissingCaloriesIsGeneric` | script.js:194 | the engine's `toFixed` error includes neither trigger, so it maps to the generic text |
| `Submit.ErrorMessagePriority` | script.js:253-258 | "API key not valid" anywhere gives the invalid-key text even when "400" occurs too; "400" alone gives the bad-input text; anything else gives the generic text |
| `Submit.ThrownErrorIsMapped` | script.js:251-259 | an error with a string message thrown by the call is shown through the error mapping, after the service was asked with the trimmed input |
| `Submit.UnreadableErrorLeavesSpinner` | script.js:251-261 | a thrown value without a string message makes `err.message.includes` throw inside the handler: no error box is written and the spinner set when loading began stays |

## Left out

- Client setup, `getApiKey`, `sessionStorage` and the embedded credential (script.js:1-18): foreign library and browser storage. Whether a client exists is the parameter `hasClient`.
- `analyzeMealAndSuggestRecipes` (script.js:69-92): prompt text, network call and `JSON.parse` of the service's reply. It is the opaque parameter `analyze`. Anything `JSON.parse` gives back that is not an object is `None`.
- `recipeSchema` and `analysisSchema` (script.js:21-60): configuration handed to the library. Nothing local enforces them.
- `createNutritionChartHTML` (script.js:149-180) and the `toFixed` formatting: floating-point percentages and rounding. This includes the fallback paragraph for a zero total. Nutrition numbers are carried as exact `real` values and are only tested for presence.
- The fixed markup of the spinner, the error box and the results page (script.js:95-117, 182-206): constant layout. A view is an error text or the parsed result, not its markup. The recipe cards' markup is kept exactly.
- The second exception, thrown by the error handler when a thrown value has no string message (script.js:254): only its effect on the results area is modelled (`LoadingView`), not the rejected promise or the button reset by `finally`.
- `setUILoading`, `innerHTML` writes, `preventDefault`, `console.error`, and the async/await and `finally` sequencing (script.js:209-225, 228-262): page side effects. No second submission while a call is in flight is possible on the page, and that is not modelled.
- Submit.Attempt: typed fields only. The model assumes recipe fields are arrays, `suggestedRecipes` is an array and nutrition numbers are numbers or missing. Other malformed JSON that would throw while rendering is not modelled: an array field holding a non-array, or `null` for a number. Only the missing calorie count is, with V8's message text.
- JsString.Trim: on Unicode scalar values. JavaScript strings are UTF-16 code units; the whitespace set is the same.
