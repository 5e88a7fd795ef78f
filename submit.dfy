/**
  The decision the form's submit handler makes, with the page and the network
  taken out: from the raw text of the input box, whether an AI client was set
  up, and what the analysis call gives back, it chooses what the results area
  shows and whether the service is asked at all. The analysis call itself is
  the parameter `analyze`: it receives the trimmed text and either returns a
  parsed JSON value or throws a value whose `message` may or may not be a
  string.
 */
module Submit {
  import opened JsString
  import opened Templates

  const EmptyInputMessage: string := "Please enter a meal or ingredients to analyze."
  const NoClientMessage: string := "API Key is not configured. Please reload and try again."
  // The longer texts searched for triggers are written in pieces: one long
  // literal makes the character-absence lemmas below costly to prove.
  const IncompleteDataMessage: string := "AI returned " + "incomplete data."
  const GenericMessage: string := "Something went wrong. Try a simpler input or check your connection."
  const InvalidKeyMessage: string := "Invalid API Key. Please regenerate your key."
  const BadInputMessage: string := "Bad input. Please simplify your meal description."

  /** What the JavaScript engine (V8's wording) throws when the results
      template calls `toFixed` on a missing calorie count. */
  const MissingCaloriesError: string :=
    "Cannot read " + "properties of " + "undefined " + "(reading 'toFixed')"

  /** The texts searched for in a caught error's message. */
  const InvalidKeyTrigger: string := "API key not valid"
  const BadRequestTrigger: string := "400"

  /** What the analysis call gives back: the parsed JSON (`None` for a value
      that is not an object: `null`, a number, a string, an array), or a
      value thrown by the service, the client library or `JSON.parse`, seen
      through its `message` member (`NotStr` when the thrown value has no
      string message). */
  datatype Response = Returned(parsed: Option<Analysis>) | Threw(message: JsValue)

  /** What the results area shows: an error box, the results, or the loading
      spinner left in place when the error handler itself fails. */
  datatype View = ErrorView(message: string) | ResultsView(data: Analysis) | LoadingView

  /** The text sent to the service (`None`: no call is made) and the view. */
  datatype Outcome = Outcome(request: Option<string>, view: View)

  /** The call returned an object whose nutrition estimate and recipe list
      are both present. */
  predicate IsComplete(parsed: Option<Analysis>)
  {
    parsed.Some? && parsed.value.estimatedNutrition.Some?
    && parsed.value.suggestedRecipes.Some?
  }

  /** The results template can be filled in: it reads
      `estimatedNutrition.calories.toFixed`, which throws when the calorie
      count is missing. */
  predicate IsRenderable(parsed: Option<Analysis>)
  {
    IsComplete(parsed) && parsed.value.estimatedNutrition.value.calories.Some?
  }

  /** The body of the `try`: a complete result is rendered; an incomplete one
      becomes a thrown "incomplete data" error; a complete one without a
      calorie count throws while rendering; an error thrown by the call
      passes through with its message. */
  function Attempt(response: Response): (r: Result)
    ensures r.Rendered? <==> response.Returned? && IsRenderable(response.parsed)
    ensures r.Rendered? ==> r.data == response.parsed.value
    ensures r.Caught? && response.Returned? ==>
      r.message == Str(if IsComplete(response.parsed) then MissingCaloriesError else IncompleteDataMessage)
    ensures r.Caught? && response.Threw? ==> r.message == response.message
  {
    match response
    case Returned(parsed) =>
      if !IsComplete(parsed) then Caught(Str(IncompleteDataMessage))
      else if parsed.value.estimatedNutrition.value.calories.None? then Caught(Str(MissingCaloriesError))
      else Rendered(parsed.value)
    case Threw(message) => Caught(message)
  }

  /** How the `try` block ends. */
  datatype Result = Rendered(data: Analysis) | Caught(message: JsValue)

  /** The `catch` block: the user-facing text for a caught error's message.
      The invalid-key test comes first, so it wins over "400". */
  function ErrorMessageFor(message: string): (r: string)
    ensures r == InvalidKeyMessage <==> Includes(message, InvalidKeyTrigger)
    ensures r == BadInputMessage
        <==> !Includes(message, InvalidKeyTrigger) && Includes(message, BadRequestTrigger)
    ensures r == GenericMessage
        <==> !Includes(message, InvalidKeyTrigger) && !Includes(message, BadRequestTrigger)
  {
    if Includes(message, InvalidKeyTrigger) then InvalidKeyMessage
    else if Includes(message, BadRequestTrigger) then BadInputMessage
    else GenericMessage
  }

  /** The five texts the handler can show in its error box. */
  predicate IsUserMessage(m: string)
  {
    m == EmptyInputMessage || m == NoClientMessage || m == GenericMessage
    || m == InvalidKeyMessage || m == BadInputMessage
  }

  /** The submit handler. When the caught value has no string message, the
      search for the trigger texts throws inside the error handler: no error
      box is written and the spinner shown while loading stays. */
  function HandleSubmit(rawInput: string, hasClient: bool, analyze: string -> Response): (o: Outcome)
    ensures o.view.ErrorView? ==> IsUserMessage(o.view.message)
    ensures o.request.Some? <==> !AllWhitespace(rawInput) && hasClient
    ensures o.request.Some? ==> o.request.value == Trim(rawInput) && o.request.value != []
    ensures o.view.LoadingView?
        <==> o.request.Some? && analyze(o.request.value).Threw?
             && analyze(o.request.value).message.NotStr?
  {
    var input := Trim(rawInput);
    if input == [] then Outcome(None, ErrorView(EmptyInputMessage))
    else if !hasClient then Outcome(None, ErrorView(NoClientMessage))
    else
      var view :=
        match Attempt(analyze(input))
        case Rendered(data) => ResultsView(data)
        case Caught(Str(message)) => ErrorView(ErrorMessageFor(message))
        case Caught(NotStr) => LoadingView;
      Outcome(Some(input), view)
  }

  /** Blank input is refused before anything else: whether or not a client
      exists and whatever the service would answer, no call is made and the
      "please enter" text is shown. */
  lemma BlankInputIsRefused(rawInput: string, hasClient: bool, analyze: string -> Response)
    requires AllWhitespace(rawInput)
    ensures HandleSubmit(rawInput, hasClient, analyze) == Outcome(None, ErrorView(EmptyInputMessage))
  {
  }

  /** Without a client, non-blank input is refused with the configuration
      text and no call is made. */
  lemma MissingClientIsRefused(rawInput: string, analyze: string -> Response)
    requires !AllWhitespace(rawInput)
    ensures HandleSubmit(rawInput, false, analyze) == Outcome(None, ErrorView(NoClientMessage))
  {
  }

  /** Results are shown exactly when the input is not blank, a client exists
      and the service returned an object with both required members and a
      calorie count; what is shown is that object. */
  lemma ResultsOnlyWhenComplete(rawInput: string, hasClient: bool, analyze: string -> Response)
    ensures HandleSubmit(rawInput, hasClient, analyze).view.ResultsView?
        <==> !AllWhitespace(rawInput) && hasClient
             && analyze(Trim(rawInput)).Returned?
             && IsRenderable(analyze(Trim(rawInput)).parsed)
    ensures HandleSubmit(rawInput, hasClient, analyze).view.ResultsView?
        ==> HandleSubmit(rawInput, hasClient, analyze).view.data
            == analyze(Trim(rawInput)).parsed.value
  {
  }

  /** A result that cannot be rendered is never shown: an incomplete one, and
      a complete one without calories, end in errors whose messages hold
      neither trigger text, so the generic text is shown. */
  lemma UnrenderableResultShowsGeneric(rawInput: string, analyze: string -> Response)
    requires !AllWhitespace(rawInput)
    requires analyze(Trim(rawInput)).Returned?
    requires !IsRenderable(analyze(Trim(rawInput)).parsed)
    ensures HandleSubmit(rawInput, true, analyze) == Outcome(Some(Trim(rawInput)), ErrorView(GenericMessage))
  {
    IncompleteDataIsGeneric();
    MissingCaloriesIsGeneric();
  }

  /** "AI returned incomplete data." has no 'k' and no '4', so it contains
      neither trigger text. */
  lemma IncompleteDataIsGeneric()
    ensures ErrorMessageFor(IncompleteDataMessage) == GenericMessage
  {
    IncompleteDataLetters();
    MissingCharExcludes(IncompleteDataMessage, InvalidKeyTrigger, 4);
    MissingCharExcludes(IncompleteDataMessage, BadRequestTrigger, 0);
  }

  lemma IncompleteDataLetters()
    ensures InvalidKeyTrigger[4] !in IncompleteDataMessage
    ensures BadRequestTrigger[0] !in IncompleteDataMessage
  {
  }

  /** The engine's `toFixed` error includes neither trigger text either. */
  lemma MissingCaloriesIsGeneric()
    ensures ErrorMessageFor(MissingCaloriesError) == GenericMessage
  {
    MissingCaloriesLacks('k');
    MissingCaloriesLacks('4');
    MissingCharExcludes(MissingCaloriesError, InvalidKeyTrigger, 4);
    MissingCharExcludes(MissingCaloriesError, BadRequestTrigger, 0);
  }

  /** The engine's `toFixed` error has no 'k' and no '4'. */
  lemma MissingCaloriesLacks(c: char)
    requires c == 'k' || c == '4'
    ensures c !in MissingCaloriesError
  {
  }

  /** The error texts in priority order, stated with the positional
      definition of a substring: "API key not valid" anywhere in the message
      gives the invalid-key text even when "400" occurs too; "400" without it
      gives the bad-input text; anything else the generic text. */
  lemma ErrorMessagePriority(message: string)
    ensures (exists i :: OccursAt(message, InvalidKeyTrigger, i))
        ==> ErrorMessageFor(message) == InvalidKeyMessage
    ensures (forall i :: !OccursAt(message, InvalidKeyTrigger, i))
            && (exists i :: OccursAt(message, BadRequestTrigger, i))
        ==> ErrorMessageFor(message) == BadInputMessage
    ensures (forall i :: !OccursAt(message, InvalidKeyTrigger, i))
            && (forall i :: !OccursAt(message, BadRequestTrigger, i))
        ==> ErrorMessageFor(message) == GenericMessage
  {
    IncludesIffOccurs(message, InvalidKeyTrigger);
    IncludesIffOccurs(message, BadRequestTrigger);
  }

  /** An error thrown by the analysis call is shown through the error-text
      mapping, after the service was asked with the trimmed input. */
  lemma ThrownErrorIsMapped(rawInput: string, analyze: string -> Response)
    requires !AllWhitespace(rawInput)
    requires analyze(Trim(rawInput)).Threw? && analyze(Trim(rawInput)).message.Str?
    ensures HandleSubmit(rawInput, true, analyze)
         == Outcome(Some(Trim(rawInput)),
                    ErrorView(ErrorMessageFor(analyze(Trim(rawInput)).message.s)))
  {
  }

  /** A thrown value without a string message makes the error handler fail:
      the service was asked, no error box is written and the spinner stays. */
  lemma UnreadableErrorLeavesSpinner(rawInput: string, analyze: string -> Response)
    requires !AllWhitespace(rawInput)
    requires analyze(Trim(rawInput)).Threw? && analyze(Trim(rawInput)).message.NotStr?
    ensures HandleSubmit(rawInput, true, analyze) == Outcome(Some(Trim(rawInput)), LoadingView)
  {
  }
}
