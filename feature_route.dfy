/** `POST` of src/app/api/feature-description/route.ts: a description of one
    TV feature from the model, or a canned one from a five-entry table. The
    request body, the environment and the model are parameters. */
module FeatureDescription {
  import opened Wrappers
  import opened Text
  import opened RouteInput

  /** The handler's outcome: an error reply with its status, a description
      reply (status 200), or an exception the handler does not catch. */
  datatype Reply =
    | ErrorReply(status: nat, error: string)
    | DescriptionReply(feature: Field, description: string, success: bool)
    | HandlerThrew

  /** The `fallbacks` object of the `catch` block. */
  const FallbackTable: map<string, string> := map[
    "OLED" := "OLED technology delivers perfect blacks and infinite contrast by controlling each individual pixel. Unlike traditional LED TVs, OLED pixels emit their own light and can turn completely off, creating true blacks that make colors pop with incredible vibrancy.",
    "QLED" := "QLED uses quantum dots to produce pure, accurate colors across a wider spectrum. Samsung's QLED displays deliver 100% Color Volume, ensuring brilliant colors at any brightness level.",
    "4K" := "4K Ultra HD resolution delivers four times the detail of Full HD with over 8 million pixels. Every scene comes alive with incredible clarity and fine detail.",
    "HDR" := "HDR technology expands the range of colors and contrast for more realistic images. HDR reveals details in both shadows and highlights.",
    "Smart TV" := "Built-in smart functionality gives you access to all your favorite streaming apps and content without additional devices."
  ]

  const TemplateTail := " enhances your Samsung TV viewing experience with advanced technology."

  /** `fallbacks[feature] || `${feature} enhances …``; every table entry is
      a non-empty string, so `||` falls through only on a missing key. */
  function FallbackDescription(name: string): string
  {
    if name in FallbackTable then FallbackTable[name] else name + TemplateTail
  }

  /** The `catch` reply for the feature that was requested. */
  function Fallback(feature: Field): Reply
  {
    DescriptionReply(feature, FallbackDescription(Rendered(feature)), false)
  }

  /** The handler as written: `feature` is declared with `const` inside the
      `try` block, so the `catch` block's `feature` names no binding and
      throws a ReferenceError before any reply is built. */
  function DescribeAsWritten(body: RequestBody, apiKey: Option<string>, model: string -> ModelOutcome): Reply
  {
    if body.BodyThrew? then HandlerThrew
    else if Falsy(body.field) then ErrorReply(400, "Feature name is required")
    else if KeyMissing(apiKey) then ErrorReply(500, "API key not configured")
    else match model(Rendered(body.field))
      case ModelThrew(_) => HandlerThrew
      case ModelText(text) => DescriptionReply(body.field, JsTrim(text), true)
  }

  /** The handler with `feature` declared before the `try`, as the `catch`
      block evidently means: a body that cannot be read leaves it `undefined`. */
  function Describe(body: RequestBody, apiKey: Option<string>, model: string -> ModelOutcome): Reply
  {
    if body.BodyThrew? then Fallback(FieldAbsent)
    else if Falsy(body.field) then ErrorReply(400, "Feature name is required")
    else if KeyMissing(apiKey) then ErrorReply(500, "API key not configured")
    else match model(Rendered(body.field))
      case ModelThrew(_) => Fallback(body.field)
      case ModelText(text) => DescriptionReply(body.field, JsTrim(text), true)
  }

  /** The feature is checked before the key; the model's text is handed on
      trimmed with `success: true`; every failure after validation gets the
      table's description with `success: false`, and the handler never throws. */
  lemma DescribeSpec(body: RequestBody, apiKey: Option<string>, model: string -> ModelOutcome)
    ensures var r := Describe(body, apiKey, model);
      && (r.ErrorReply? && r.status == 400 <==> body.BodyParsed? && Falsy(body.field))
      && (r.ErrorReply? && r.status == 500 <==> body.BodyParsed? && !Falsy(body.field) && KeyMissing(apiKey))
      && (r.ErrorReply? ==> r.status == 400 || r.status == 500)
      && r != HandlerThrew
      && (r.DescriptionReply? && r.success <==>
            body.BodyParsed? && !Falsy(body.field) && !KeyMissing(apiKey) && model(Rendered(body.field)).ModelText?)
      && (r.DescriptionReply? && r.success ==>
            r.feature == body.field && r.description == JsTrim(model(Rendered(body.field)).text))
      && (r.DescriptionReply? && !r.success ==>
            r.description == FallbackDescription(Rendered(r.feature))
            && (body.BodyParsed? ==> r.feature == body.field))
  {
  }

  /** Each of the five names gets exactly its table text, matched with its
      exact spelling; any other name gets the template naming it. */
  lemma FallbackSpec(name: string)
    ensures name in FallbackTable ==> FallbackDescription(name) == FallbackTable[name]
    ensures name !in FallbackTable ==> FallbackDescription(name) == name + TemplateTail
    ensures name in FallbackTable <==> name in {"OLED", "QLED", "4K", "HDR", "Smart TV"}
    ensures FallbackDescription(name) != ""
  {
  }

  /** Keys are compared as written: a lower-case name is not in the table. */
  lemma FallbackIsCaseSensitive()
    ensures "OLED" in FallbackTable
    ensures FallbackDescription("oled") == "oled" + TemplateTail
  {
    assert "oled" != "OLED" by { assert "oled"[0] != "OLED"[0]; }
    assert "oled" != "QLED" by { assert "oled"[0] != "QLED"[0]; }
    assert "oled" != "4K" by { assert |"oled"| != |"4K"|; }
    assert "oled" != "HDR" by { assert |"oled"| != |"HDR"|; }
    assert "oled" != "Smart TV" by { assert |"oled"| != |"Smart TV"|; }
  }

  /** The two handlers agree except where the corrected one falls back: on
      every such input the one as written throws instead of replying. */
  lemma ScopeFinding(body: RequestBody, apiKey: Option<string>, model: string -> ModelOutcome)
    ensures var fixed := Describe(body, apiKey, model);
      && (fixed.DescriptionReply? && !fixed.success ==> DescribeAsWritten(body, apiKey, model) == HandlerThrew)
      && (!(fixed.DescriptionReply? && !fixed.success) ==> DescribeAsWritten(body, apiKey, model) == fixed)
  {
  }

  /** A concrete input that shows it: a "QLED" request whose model call fails
      gets the QLED text from the corrected handler, while the one as written
      throws. */
  lemma ScopeFindingExample(error: Thrown)
    ensures var model := (s: string) => ModelThrew(error);
      var body := BodyParsed(FieldString("QLED"));
      && DescribeAsWritten(body, Some("key"), model) == HandlerThrew
      && Describe(body, Some("key"), model) == DescriptionReply(FieldString("QLED"), FallbackTable["QLED"], false)
  {
    var body := BodyParsed(FieldString("QLED"));
    assert !Falsy(body.field);
    assert !KeyMissing(Some("key"));
  }
}
