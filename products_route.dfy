/** What the two API routes read from their environment: the destructured
    request field, the API key, and the values a handler can throw. */
module RouteInput {
  import opened Wrappers

  /** A value thrown inside a handler: an `Error` with its message, or any
      other value. */
  datatype Thrown = ErrorThrown(message: string) | OtherThrown

  /** A field destructured from the parsed JSON body: a string, missing
      (`undefined` or `null`), or any other JSON value with its truthiness and
      its template-literal rendering. */
  datatype Field = FieldString(text: string) | FieldAbsent | FieldOther(truthy: bool, rendered: string)

  /** `!field`. */
  predicate Falsy(f: Field)
  {
    match f
    case FieldString(text) => text == ""
    case FieldAbsent => true
    case FieldOther(truthy, _) => !truthy
  }

  /** `${field}`. */
  function Rendered(f: Field): string
  {
    match f
    case FieldString(text) => text
    case FieldAbsent => "undefined"
    case FieldOther(_, rendered) => rendered
  }

  /** `await request.json()` followed by destructuring one field: it throws
      on a body that is not JSON or is `null`. */
  datatype RequestBody = BodyThrew(error: Thrown) | BodyParsed(field: Field)

  /** `generateContent` then `response.text()`: text, or a thrown value. */
  datatype ModelOutcome = ModelThrew(error: Thrown) | ModelText(text: string)

  /** `!process.env.GEMINI_API_KEY`: unset or empty. */
  predicate KeyMissing(apiKey: Option<string>)
  {
    apiKey.None? || apiKey.value == ""
  }
}

/** `POST` of src/app/api/generate-products/route.ts: validation, catalog
    loading, one model call, the repair and parse of its output, and the two
    canned fallbacks. The request body, the environment, the catalog file, the
    model and `JSON.parse` are parameters. */
module GenerateProducts {
  import opened Wrappers
  import opened Text
  import opened RouteInput
  import opened JsonRepair

  /** Characters of the serialised catalog placed in the prompt. */
  const CatalogLimit := 15000

  const DifficultiesText := "I'm having some technical difficulties, but here's a great TV recommendation."

  /** A UTF-16 code unit: JavaScript strings, and so `length` and `slice`,
      count these, and a character outside the Basic Multilingual Plane takes
      two of them. */
  newtype CodeUnit = x: int | 0 <= x < 0x1_0000

  /** `tv_feed.json`: absent, unreadable or not JSON, or loaded; a loaded
      catalog is held as the code units of its `JSON.stringify` text. */
  datatype CatalogFile = CatalogMissing | CatalogUnreadable | CatalogLoaded(serialized: seq<CodeUnit>)

  /** What the prompt carries besides its fixed wording. */
  datatype ModelRequest = ModelRequest(query: string, catalogExcerpt: seq<CodeUnit>)

  /** The `topFeatures` of a parsed object: absent or `null`, a value with a
      `slice` method (array or string), or any other value. */
  datatype TopFeatures = FeaturesAbsent | FeaturesSliceable | FeaturesNotSliceable

  /** One element of the parsed array, as far as the handler inspects it. */
  datatype Item = NullItem | ScalarItem(json: string) | ObjectItem(json: string, topFeatures: TopFeatures)

  /** A product card of the reply: a parsed element handed on as it is, or
      one of the two hard-coded cards. */
  datatype Card =
    | GeneratedCard(item: Item)
    | FixedCard(frontImage: string, tvType: string, topFeatures: seq<string>,
                currentPrice: string, suggestedPrice: string, availableSizes: seq<string>,
                description: string)

  datatype Body =
    | ErrorBody(error: string)
    | ResultBody(productCards: seq<Card>, chatResponse: string, success: bool, errorMessage: Option<string>)

  datatype Response = Response(status: nat, body: Body)

  /** `JSON.stringify(tvFeed).slice(0, 15000)`: the first 15000 code units,
      which may end halfway through a surrogate pair. */
  function CatalogExcerpt(serialized: seq<CodeUnit>): (r: seq<CodeUnit>)
    ensures |r| <= CatalogLimit
    ensures r <= serialized
    ensures |serialized| <= CatalogLimit ==> r == serialized
    ensures |serialized| > CatalogLimit ==> |r| == CatalogLimit
  {
    if |serialized| <= CatalogLimit then serialized else serialized[..CatalogLimit]
  }

  /** Logging the first card's sample (`productCards[0].tvType`,
      `productCards[0].topFeatures?.slice(0, 2)`) throws. */
  predicate SampleThrows(item: Item)
  {
    item.NullItem? || (item.ObjectItem? && item.topFeatures == FeaturesNotSliceable)
  }

  /** The parse succeeded and the sample log that follows it does not throw. */
  predicate ParseUsable(parsed: Option<seq<Item>>)
  {
    parsed.Some? && (|parsed.value| == 0 || !SampleThrows(parsed.value[0]))
  }

  function ParsedCards(items: seq<Item>): (cards: seq<Card>)
    ensures |cards| == |items|
    ensures forall i :: 0 <= i < |items| ==> cards[i] == GeneratedCard(items[i])
  {
    seq(|items|, i requires 0 <= i < |items| => GeneratedCard(items[i]))
  }

  /** The reply's cards lose no parsed element and reorder none: the conversion
      distributes over concatenation, and distinct parses give distinct cards. */
  lemma ParsedCardsLossless(a: seq<Item>, b: seq<Item>)
    ensures ParsedCards(a + b) == ParsedCards(a) + ParsedCards(b)
    ensures ParsedCards(a) == ParsedCards(b) <==> a == b
  {
    assert ParsedCards(a + b) == ParsedCards(a) + ParsedCards(b) by {
      forall i | 0 <= i < |a + b|
        ensures ParsedCards(a + b)[i] == (ParsedCards(a) + ParsedCards(b))[i]
      {
        if i < |a| {
          assert (a + b)[i] == a[i];
        } else {
          assert (a + b)[i] == b[i - |a|];
        }
      }
    }
    if ParsedCards(a) == ParsedCards(b) {
      forall i | 0 <= i < |a|
        ensures a[i] == b[i]
      {
        assert ParsedCards(a)[i].item == a[i];
        assert ParsedCards(b)[i].item == b[i];
      }
    }
  }

  /** The card used when the model's output cannot be parsed. */
  function CannedCard(query: string): Card
  {
    FixedCard(
      "https://images.samsung.com/is/image/samsung/assets/us/tvs/gallery-qn90c.jpg",
      "Samsung Neo QLED 4K QN90C",
      ["Neo Quantum Processor 4K", "Quantum HDR 32X", "120Hz Gaming"],
      "$1,299", "$1,599",
      ["55\"", "65\"", "75\""],
      "Perfect for " + query + ". This Neo QLED delivers exceptional performance.")
  }

  /** The card of the outer `catch`. */
  const FallbackCard := FixedCard(
    "https://images.samsung.com/is/image/samsung/assets/us/tvs/gallery-neo-qled.jpg",
    "Samsung Neo QLED TV",
    ["4K Resolution", "Smart TV", "HDR"],
    "$999", "$1,199",
    ["55\"", "65\""],
    "Great Samsung TV option for your needs.")

  function ChatLine(count: nat, query: string): string
  {
    "I found " + Decimal(count) + " great Samsung TV options based on your query: \"" + query + "\""
  }

  /** `error instanceof Error ? error.message : 'Unknown error'`. */
  function ErrorMessage(error: Thrown): string
  {
    match error
    case ErrorThrown(message) => message
    case OtherThrown => "Unknown error"
  }

  /** The reply of the outer `catch`. */
  function FailureResponse(error: Thrown): Response
  {
    Response(200, ResultBody([FallbackCard], DifficultiesText, false, Some(ErrorMessage(error))))
  }

  /** The body was read and named a query. */
  predicate Validated(body: RequestBody)
  {
    body.BodyParsed? && !Falsy(body.field)
  }

  /** The handler gets as far as the model call. */
  predicate ReachesModel(body: RequestBody, apiKey: Option<string>, catalog: CatalogFile)
  {
    Validated(body) && !KeyMissing(apiKey) && catalog.CatalogLoaded?
  }

  function RequestFor(body: RequestBody, catalog: CatalogFile): ModelRequest
    requires body.BodyParsed? && catalog.CatalogLoaded?
  {
    ModelRequest(Rendered(body.field), CatalogExcerpt(catalog.serialized))
  }

  /** `POST`; the body's field is `query`. */
  method Post(body: RequestBody, apiKey: Option<string>, catalog: CatalogFile,
              model: ModelRequest -> ModelOutcome, parseJson: string -> Option<seq<Item>>)
    returns (res: Response)
    ensures res.status in {200, 400, 500}
    ensures res.status == 400 <==> body.BodyParsed? && Falsy(body.field)
    ensures res.status == 400 ==> res.body == ErrorBody("Query is required")
    ensures res.status == 500 <==> Validated(body) && (KeyMissing(apiKey) || !catalog.CatalogLoaded?)
    ensures Validated(body) && KeyMissing(apiKey) ==> res.body == ErrorBody("API key not configured")
    ensures Validated(body) && !KeyMissing(apiKey) && catalog.CatalogMissing? ==>
      res.body == ErrorBody("TV data not found")
    ensures Validated(body) && !KeyMissing(apiKey) && catalog.CatalogUnreadable? ==>
      res.body == ErrorBody("Error reading TV data")
    ensures body.BodyThrew? ==> res == FailureResponse(body.error)
    ensures ReachesModel(body, apiKey, catalog) && model(RequestFor(body, catalog)).ModelThrew? ==>
      res == FailureResponse(model(RequestFor(body, catalog)).error)
    ensures ReachesModel(body, apiKey, catalog) && model(RequestFor(body, catalog)).ModelText? ==>
      var query := Rendered(body.field);
      var parsed := parseJson(CleanText(model(RequestFor(body, catalog)).text));
      && res.status == 200
      && res.body.ResultBody? && res.body.success && res.body.errorMessage == None
      && res.body.chatResponse == ChatLine(|res.body.productCards|, query)
      && (ParseUsable(parsed) ==> res.body.productCards == ParsedCards(parsed.value))
      && (!ParseUsable(parsed) ==> res.body.productCards == [CannedCard(query)])
  {
    if body.BodyThrew? {
      return FailureResponse(body.error);
    }
    var query := body.field;
    if Falsy(query) {
      return Response(400, ErrorBody("Query is required"));
    }
    if KeyMissing(apiKey) {
      return Response(500, ErrorBody("API key not configured"));
    }
    if catalog.CatalogMissing? {
      return Response(500, ErrorBody("TV data not found"));
    }
    if catalog.CatalogUnreadable? {
      return Response(500, ErrorBody("Error reading TV data"));
    }
    var text := Rendered(query);
    var outcome := model(ModelRequest(text, CatalogExcerpt(catalog.serialized)));
    if outcome.ModelThrew? {
      return FailureResponse(outcome.error);
    }
    var productCards: seq<Card> := [];
    var parsed := parseJson(CleanText(outcome.text));
    if parsed.Some? && !(|parsed.value| > 0 && SampleThrows(parsed.value[0])) {
      productCards := ParsedCards(parsed.value);
    } else {
      productCards := [CannedCard(text)];
    }
    res := Response(200, ResultBody(productCards, ChatLine(|productCards|, text), true, None));
  }

  /** The catch-all reply is a 200 with `success: false`, the one fallback
      card and the thrown message, or "Unknown error" for a non-`Error`. */
  lemma FailureResponseSpec(error: Thrown)
    ensures var res := FailureResponse(error);
      && res.status == 200 && res.body.ResultBody? && !res.body.success
      && res.body.productCards == [FallbackCard]
      && res.body.errorMessage.Some?
      && (error.ErrorThrown? ==> res.body.errorMessage.value == error.message)
      && (error.OtherThrown? ==> res.body.errorMessage.value == "Unknown error")
  {
  }

  /** The card used for unparsable output names the shopper's query in its
      description, right after "Perfect for ". */
  lemma CannedCardEmbedsQuery(query: string)
    ensures Contains(CannedCard(query).description, query)
    ensures OccursAt(CannedCard(query).description, query, 12)
  {
    var d := CannedCard(query).description;
    assert d[12..12 + |query|] == query;
    assert OccursAt(d, query, 12);
    ContainsAt(d, query);
  }

  /** A parse that yields no elements still counts as a success: no cards,
      and a reply saying zero options were found. */
  lemma EmptyParseIsSuccess(query: string)
    ensures ParseUsable(Some([]))
    ensures ParsedCards([]) == []
    ensures ChatLine(0, query)[..9] == "I found 0"
  {
    assert Decimal(0) == "0";
    assert ChatLine(0, query)[..9] == ("I found " + Decimal(0))[..9];
  }

  /** A `null` first element, or one whose `topFeatures` has no `slice`,
      throws in the sample log and so sends the reply to the canned card even
      though the parse succeeded. */
  lemma SampleLogFallback(items: seq<Item>)
    requires |items| > 0 && SampleThrows(items[0])
    ensures !ParseUsable(Some(items))
  {
  }
}
