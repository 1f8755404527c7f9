/** The retry loop of generate_content.py: up to three model calls, each
    output repaired by `clean_json_string` and parsed, stopping at the first
    list of at least ten cards, then the first ten cards printed. The model
    call (by attempt number) and `json.loads` are parameters. */
module GenerateContent {
  import opened Wrappers
  import opened JsonRepair

  const MaxRetries := 3
  /** A parse with at least this many cards ends the loop. */
  const RequiredCards := 10
  /** `product_cards[:10]`. */
  const PrintLimit := 10

  /** One element of the parsed list, held as its JSON text. */
  datatype CardJson = CardJson(json: string)

  /** `model.generate_content(...)` then `response.text`, on one attempt. */
  datatype ApiOutcome = ApiFailed | ApiText(text: string)

  /** The list parsed on attempt `k`, or None when the call or the parse
      raised; both are handled alike. */
  function AttemptCards(respond: nat -> ApiOutcome, loads: string -> Option<seq<CardJson>>, k: nat): Option<seq<CardJson>>
  {
    match respond(k)
    case ApiFailed => None
    case ApiText(text) => loads(CleanJsonString(text))
  }

  /** The parse results of all attempts. */
  function Attempts(respond: nat -> ApiOutcome, loads: string -> Option<seq<CardJson>>): nat -> Option<seq<CardJson>>
  {
    (k: nat) => AttemptCards(respond, loads, k)
  }

  /** Attempt `k` parses at least ten cards. */
  predicate Full(parsed: nat -> Option<seq<CardJson>>, k: nat)
  {
    parsed(k).Some? && |parsed(k).value| >= RequiredCards
  }

  /** The loop from attempt `attempt` on, with `cards` in `product_cards`:
      the final `product_cards` and the number of attempts made. */
  function RetryFrom(parsed: nat -> Option<seq<CardJson>>, attempt: nat, cards: seq<CardJson>): (seq<CardJson>, nat)
    decreases MaxRetries - attempt
  {
    if attempt >= MaxRetries then (cards, attempt)
    else match parsed(attempt)
      case None => RetryFrom(parsed, attempt + 1, if attempt == MaxRetries - 1 then [] else cards)
      case Some(list) =>
        if |list| >= RequiredCards then (list, attempt + 1)
        else RetryFrom(parsed, attempt + 1, list)
  }

  /** The outcome of the loop stated attempt by attempt: the first full
      parse wins; without one, the third attempt decides, its list if it
      parsed and `[]` if it failed. */
  function RetryOutcome(parsed: nat -> Option<seq<CardJson>>): (seq<CardJson>, nat)
  {
    if Full(parsed, 0) then (parsed(0).value, 1)
    else if Full(parsed, 1) then (parsed(1).value, 2)
    else if parsed(2).Some? then (parsed(2).value, 3)
    else ([], 3)
  }

  /** The loop as written, with its `break` and `continue`. */
  method RunRetries(respond: nat -> ApiOutcome, loads: string -> Option<seq<CardJson>>)
    returns (productCards: seq<CardJson>, attempts: nat, printed: seq<CardJson>)
    ensures (productCards, attempts) == RetryFrom(Attempts(respond, loads), 0, [])
    ensures |printed| == if |productCards| < PrintLimit then |productCards| else PrintLimit
    ensures printed == productCards[..|printed|]
  {
    productCards := [];
    attempts := 0;
    for attempt := 0 to MaxRetries
      invariant attempts == attempt
      invariant RetryFrom(Attempts(respond, loads), attempt, productCards) == RetryFrom(Attempts(respond, loads), 0, [])
    {
      attempts := attempt + 1;
      var response := respond(attempt);
      if response.ApiFailed? {
        if attempt == MaxRetries - 1 {
          productCards := [];
        }
        continue;
      }
      var cleaned := CleanJsonString(response.text);
      var parsed := loads(cleaned);
      if parsed.None? {
        if attempt == MaxRetries - 1 {
          productCards := [];
        }
        continue;
      }
      productCards := parsed.value;
      if |productCards| >= RequiredCards {
        break;
      }
    }
    printed := if |productCards| < PrintLimit then productCards else productCards[..PrintLimit];
  }

  /** From the third attempt on, what `product_cards` held before no longer
      matters. */
  lemma LastAttempt(parsed: nat -> Option<seq<CardJson>>, cards: seq<CardJson>)
    ensures RetryFrom(parsed, 2, cards) == (if parsed(2).Some? then parsed(2).value else [], 3)
  {
    assert RetryFrom(parsed, 3, []) == ([], 3);
    if parsed(2).Some? {
      assert RetryFrom(parsed, 3, parsed(2).value) == (parsed(2).value, 3);
    }
  }

  /** The loop agrees with the attempt-by-attempt statement of its outcome. */
  lemma RetryClosedForm(parsed: nat -> Option<seq<CardJson>>)
    ensures RetryFrom(parsed, 0, []) == RetryOutcome(parsed)
  {
    var c1 := if parsed(0).Some? then parsed(0).value else [];
    var c2 := if parsed(1).Some? then parsed(1).value else c1;
    LastAttempt(parsed, c2);
    if !Full(parsed, 0) {
      assert RetryFrom(parsed, 0, []) == RetryFrom(parsed, 1, c1);
      if !Full(parsed, 1) {
        assert RetryFrom(parsed, 1, c1) == RetryFrom(parsed, 2, c2);
      }
    }
  }

  /** At least one and at most three model calls are made. */
  lemma AttemptsBounded(parsed: nat -> Option<seq<CardJson>>)
    ensures 1 <= RetryFrom(parsed, 0, []).1 <= MaxRetries
  {
    RetryClosedForm(parsed);
  }

  /** The loop stops at the first attempt that parses ten or more cards and
      keeps exactly that list. */
  lemma StopsAtFirstFull(parsed: nat -> Option<seq<CardJson>>, k: nat)
    requires k < MaxRetries && Full(parsed, k)
    requires forall j :: 0 <= j < k ==> !Full(parsed, j)
    ensures RetryFrom(parsed, 0, []) == (parsed(k).value, k + 1)
  {
    RetryClosedForm(parsed);
    if k >= 1 {
      assert !Full(parsed, 0);
    }
    if k == 2 {
      assert !Full(parsed, 1);
    }
  }

  /** A failure on the last attempt, with no full parse before it, leaves no
      cards, even when an earlier attempt parsed some. */
  lemma LastFailureEmpties(parsed: nat -> Option<seq<CardJson>>)
    requires !Full(parsed, 0) && !Full(parsed, 1) && parsed(2).None?
    ensures RetryFrom(parsed, 0, []) == ([], MaxRetries)
  {
    RetryClosedForm(parsed);
  }

  /** Without a full parse before it, the last attempt's list is kept as it
      is, however short; lists from earlier attempts never are. */
  lemma ShortLastKept(parsed: nat -> Option<seq<CardJson>>)
    requires !Full(parsed, 0) && !Full(parsed, 1) && parsed(2).Some?
    ensures RetryFrom(parsed, 0, []) == (parsed(2).value, MaxRetries)
  {
    RetryClosedForm(parsed);
  }
}
