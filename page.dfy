/** The comparison tray of src/app/page.tsx (`compareProducts`) as a value, with
    the updates the page and the chat bar apply to it. The tray invariant is
    "at most three entries, ids pairwise distinct". */
module Tray {
  import opened Wrappers
  import opened MockLlm
  import MockLlmProperties

  const MaxCompare := 3

  predicate DistinctIds(tray: seq<TvCard>)
  {
    forall i, j :: 0 <= i < j < |tray| ==> tray[i].id != tray[j].id
  }

  /** The tray invariant. */
  predicate TrayOk(tray: seq<TvCard>)
  {
    |tray| <= MaxCompare && DistinctIds(tray)
  }

  /** `tray.some((cp) => cp.id === id)`. */
  predicate HasId(tray: seq<TvCard>, id: string)
  {
    exists i :: 0 <= i < |tray| && tray[i].id == id
  }

  /** `tray.filter((cp) => cp.id !== id)`. */
  function WithoutId(tray: seq<TvCard>, id: string): seq<TvCard>
  {
    Filter(tray, (cp: TvCard) => cp.id != id)
  }

  /** `tray.filter((cp) => cp.name !== name)`. */
  function WithoutName(tray: seq<TvCard>, name: string): seq<TvCard>
  {
    Filter(tray, (cp: TvCard) => cp.name != name)
  }

  /** `handleCompareToggle(product)`: drop the product if its id is in the tray,
      else append it while there is room. */
  function Toggle(tray: seq<TvCard>, product: TvCard): seq<TvCard>
  {
    if HasId(tray, product.id) then WithoutId(tray, product.id)
    else if |tray| < MaxCompare then tray + [product]
    else tray
  }

  /** The tray after a chat "add … comparison" query: the leftmost name match,
      looked up by exact name in the catalog (`mockLLMResponse('').cards`), is
      appended if found, the tray has room and no entry shares its id. */
  function ChatAdd(tray: seq<TvCard>, query: string): seq<TvCard>
  {
    var tvName := FirstMatch(query);
    if tvName.None? then tray
    else
      var tv := FindByName(MockResponse("").cards, tvName.value);
      if tv.Some? && |tray| < MaxCompare && !HasId(tray, tv.value.id) then tray + [tv.value]
      else tray
  }

  /** The tray after a chat "remove … comparison" query: entries whose name is
      exactly the matched text are dropped. */
  function ChatRemove(tray: seq<TvCard>, query: string): seq<TvCard>
  {
    var tvName := FirstMatch(query);
    if tvName.None? then tray else WithoutName(tray, tvName.value)
  }

  /** Every tray entry is a catalog card. */
  predicate FromCatalog(tray: seq<TvCard>)
  {
    forall cp :: cp in tray ==> cp in Catalog
  }

  /** A subsequence of a valid tray is a valid tray. */
  lemma {:induction false} SubsequenceKeepsTrayOk(a: seq<TvCard>, b: seq<TvCard>)
    requires IsSubsequence(a, b) && DistinctIds(b)
    ensures |a| <= |b| && DistinctIds(a)
    decreases |b|
  {
    if |a| > 0 {
      assert DistinctIds(b[1..]) by {
        forall i, j | 0 <= i < j < |b[1..]| ensures b[1..][i].id != b[1..][j].id {
          assert b[1..][i] == b[i + 1] && b[1..][j] == b[j + 1];
        }
      }
      if a[0] == b[0] {
        SubsequenceKeepsTrayOk(a[1..], b[1..]);
        SubsequenceMembers(a[1..], b[1..]);
        forall i, j | 0 <= i < j < |a| ensures a[i].id != a[j].id {
          if i == 0 {
            assert a[j] == a[1..][j - 1];
            assert a[j] in b[1..];
            var k :| 0 <= k < |b[1..]| && b[1..][k] == a[j];
            assert b[k + 1] == a[j];
          } else {
            assert a[i] == a[1..][i - 1] && a[j] == a[1..][j - 1];
          }
        }
      } else {
        SubsequenceKeepsTrayOk(a, b[1..]);
      }
    }
  }

  /** Filtering keeps a valid tray valid, keeps the survivors in order, and
      drops exactly the entries the predicate rejects. */
  lemma FilterKeepsTrayOk(tray: seq<TvCard>, p: TvCard -> bool)
    requires TrayOk(tray)
    ensures TrayOk(Filter(tray, p))
    ensures IsSubsequence(Filter(tray, p), tray)
    ensures forall cp :: cp in Filter(tray, p) <==> cp in tray && p(cp)
  {
    FilterIsSubsequence(tray, p);
    FilterMembers(tray, p);
    SubsequenceKeepsTrayOk(Filter(tray, p), tray);
  }

  /** Removing an id present in a valid tray shortens it by exactly one. */
  lemma {:induction false} WithoutPresentId(tray: seq<TvCard>, id: string)
    requires DistinctIds(tray) && HasId(tray, id)
    ensures |WithoutId(tray, id)| == |tray| - 1
    decreases |tray|
  {
    var p := (cp: TvCard) => cp.id != id;
    assert DistinctIds(tray[1..]) by {
      forall i, j | 0 <= i < j < |tray[1..]| ensures tray[1..][i].id != tray[1..][j].id {
        assert tray[1..][i] == tray[i + 1] && tray[1..][j] == tray[j + 1];
      }
    }
    if tray[0].id == id {
      AbsentIdUnchanged(tray[1..], id);
    } else {
      var i :| 0 <= i < |tray| && tray[i].id == id;
      assert tray[1..][i - 1].id == id;
      WithoutPresentId(tray[1..], id);
    }
  }

  /** Removing an id that no entry has changes nothing. */
  lemma {:induction false} AbsentIdUnchanged(tray: seq<TvCard>, id: string)
    requires !HasId(tray, id)
    ensures WithoutId(tray, id) == tray
    decreases |tray|
  {
    if tray != [] {
      assert !HasId(tray[1..], id) by {
        forall i | 0 <= i < |tray[1..]| ensures tray[1..][i].id != id {
          assert tray[1..][i] == tray[i + 1];
        }
      }
      AbsentIdUnchanged(tray[1..], id);
    }
  }

  /** `handleCompareToggle` removes a present product, appends an absent one while
      there is room, leaves a full tray alone, and keeps the tray invariant. */
  lemma ToggleSpec(tray: seq<TvCard>, product: TvCard)
    requires TrayOk(tray)
    ensures TrayOk(Toggle(tray, product))
    ensures HasId(tray, product.id) ==>
      |Toggle(tray, product)| == |tray| - 1 && !HasId(Toggle(tray, product), product.id)
      && forall cp :: cp in Toggle(tray, product) <==> cp in tray && cp.id != product.id
    ensures !HasId(tray, product.id) && |tray| < MaxCompare ==> Toggle(tray, product) == tray + [product]
    ensures !HasId(tray, product.id) && |tray| >= MaxCompare ==> Toggle(tray, product) == tray
  {
    var p := (cp: TvCard) => cp.id != product.id;
    if HasId(tray, product.id) {
      FilterKeepsTrayOk(tray, p);
      WithoutPresentId(tray, product.id);
      var r := Toggle(tray, product);
      forall i | 0 <= i < |r| ensures r[i].id != product.id {
        assert r[i] in r;
      }
    } else if |tray| < MaxCompare {
      var r := tray + [product];
      forall i, j | 0 <= i < j < |r| ensures r[i].id != r[j].id {
        if j == |tray| {
          assert r[i] == tray[i];
        }
      }
    }
  }

  /** A chat add appends the named catalog TV only when the leftmost match is
      exactly a catalog name, the tray has room and holds no entry with that id;
      otherwise the tray is unchanged. The invariant is kept. */
  lemma ChatAddSpec(tray: seq<TvCard>, query: string)
    requires TrayOk(tray)
    ensures TrayOk(ChatAdd(tray, query))
    ensures ChatAdd(tray, query) == tray || exists tv :: tv in Catalog && ChatAdd(tray, query) == tray + [tv]
    ensures ChatAdd(tray, query) != tray <==>
      && FirstMatch(query).Some?
      && (exists i :: 0 <= i < |Catalog| && Catalog[i].name == FirstMatch(query).value)
      && |tray| < MaxCompare
      && !HasId(tray, FindByName(Catalog, FirstMatch(query).value).value.id)
    ensures ChatAdd(tray, query) != tray ==>
      ChatAdd(tray, query)[|tray|].name == FirstMatch(query).value
  {
    MockLlmProperties.EmptyQueryListsCatalog();
    var tvName := FirstMatch(query);
    if tvName.Some? {
      var tv := FindByName(Catalog, tvName.value);
      if tv.Some? && |tray| < MaxCompare && !HasId(tray, tv.value.id) {
        var r := tray + [tv.value];
        assert r != tray by { assert |r| != |tray|; }
        forall i, j | 0 <= i < j < |r| ensures r[i].id != r[j].id {
          if j == |tray| {
            assert r[i] == tray[i];
          }
        }
      }
    }
  }

  /** A chat remove drops exactly the entries whose name is the matched text and
      keeps the rest in order; the invariant is kept. */
  lemma ChatRemoveSpec(tray: seq<TvCard>, query: string)
    requires TrayOk(tray)
    ensures TrayOk(ChatRemove(tray, query))
    ensures IsSubsequence(ChatRemove(tray, query), tray)
    ensures FirstMatch(query).None? ==> ChatRemove(tray, query) == tray
    ensures FirstMatch(query).Some? ==>
      forall cp :: cp in ChatRemove(tray, query) <==> cp in tray && cp.name != FirstMatch(query).value
  {
    var tvName := FirstMatch(query);
    if tvName.Some? {
      FilterKeepsTrayOk(tray, (cp: TvCard) => cp.name != tvName.value);
    } else {
      assert IsSubsequence(tray, tray) by { SubsequenceReflexive(tray); }
    }
  }

  lemma {:induction false} SubsequenceReflexive(s: seq<TvCard>)
    ensures IsSubsequence(s, s)
    decreases |s|
  {
    if s != [] {
      SubsequenceReflexive(s[1..]);
    }
  }

  /** Removing a chip drops exactly the entries with that id, keeps the order of
      the others and keeps the invariant. */
  lemma WithoutIdSpec(tray: seq<TvCard>, id: string)
    requires TrayOk(tray)
    ensures TrayOk(WithoutId(tray, id))
    ensures IsSubsequence(WithoutId(tray, id), tray)
    ensures forall cp :: cp in WithoutId(tray, id) <==> cp in tray && cp.id != id
  {
    FilterKeepsTrayOk(tray, (cp: TvCard) => cp.id != id);
  }

  /** Catalog names and ids determine each other. */
  lemma CatalogKeys()
    ensures forall a, b :: a in Catalog && b in Catalog ==> (a.name == b.name <==> a.id == b.id)
  {
  }

  /** On a tray of catalog cards, the chat's removal by exact name and the chip's
      removal by id agree; a matched text that is not letter for letter a catalog
      name removes nothing, although the reply says "Removed …". */
  lemma RemoveByNameVersusId(tray: seq<TvCard>, query: string)
    requires FromCatalog(tray)
    requires MockLlm.IsRemoveQuery(query) && !MockLlm.IsAddQuery(query) && !MockLlm.IsCompareQuery(query)
    requires FirstMatch(query).Some?
    ensures var m := FirstMatch(query).value;
      FindByName(Catalog, m).Some? ==> ChatRemove(tray, query) == WithoutId(tray, FindByName(Catalog, m).value.id)
    ensures var m := FirstMatch(query).value;
      FindByName(Catalog, m).None? ==>
        ChatRemove(tray, query) == tray
        && MockResponse(query).responseText == "Removed " + m + " from comparison."
  {
    var m := FirstMatch(query).value;
    var byName := (cp: TvCard) => cp.name != m;
    var tv := FindByName(Catalog, m);
    if tv.Some? {
      var byId := (cp: TvCard) => cp.id != tv.value.id;
      CatalogKeys();
      FilterSame(tray, byName, byId);
    } else {
      forall cp | cp in tray ensures byName(cp) {
        assert cp in Catalog;
        var i :| 0 <= i < |Catalog| && Catalog[i] == cp;
      }
      FilterKeepsAll(tray, byName);
      MockLlmProperties.RemoveNamesMatch(query);
    }
  }

  lemma {:induction false} FilterSame(s: seq<TvCard>, p: TvCard -> bool, q: TvCard -> bool)
    requires forall x :: x in s ==> p(x) == q(x)
    ensures Filter(s, p) == Filter(s, q)
    decreases |s|
  {
    if s != [] {
      assert s[0] in s;
      assert forall x :: x in s[1..] ==> x in s;
      FilterSame(s[1..], p, q);
    }
  }

  /** Toggling and chat-adding catalog cards keep the tray a set of catalog cards. */
  lemma CatalogTrayKept(tray: seq<TvCard>, product: TvCard, query: string)
    requires FromCatalog(tray) && product in Catalog
    ensures FromCatalog(Toggle(tray, product))
    ensures FromCatalog(ChatAdd(tray, query))
    ensures FromCatalog(ChatRemove(tray, query))
  {
    MockLlmProperties.EmptyQueryListsCatalog();
    FilterMembers(tray, (cp: TvCard) => cp.id != product.id);
    var tvName := FirstMatch(query);
    if tvName.Some? {
      FilterMembers(tray, (cp: TvCard) => cp.name != tvName.value);
    }
  }
}

/** The page component of src/app/page.tsx: its four pieces of state and the
    handlers that update them. */
module HomePage {
  import opened Wrappers
  import opened Text
  import opened MockLlm
  import MockLlmProperties
  import opened Tray

  /** One chat entry: the shopper's text, or the engine's reply. */
  datatype Message = UserMessage(content: string) | AssistantMessage(reply: LlmResponse)

  /** What the detail sheet shows (`sheetProduct`). */
  datatype Sheet = ComparisonSheet(tvs: seq<TvCard>) | ProductSheet(product: TvCard)

  /** The tray after a send of `query` whose text is not blank. */
  function SendTray(tray: seq<TvCard>, query: string): seq<TvCard>
  {
    if IsAddQuery(query) then ChatAdd(tray, query)
    else if IsRemoveQuery(query) then ChatRemove(tray, query)
    else tray
  }

  /** The sheet after a send of `query` whose text is not blank. */
  function SendSheet(sheet: Option<Sheet>, tray: seq<TvCard>, query: string): Option<Sheet>
  {
    if !IsAddQuery(query) && !IsRemoveQuery(query) && Mentions(query, "compare") && |tray| >= 2
    then Some(ComparisonSheet(tray))
    else sheet
  }

  /** A send keeps the tray invariant. */
  lemma SendTrayOk(tray: seq<TvCard>, query: string)
    requires TrayOk(tray)
    ensures TrayOk(SendTray(tray, query))
  {
    ChatAddSpec(tray, query);
    ChatRemoveSpec(tray, query);
  }

  /** A "compare" send with two or more entries and no add or remove match opens
      the comparison sheet on the whole tray; otherwise the sheet stays. */
  lemma SendSheetSpec(sheet: Option<Sheet>, tray: seq<TvCard>, query: string)
    ensures SendSheet(sheet, tray, query) != sheet ==> SendSheet(sheet, tray, query) == Some(ComparisonSheet(tray))
    ensures IsAddQuery(query) || IsRemoveQuery(query) || |tray| < 2 ==> SendSheet(sheet, tray, query) == sheet
  {
  }

  class Home {
    var messages: seq<Message>
    var input: string
    var sheetProduct: Option<Sheet>
    var compareProducts: seq<TvCard>

    ghost predicate Valid()
      reads this
    {
      TrayOk(compareProducts)
    }

    constructor ()
      ensures Valid()
      ensures messages == [] && input == "" && sheetProduct == None && compareProducts == []
    {
      messages := [];
      input := "";
      sheetProduct := None;
      compareProducts := [];
    }

    /** The input box's `onChange`. */
    method SetInput(text: string)
      requires Valid()
      modifies this
      ensures Valid()
      ensures input == text
      ensures messages == old(messages) && sheetProduct == old(sheetProduct)
      ensures compareProducts == old(compareProducts)
    {
      input := text;
    }

    /** `handleSend`: a blank input changes nothing; otherwise the exchange is
        recorded, the chat action applied to the tray or the sheet, and the
        input cleared. */
    method HandleSend()
      requires Valid()
      modifies this
      ensures Valid()
      ensures JsTrim(old(input)) == "" ==>
        messages == old(messages) && input == old(input)
        && sheetProduct == old(sheetProduct) && compareProducts == old(compareProducts)
      ensures JsTrim(old(input)) != "" ==>
        && messages == old(messages) + [UserMessage(old(input)), AssistantMessage(MockResponse(old(input)))]
        && input == ""
        && compareProducts == SendTray(old(compareProducts), old(input))
        && sheetProduct == SendSheet(old(sheetProduct), old(compareProducts), old(input))
    {
      if JsTrim(input) == "" {
        return;
      }
      var query := input;
      RecordExchange(query);
      ApplyChatAction(query);
      input := "";
    }

    /** The `setMessages` step of `handleSend`: the shopper's message, then the
        engine's reply to it. */
    method RecordExchange(query: string)
      requires Valid()
      modifies this
      ensures Valid()
      ensures messages == old(messages) + [UserMessage(query), AssistantMessage(MockResponse(query))]
      ensures input == old(input) && sheetProduct == old(sheetProduct)
      ensures compareProducts == old(compareProducts)
    {
      var llmResponse := MockResponse(query);
      messages := messages + [UserMessage(query), AssistantMessage(llmResponse)];
    }

    /** The add / remove / compare chain of `handleSend`, reading the tray as
        it was when the send began. */
    method ApplyChatAction(query: string)
      requires Valid()
      modifies this
      ensures Valid()
      ensures compareProducts == SendTray(old(compareProducts), query)
      ensures sheetProduct == SendSheet(old(sheetProduct), old(compareProducts), query)
      ensures messages == old(messages) && input == old(input)
    {
      var tray := compareProducts;
      if IsAddQuery(query) {
        var tvName := FirstMatch(query);
        if tvName.Some? {
          var tv := FindByName(MockResponse("").cards, tvName.value);
          if tv.Some? && |tray| < MaxCompare && !HasId(tray, tv.value.id) {
            compareProducts := tray + [tv.value];
          }
        }
      } else if IsRemoveQuery(query) {
        var tvName := FirstMatch(query);
        if tvName.Some? {
          compareProducts := WithoutName(tray, tvName.value);
        }
      } else if Mentions(query, "compare") && |tray| >= 2 {
        sheetProduct := Some(ComparisonSheet(tray));
      }
      assert compareProducts == SendTray(tray, query);
      SendTrayOk(tray, query);
    }

    /** `handleCompareToggle`, the cards' `onCompare`. */
    method HandleCompareToggle(product: TvCard)
      requires Valid()
      modifies this
      ensures Valid()
      ensures compareProducts == Toggle(old(compareProducts), product)
      ensures messages == old(messages) && input == old(input) && sheetProduct == old(sheetProduct)
    {
      ToggleSpec(compareProducts, product);
      if HasId(compareProducts, product.id) {
        compareProducts := WithoutId(compareProducts, product.id);
      } else if |compareProducts| < MaxCompare {
        compareProducts := compareProducts + [product];
      }
    }

    /** The cards' `onLearnMore`, which is `setSheetProduct`; the payload
        `{ id, name, image, learn_more, specs }` carries every field of the card. */
    method ShowProduct(product: TvCard)
      requires Valid()
      modifies this
      ensures Valid()
      ensures sheetProduct == Some(ProductSheet(product))
      ensures messages == old(messages) && input == old(input) && compareProducts == old(compareProducts)
    {
      sheetProduct := Some(ProductSheet(product));
    }

    /** The detail sheet's close button: `setSheetProduct(null)`. */
    method CloseSheet()
      requires Valid()
      modifies this
      ensures Valid()
      ensures sheetProduct == None
      ensures messages == old(messages) && input == old(input) && compareProducts == old(compareProducts)
    {
      sheetProduct := None;
    }
  }
}
