/** src/components/ChatBar.tsx: the send guard, the placeholder, and the chip,
    clear and Compare Now handlers, which update the page's state through its
    setters. */
module ChatBar {
  import opened Wrappers
  import opened Text
  import opened MockLlm
  import opened Tray
  import opened HomePage

  const ComparePlaceholder := "Max 3 TVs can be selected for comparison"
  const DefaultPlaceholder := "Discover Your Perfect TV ..."

  /** `isCompareMode`: at least one TV is in the tray. */
  predicate IsCompareMode(tray: seq<TvCard>)
  {
    |tray| >= 1
  }

  /** `getPlaceholderText()`. */
  function Placeholder(tray: seq<TvCard>): string
  {
    if IsCompareMode(tray) then ComparePlaceholder else DefaultPlaceholder
  }

  /** The send button's `disabled`. */
  predicate SendDisabled(isLoading: bool, input: string)
  {
    isLoading || JsTrim(input) == ""
  }

  /** The guard of `handleSendClick`. */
  predicate ClickSends(isLoading: bool, input: string)
  {
    !isLoading && JsTrim(input) != ""
  }

  /** The guard of `handleKeyDown`. */
  predicate KeyDownSends(key: string, isLoading: bool, input: string)
  {
    key == "Enter" && !isLoading && JsTrim(input) != ""
  }

  /** "Compare Now" (and its clear button) is rendered. */
  predicate CompareNowShown(tray: seq<TvCard>)
  {
    |tray| >= 2
  }

  /** The placeholder asks to pick at most three TVs exactly when the tray is
      non-empty. */
  lemma PlaceholderSpec(tray: seq<TvCard>)
    ensures Placeholder(tray) == ComparePlaceholder <==> |tray| > 0
  {
    assert ComparePlaceholder[0] != DefaultPlaceholder[0];
  }

  /** Click and Enter send under the same condition, the button is disabled
      exactly when a click would not send, and a whitespace-only input never
      sends. */
  lemma SendGuardSpec(isLoading: bool, input: string)
    ensures SendDisabled(isLoading, input) <==> !ClickSends(isLoading, input)
    ensures KeyDownSends("Enter", isLoading, input) <==> ClickSends(isLoading, input)
    ensures (forall i :: 0 <= i < |input| ==> IsJsSpace(input[i])) ==> !ClickSends(isLoading, input)
    ensures isLoading ==> !ClickSends(isLoading, input)
  {
    StripEmpty(input, IsJsSpace);
  }

  /** `handleSendClick`, with `isLoading` the page's value (false when unset). */
  method SendClick(home: Home, isLoading: bool)
    requires home.Valid()
    modifies home
    ensures home.Valid()
    ensures !ClickSends(isLoading, old(home.input)) ==>
      home.messages == old(home.messages) && home.input == old(home.input)
      && home.sheetProduct == old(home.sheetProduct) && home.compareProducts == old(home.compareProducts)
    ensures ClickSends(isLoading, old(home.input)) ==>
      && home.messages == old(home.messages) + [UserMessage(old(home.input)), AssistantMessage(MockResponse(old(home.input)))]
      && home.input == ""
      && home.compareProducts == SendTray(old(home.compareProducts), old(home.input))
      && home.sheetProduct == SendSheet(old(home.sheetProduct), old(home.compareProducts), old(home.input))
  {
    if !isLoading && JsTrim(home.input) != "" {
      home.HandleSend();
    }
  }

  /** `handleKeyDown`. */
  method KeyDown(home: Home, key: string, isLoading: bool)
    requires home.Valid()
    modifies home
    ensures home.Valid()
    ensures !KeyDownSends(key, isLoading, old(home.input)) ==>
      home.messages == old(home.messages) && home.input == old(home.input)
      && home.sheetProduct == old(home.sheetProduct) && home.compareProducts == old(home.compareProducts)
    ensures KeyDownSends(key, isLoading, old(home.input)) ==>
      && home.messages == old(home.messages) + [UserMessage(old(home.input)), AssistantMessage(MockResponse(old(home.input)))]
      && home.input == ""
      && home.compareProducts == SendTray(old(home.compareProducts), old(home.input))
      && home.sheetProduct == SendSheet(old(home.sheetProduct), old(home.compareProducts), old(home.input))
  {
    if key == "Enter" && !isLoading && JsTrim(home.input) != "" {
      home.HandleSend();
    }
  }

  /** A chip's remove button: drop the entries with that id. */
  method RemoveChip(home: Home, id: string)
    requires home.Valid()
    modifies home
    ensures home.Valid()
    ensures home.compareProducts == WithoutId(old(home.compareProducts), id)
    ensures home.messages == old(home.messages) && home.input == old(home.input)
    ensures home.sheetProduct == old(home.sheetProduct)
  {
    WithoutIdSpec(home.compareProducts, id);
    home.compareProducts := WithoutId(home.compareProducts, id);
  }

  /** `handleClearComparisons`. */
  method ClearComparisons(home: Home)
    requires home.Valid()
    modifies home
    ensures home.Valid()
    ensures home.compareProducts == [] && home.sheetProduct == None
    ensures home.messages == old(home.messages) && home.input == old(home.input)
  {
    home.compareProducts := [];
    home.sheetProduct := None;
  }

  /** The Compare Now button's `onClick`: open the sheet on the whole tray. */
  method CompareNow(home: Home)
    requires home.Valid()
    modifies home
    ensures home.Valid()
    ensures home.sheetProduct == Some(ComparisonSheet(old(home.compareProducts)))
    ensures home.compareProducts == old(home.compareProducts)
    ensures home.messages == old(home.messages) && home.input == old(home.input)
  {
    home.sheetProduct := Some(ComparisonSheet(home.compareProducts));
  }

  /** Where Compare Now is offered, a "compare" chat send opens the same
      comparison sheet it would; where it is not, such a send leaves the sheet. */
  lemma CompareNowAgreesWithChat(sheet: Option<Sheet>, tray: seq<TvCard>, query: string)
    requires !IsAddQuery(query) && !IsRemoveQuery(query) && Mentions(query, "compare")
    ensures CompareNowShown(tray) ==> SendSheet(sheet, tray, query) == Some(ComparisonSheet(tray))
    ensures !CompareNowShown(tray) ==> SendSheet(sheet, tray, query) == sheet
  {
  }
}
