/** The two tray-derived props src/components/ChatResponse.tsx hands to every
    product card. */
module ChatResponse {
  import opened MockLlm
  import opened Tray

  /** `isCompared`: the tray holds an entry with the card's id. */
  predicate IsCompared(tray: seq<TvCard>, card: TvCard)
  {
    HasId(tray, card.id)
  }

  /** `maxComparisonsReached`: the tray holds three or more entries. */
  predicate MaxComparisonsReached(tray: seq<TvCard>)
  {
    |tray| >= MaxCompare
  }
}

/** src/components/ProductCard.tsx: the compare control's click decision,
    visibility and label, the learn-more payload and the spec line. */
module ProductCard {
  import opened Wrappers
  import opened Text
  import opened MockLlm
  import opened Tray
  import opened ChatResponse

  /** The object handed to `onCompare`; `remove` is the `remove: true` flag. */
  datatype CompareRequest = CompareRequest(card: TvCard, remove: bool)

  const ComparedLabel := "\U{2713} Compared"
  const CompareLabel := "Compare"
  const SpecSeparator := " \U{2022} "

  /** The compare control's `onClick`: which payload, if any, reaches `onCompare`. */
  function CompareClick(card: TvCard, isCompared: bool, maxComparisonsReached: bool): Option<CompareRequest>
  {
    if isCompared then Some(CompareRequest(card, true))
    else if !maxComparisonsReached then Some(CompareRequest(card, false))
    else None
  }

  /** `compareClass`. */
  function CompareClass(isCompared: bool, maxComparisonsReached: bool): string
  {
    if isCompared then "text-green-500 opacity-100 cursor-pointer"
    else if maxComparisonsReached then "opacity-0 pointer-events-none"
    else "opacity-0 group-hover:opacity-100 cursor-pointer"
  }

  /** `style` is `{ opacity: 0 }`: the control is forced invisible. */
  predicate ForcedHidden(isCompared: bool, maxComparisonsReached: bool)
  {
    maxComparisonsReached && !isCompared
  }

  function Label(isCompared: bool): string
  {
    if isCompared then ComparedLabel else CompareLabel
  }

  /** The control is forced invisible, and takes no pointer events, exactly when
      a click on it would emit nothing; a compared card always asks for removal,
      any other emitted click asks to add. */
  lemma ClickMatchesVisibility(card: TvCard, isCompared: bool, maxComparisonsReached: bool)
    ensures ForcedHidden(isCompared, maxComparisonsReached) <==> CompareClick(card, isCompared, maxComparisonsReached).None?
    ensures ForcedHidden(isCompared, maxComparisonsReached) <==>
      CompareClass(isCompared, maxComparisonsReached) == "opacity-0 pointer-events-none"
    ensures CompareClick(card, isCompared, maxComparisonsReached).Some? ==>
      CompareClick(card, isCompared, maxComparisonsReached).value.card == card
      && (CompareClick(card, isCompared, maxComparisonsReached).value.remove <==> isCompared)
    ensures Label(isCompared) == ComparedLabel <==> isCompared
  {
    assert CompareClass(true, maxComparisonsReached)[0] == 't';
    assert CompareClass(false, false)[10] == 'g';
  }

  /** A click on a card, fed to the page's toggle with the props derived from
      the tray: a compared card leaves the tray, an uncompared one joins it while
      there is room, and at the cap nothing happens. */
  lemma ClickThenToggle(tray: seq<TvCard>, card: TvCard)
    requires TrayOk(tray)
    ensures var click := CompareClick(card, IsCompared(tray, card), MaxComparisonsReached(tray));
      && (IsCompared(tray, card) ==>
           click == Some(CompareRequest(card, true))
           && |Toggle(tray, click.value.card)| == |tray| - 1
           && !HasId(Toggle(tray, click.value.card), card.id))
      && (!IsCompared(tray, card) && !MaxComparisonsReached(tray) ==>
           click == Some(CompareRequest(card, false))
           && Toggle(tray, click.value.card) == tray + [card])
      && (!IsCompared(tray, card) && MaxComparisonsReached(tray) ==> click == None)
  {
    ToggleSpec(tray, card);
  }

  /** `Object.entries(specs)` of a catalog card, in insertion order. */
  function SpecEntries(card: TvCard): seq<(string, string)>
  {
    [("size", card.size), ("refresh_rate", card.refreshRate), ("price", PriceText(card))]
  }

  function EntryText(entry: (string, string)): string
  {
    entry.0 + ": " + entry.1
  }

  /** `entries.map(([k, v]) => `${k}: ${v}`).join(' • ')`. */
  function SpecLine(entries: seq<(string, string)>): string
    decreases |entries|
  {
    if |entries| == 0 then ""
    else if |entries| == 1 then EntryText(entries[0])
    else EntryText(entries[0]) + SpecSeparator + SpecLine(entries[1..])
  }

  /** The spec line of two runs of entries is their spec lines joined by the
      separator: entries keep their order and are never merged. */
  lemma {:induction false} SpecLineAppend(a: seq<(string, string)>, b: seq<(string, string)>)
    requires |a| > 0 && |b| > 0
    ensures SpecLine(a + b) == SpecLine(a) + SpecSeparator + SpecLine(b)
    decreases |a|
  {
    if |a| == 1 {
      assert (a + b)[1..] == b;
    } else {
      assert (a + b)[1..] == a[1..] + b;
      SpecLineAppend(a[1..], b);
    }
  }

  /** A catalog card's spec line lists size, refresh rate and price in that order. */
  lemma CatalogSpecLine(card: TvCard)
    ensures SpecLine(SpecEntries(card)) ==
      "size: " + card.size + SpecSeparator + "refresh_rate: " + card.refreshRate + SpecSeparator + "price: $" + Decimal(card.price)
  {
    var e := SpecEntries(card);
    assert e[1..][1..] == [e[2]];
    assert SpecLine(e[1..]) == EntryText(e[1]) + SpecSeparator + EntryText(e[2]);
    assert EntryText(e[2]) == "price: $" + Decimal(card.price);
  }
}
