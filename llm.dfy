/** The mock recommendation engine of src/lib/llm.ts: a pure function from the
    shopper's query to a reply over a fixed six-TV catalog. */
module MockLlm {
  import opened Wrappers
  import opened Text

  /** One catalog TV. The catalog's price strings ("$999") are held as whole
      dollars; `PriceText` renders them back. */
  datatype TvCard = TvCard(
    id: string,
    name: string,
    image: string,
    size: string,
    refreshRate: string,
    price: nat,
    learnMore: string)

  /** The reply: `response_text`, `cards`, `proactive_tip`, `comparison`. */
  datatype LlmResponse = LlmResponse(
    responseText: string,
    cards: seq<TvCard>,
    proactiveTip: Option<string>,
    comparison: Option<seq<TvCard>>)

  const Tv1 := TvCard("tv1", "Neo OLED 4K", "https://images.samsung.com/is/image/samsung/p6pim/us/qn75qn1efafxza/gallery/us-neo-qled-qn75qn1efafxza-front-black-546228291?$product-details-jpg$", "65in", "120Hz", 999, "QLED offers vibrant colors...")
  const Tv2 := TvCard("tv2", "Samsung QLED TV", "https://image-us.samsung.com/SamsungUS/home/television-home-theater/tvs/the-terrace/08272024/QN55LST7DAFXZA_007_Front3_Titan_Black_Scom_1600x1200.jpg?$product-details-jpg$", "75in", "120Hz", 1499, "OLED delivers deep blacks...")
  const Tv3 := TvCard("tv3", "Neo QLED 4K", "https://image-us.samsung.com/SamsungUS/home/television-home-theater/tvs/the-terrace/08262024/QN55LST7DAFXZA_007_Front3_Titan_Black_Scom_1600x1200.jpg?$product-details-jpg$", "55in", "60Hz", 799, "4K for sharp visuals...")
  const Tv4 := TvCard("tv4", "Vision AI Smart TV", "https://images.samsung.com/is/image/samsung/p6pim/us/qn75qef1afxza/gallery/us-qled-qef1-548500-qn75qef1afxza-547033885?$product-details-jpg$", "65in", "120Hz", 999, "QLED offers vibrant colors...")
  const Tv5 := TvCard("tv5", "QLED 4K QE1D", "https://image-us.samsung.com/SamsungUS/home/television-home-theater/tvs/qled-4k-tvs/0715202439102/70_65-S.COM_Version_1_V01.jpg?$product-details-jpg$", "75in", "120Hz", 1499, "OLED delivers deep blacks...")
  const Tv6 := TvCard("tv6", "Crystal UHD U7900F", "https://images.samsung.com/is/image/samsung/p6pim/us/un58u7900ffxza/gallery/us-uhd-4k-tv-un58u7900ffxza-front-black-548283704?$product-details-jpg$", "55in", "60Hz", 799, "4K for sharp visuals...")

  /** `baseCards`, in source order. */
  const Catalog: seq<TvCard> := [Tv1, Tv2, Tv3, Tv4, Tv5, Tv6]

  /** The alternatives of the name regex, in the order the regex lists them. */
  const NamePattern: seq<string> :=
    ["Neo OLED 4K", "Samsung QLED TV", "Neo QLED 4K", "Vision AI Smart TV", "QLED 4K QE1D", "Crystal UHD U7900F"]

  const DefaultTip := "Would you like to learn about OLED technology or gaming TVs?"
  const CompareMoreTip := "Add more TVs to compare (e.g., \"add Neo OLED 4K to comparison\")."
  const AddTip := "Add up to 3 TVs and say \"compare selected TVs\" to view comparison."
  const RemoveTip := "Add or compare TVs to continue."
  const SelectTwoText := "Please select at least 2 TVs to compare."
  const AddNotFoundText := "TV not found. Try again (e.g., \"add Samsung QLED TV\")."
  const RemoveNotFoundText := "TV not found."

  /** The catalog's price string, as `specs.price` holds it. */
  function PriceText(tv: TvCard): string
  {
    "$" + Decimal(tv.price)
  }

  /** `query.toLowerCase().includes(keyword)` for an ASCII keyword. */
  predicate Mentions(query: string, keyword: string)
  {
    Contains(AsciiLower(query), keyword)
  }

  predicate IsCompareQuery(query: string)
  {
    Mentions(query, "compare") || Mentions(query, "selected tvs")
  }

  predicate IsAddQuery(query: string)
  {
    Mentions(query, "add") && Mentions(query, "comparison")
  }

  predicate IsRemoveQuery(query: string)
  {
    Mentions(query, "remove") && Mentions(query, "comparison")
  }

  /** The query takes one of the three action branches. */
  predicate IsActionQuery(query: string)
  {
    IsCompareQuery(query) || IsAddQuery(query) || IsRemoveQuery(query)
  }

  predicate Cheap(tv: TvCard) { tv.price < 1000 }
  predicate Is75In(tv: TvCard) { Contains(tv.size, "75in") }
  predicate Is120Hz(tv: TvCard) { Contains(tv.refreshRate, "120Hz") }

  /** `Array.prototype.filter`. */
  function Filter(s: seq<TvCard>, p: TvCard -> bool): (r: seq<TvCard>)
    ensures |r| <= |s|
    decreases |s|
  {
    if s == [] then []
    else if p(s[0]) then [s[0]] + Filter(s[1..], p)
    else Filter(s[1..], p)
  }

  /** Filter keeps exactly the elements satisfying the predicate. */
  lemma {:induction false} FilterMembers(s: seq<TvCard>, p: TvCard -> bool)
    ensures forall x :: x in Filter(s, p) <==> x in s && p(x)
    decreases |s|
  {
    if s != [] {
      FilterMembers(s[1..], p);
      assert forall x :: x in s <==> x == s[0] || x in s[1..];
    }
  }

  /** `a` is `b` with some elements left out, the rest kept in order. */
  predicate IsSubsequence<T(==)>(a: seq<T>, b: seq<T>)
    decreases |b|
  {
    |a| == 0 || (|b| > 0 && if a[0] == b[0] then IsSubsequence(a[1..], b[1..]) else IsSubsequence(a, b[1..]))
  }

  lemma {:induction false} FilterIsSubsequence(s: seq<TvCard>, p: TvCard -> bool)
    ensures IsSubsequence(Filter(s, p), s)
    decreases |s|
  {
    if s != [] {
      FilterIsSubsequence(s[1..], p);
      if !p(s[0]) {
        FilterMembers(s[1..], p);
        assert s[0] !in Filter(s[1..], p);
      }
    }
  }

  /** Filtering with a predicate every element satisfies changes nothing. */
  lemma {:induction false} FilterKeepsAll(s: seq<TvCard>, p: TvCard -> bool)
    requires forall x :: x in s ==> p(x)
    ensures Filter(s, p) == s
    decreases |s|
  {
    if s != [] {
      assert s[0] in s;
      assert forall x :: x in s[1..] ==> x in s;
      FilterKeepsAll(s[1..], p);
    }
  }

  lemma {:induction false} PrefixIsSubsequence<T>(a: seq<T>, b: seq<T>, n: nat)
    requires IsSubsequence(a, b)
    requires n <= |a|
    ensures IsSubsequence(a[..n], b)
    decreases |b|
  {
    if n > 0 {
      if a[0] == b[0] {
        assert a[..n][1..] == a[1..][..n - 1];
        PrefixIsSubsequence(a[1..], b[1..], n - 1);
      } else {
        PrefixIsSubsequence(a, b[1..], n);
      }
    }
  }

  lemma {:induction false} SubsequenceMembers<T>(a: seq<T>, b: seq<T>)
    requires IsSubsequence(a, b)
    ensures forall x :: x in a ==> x in b
    decreases |b|
  {
    if |a| > 0 {
      if a[0] == b[0] {
        SubsequenceMembers(a[1..], b[1..]);
        assert forall x :: x in a ==> x == a[0] || x in a[1..];
      } else {
        SubsequenceMembers(a, b[1..]);
      }
    }
  }

  /** `Array.prototype.find` on `name`: the first card with exactly this name. */
  function FindByName(s: seq<TvCard>, name: string): (r: Option<TvCard>)
    ensures r.Some? <==> exists i :: 0 <= i < |s| && s[i].name == name
    ensures r.Some? ==> r.value in s && r.value.name == name
    ensures r.Some? ==> exists i :: 0 <= i < |s| && s[i] == r.value && forall j :: 0 <= j < i ==> s[j].name != name
    decreases |s|
  {
    if s == [] then None
    else if s[0].name == name then Some(s[0])
    else
      var r := FindByName(s[1..], name);
      assert forall i :: 1 <= i < |s| ==> s[i] == s[1..][i - 1];
      assert r.Some? ==> exists i :: 0 <= i < |s| && s[i] == r.value && forall j :: 0 <= j < i ==> s[j].name != name by {
        if r.Some? {
          var i :| 0 <= i < |s[1..]| && s[1..][i] == r.value && forall j :: 0 <= j < i ==> s[1..][j].name != name;
          assert s[i + 1] == r.value;
          forall j | 0 <= j < i + 1 ensures s[j].name != name {
            if j > 0 {
              assert s[j] == s[1..][j - 1];
            }
          }
        }
      }
      r
  }

  /** Every alternative is non-empty, so each match moves the search on. */
  predicate NonEmptyNames(names: seq<string>)
  {
    forall j :: 0 <= j < |names| ==> |names[j]| > 0
  }

  /** Alternative `j` of a name regex matches the query at position `i`,
      ignoring ASCII case. */
  predicate NameAt(names: seq<string>, query: string, i: nat, j: nat)
  {
    j < |names| && i + |names[j]| <= |query|
    && EqualIgnoringCase(query[i..i + |names[j]|], names[j])
  }

  /** The text of the first alternative of `names`, from index `k` on, that a
      regex `/…/i` listing them matches at position `i` of the query. */
  function AlternativeAt(names: seq<string>, query: string, i: nat, k: nat): (m: Option<string>)
    requires NonEmptyNames(names)
    ensures m.Some? ==> 0 < |m.value| && i + |m.value| <= |query| && OccursAt(query, m.value, i)
    decreases |names| - k
  {
    if k >= |names| then None
    else if NameAt(names, query, i, k) then Some(query[i..i + |names[k]|])
    else AlternativeAt(names, query, i, k + 1)
  }

  /** No alternative from `k` on matches at `i` exactly when there is no
      match; otherwise the match is the text of the first alternative, in
      pattern order, that matches there. */
  lemma {:induction false} AlternativeAtSpec(names: seq<string>, query: string, i: nat, k: nat)
    requires NonEmptyNames(names)
    ensures AlternativeAt(names, query, i, k).None? <==> forall j :: k <= j ==> !NameAt(names, query, i, j)
    ensures AlternativeAt(names, query, i, k).Some? ==>
      exists j :: (k <= j && NameAt(names, query, i, j) && AlternativeAt(names, query, i, k).value == query[i..i + |names[j]|]
        && forall j' :: k <= j' < j ==> !NameAt(names, query, i, j'))
    decreases |names| - k
  {
    if k < |names| && !NameAt(names, query, i, k) {
      AlternativeAtSpec(names, query, i, k + 1);
      if AlternativeAt(names, query, i, k + 1).Some? {
        var j :| k + 1 <= j && NameAt(names, query, i, j) && AlternativeAt(names, query, i, k + 1).value == query[i..i + |names[j]|]
          && forall j' :: k + 1 <= j' < j ==> !NameAt(names, query, i, j');
        assert forall j' :: k <= j' < j ==> !NameAt(names, query, i, j');
      } else {
        assert forall j :: k <= j ==> !NameAt(names, query, i, j) by {
          forall j | k <= j ensures !NameAt(names, query, i, j) {
            if j > k {
              assert k + 1 <= j;
            }
          }
        }
      }
    } else if k < |names| {
      assert NameAt(names, query, i, k);
    }
  }

  /** What `query.match(/…/gi)` returns from position `i` on: the leftmost
      match, then the search resumes after it. */
  function MatchesFrom(names: seq<string>, query: string, i: nat): (ms: seq<string>)
    requires NonEmptyNames(names)
    ensures forall m :: m in ms ==> exists j: nat :: OccursAt(query, m, j)
    decreases |query| - i
  {
    if i >= |query| then []
    else match AlternativeAt(names, query, i, 0)
      case Some(m) => [m] + MatchesFrom(names, query, i + |m|)
      case None => MatchesFrom(names, query, i + 1)
  }

  /** `query.match(/…/gi) || []` with the catalog names. */
  function AllMatches(query: string): seq<string>
  {
    assert NonEmptyNames(NamePattern);
    MatchesFrom(NamePattern, query, 0)
  }

  /** `query.match(/…/i)?.[0]`: the text of the leftmost match. */
  function FirstMatch(query: string): Option<string>
  {
    var ms := AllMatches(query);
    if |ms| > 0 then Some(ms[0]) else None
  }

  function Min(a: nat, b: nat): nat { if a <= b then a else b }

  /** `selectedTVs`: the catalog cards whose exact name was matched, at most three. */
  function SelectedTvs(query: string): seq<TvCard>
  {
    var names := AllMatches(query);
    var named := Filter(Catalog, (tv: TvCard) => tv.name in names);
    named[..Min(3, |named|)]
  }

  function CompareReply(query: string): LlmResponse
  {
    var selected := SelectedTvs(query);
    var comparison := if |selected| >= 2 then Some(selected) else None;
    LlmResponse(
      if comparison.Some? then "Comparing " + Decimal(|selected|) + " TVs:" else SelectTwoText,
      [],
      if |selected| < 2 then Some(CompareMoreTip) else None,
      comparison)
  }

  function AddReply(query: string): LlmResponse
  {
    var tvName := FirstMatch(query);
    var tv := if tvName.Some? then FindByName(Catalog, tvName.value) else None;
    LlmResponse(
      if tv.Some? then "Added " + tvName.value + " to comparison." else AddNotFoundText,
      [],
      Some(AddTip),
      None)
  }

  function RemoveReply(query: string): LlmResponse
  {
    var tvName := FirstMatch(query);
    LlmResponse(
      if tvName.Some? then "Removed " + tvName.value + " from comparison." else RemoveNotFoundText,
      [],
      Some(RemoveTip),
      None)
  }

  /** The cards and text the price / size / refresh-rate filter chain leaves. */
  datatype Listing = Listing(cards: seq<TvCard>, text: string)

  function FilterStage(query: string): Listing
  {
    if Mentions(query, "under $1000") then
      var cards := Filter(Catalog, Cheap);
      Listing(cards, "Found " + Decimal(|cards|) + " TVs under $1000:")
    else if Mentions(query, "75 inches") then
      var cards := Filter(Catalog, Is75In);
      Listing(cards, "Found " + Decimal(|cards|) + " TVs over 75 inches:")
    else if Mentions(query, "120hz") then
      var cards := Filter(Catalog, Is120Hz);
      Listing(cards, "Found " + Decimal(|cards|) + " TVs with 120Hz refresh rate:")
    else
      Listing(Catalog, "Found " + Decimal(|Catalog|) + " TVs matching \"" + query + "\":")
  }

  /** `mockLLMResponse(query)`. */
  function MockResponse(query: string): LlmResponse
  {
    var listing := FilterStage(query);
    var tip := if Contains(query, "gaming") then None else Some(DefaultTip);
    if IsCompareQuery(query) then CompareReply(query)
    else if IsAddQuery(query) then AddReply(query)
    else if IsRemoveQuery(query) then RemoveReply(query)
    else LlmResponse(listing.text, listing.cards, tip, None)
  }
}

/** Properties of the mock engine's replies. */
module MockLlmProperties {
  import opened Wrappers
  import opened Text
  import opened MockLlm

  /** The regex alternatives are exactly the catalog names, in catalog order. */
  lemma PatternIsCatalogNames()
    ensures |NamePattern| == |Catalog|
    ensures forall i :: 0 <= i < |Catalog| ==> NamePattern[i] == Catalog[i].name
  {
  }

  /** The "under $1000" filter keeps Tv1, Tv3, Tv4 and Tv6. */
  lemma CheapCatalog()
    ensures Filter(Catalog, Cheap) == [Tv1, Tv3, Tv4, Tv6]
  {
    assert Filter([Tv6], Cheap) == [Tv6];
    assert Filter([Tv5, Tv6], Cheap) == [Tv6];
    assert Filter([Tv4, Tv5, Tv6], Cheap) == [Tv4, Tv6];
    assert Filter([Tv3, Tv4, Tv5, Tv6], Cheap) == [Tv3, Tv4, Tv6];
    assert Filter([Tv2, Tv3, Tv4, Tv5, Tv6], Cheap) == [Tv3, Tv4, Tv6];
    assert Catalog[1..] == [Tv2, Tv3, Tv4, Tv5, Tv6];
  }

  lemma CheapCount()
    ensures |Filter(Catalog, Cheap)| == 4
  {
    CheapCatalog();
  }

  /** A query with no filter keyword and no action lists the whole catalog. */
  lemma NoKeywordListsCatalog(query: string)
    requires !Mentions(query, "under $1000") && !Mentions(query, "75 inches") && !Mentions(query, "120hz")
    requires !IsActionQuery(query)
    ensures MockResponse(query).cards == Catalog
    ensures MockResponse(query).comparison == None
    ensures MockResponse(query).responseText == "Found 6 TVs matching \"" + query + "\":"
  {
    assert Decimal(6) == "6";
  }

  /** The empty query, which the page uses to look the catalog up, lists it whole. */
  lemma EmptyQueryListsCatalog()
    ensures MockResponse("").cards == Catalog
  {
    assert !Contains(AsciiLower(""), "compare");
  }

  /** "under $1000" keeps exactly the cards priced below 1000, in catalog order,
      whatever other filter keyword the query also holds. */
  lemma {:induction false} UnderThousandFilter(query: string)
    requires Mentions(query, "under $1000") && !IsActionQuery(query)
    ensures forall tv :: tv in MockResponse(query).cards <==> tv in Catalog && tv.price < 1000
    ensures IsSubsequence(MockResponse(query).cards, Catalog)
    ensures |MockResponse(query).cards| == 4
    ensures MockResponse(query).responseText == "Found " + Decimal(|MockResponse(query).cards|) + " TVs under $1000:"
  {
    CheapListing(query);
    FilterMembers(Catalog, Cheap);
    FilterIsSubsequence(Catalog, Cheap);
    CheapCount();
  }

  lemma CheapListing(query: string)
    requires Mentions(query, "under $1000") && !IsActionQuery(query)
    ensures MockResponse(query).cards == Filter(Catalog, Cheap)
    ensures MockResponse(query).responseText == "Found " + Decimal(|Filter(Catalog, Cheap)|) + " TVs under $1000:"
  {
  }

  /** Outside the action branches the cards are a catalog-order subsequence of the
      catalog, the text reports their number, and nothing is compared. */
  lemma {:induction false} ListingIsCatalogSubsequence(query: string)
    requires !IsActionQuery(query)
    ensures IsSubsequence(MockResponse(query).cards, Catalog)
    ensures StartsWith(MockResponse(query).responseText, "Found " + Decimal(|MockResponse(query).cards|) + " TVs ")
    ensures MockResponse(query).comparison == None
  {
    var r := MockResponse(query);
    if Mentions(query, "under $1000") {
      FilterIsSubsequence(Catalog, Cheap);
    } else if Mentions(query, "75 inches") {
      FilterIsSubsequence(Catalog, Is75In);
    } else if Mentions(query, "120hz") {
      FilterIsSubsequence(Catalog, Is120Hz);
    } else {
      FilterIsSubsequence(Catalog, (tv: TvCard) => true);
      assert Filter(Catalog, (tv: TvCard) => true) == Catalog by {
        FilterKeepsAll(Catalog, (tv: TvCard) => true);
      }
    }
    var prefix := "Found " + Decimal(|r.cards|) + " TVs ";
    assert r.responseText[..|prefix|] == prefix;
  }

  /** Every match of the name regex occurs in the query. */
  lemma MatchesOccur(query: string)
    ensures forall m :: m in AllMatches(query) ==> Contains(query, m)
  {
    forall m | m in AllMatches(query)
      ensures Contains(query, m)
    {
      ContainsAt(query, m);
    }
  }

  /** The `/gi` search from `i` finds nothing exactly when no name occurs, up
      to ASCII case, at or after `i`. */
  lemma {:induction false} MatchesFromEmpty(names: seq<string>, query: string, i: nat)
    requires NonEmptyNames(names)
    ensures MatchesFrom(names, query, i) == [] <==> forall p, j :: i <= p ==> !NameAt(names, query, p, j)
    decreases |query| - i
  {
    if i < |query| {
      MatchesFromEmpty(names, query, i + 1);
      AlternativeAtSpec(names, query, i, 0);
      if AlternativeAt(names, query, i, 0).None? {
        if forall p, j :: i + 1 <= p ==> !NameAt(names, query, p, j) {
          forall p, j | i <= p ensures !NameAt(names, query, p, j) {
          }
        }
      } else {
        var j :| 0 <= j && NameAt(names, query, i, j);
      }
    }
  }

  /** `p` is the leftmost position, from `i` on, where an alternative matches. */
  predicate LeftmostMatch(names: seq<string>, query: string, i: nat, p: nat)
    requires NonEmptyNames(names)
  {
    i <= p < |query| && AlternativeAt(names, query, p, 0).Some?
    && forall p' :: i <= p' < p ==> AlternativeAt(names, query, p', 0).None?
  }

  /** The first match is taken at the leftmost position where some name occurs,
      and the search resumes right after it, so matches never overlap. */
  lemma {:induction false} MatchesFromLeftmost(names: seq<string>, query: string, i: nat) returns (p: nat)
    requires NonEmptyNames(names)
    requires MatchesFrom(names, query, i) != []
    ensures LeftmostMatch(names, query, i, p)
    ensures MatchesFrom(names, query, i) ==
      [AlternativeAt(names, query, p, 0).value] + MatchesFrom(names, query, p + |AlternativeAt(names, query, p, 0).value|)
    decreases |query| - i
  {
    if AlternativeAt(names, query, i, 0).Some? {
      p := i;
    } else {
      p := MatchesFromLeftmost(names, query, i + 1);
    }
  }

  /** `query.match(/…/i)` finds nothing exactly when no catalog name occurs in
      the query up to ASCII case; otherwise it is the first alternative, in
      pattern order, at the leftmost position where a name occurs. */
  lemma FirstMatchSpec(query: string)
    ensures NonEmptyNames(NamePattern)
    ensures FirstMatch(query).None? <==> forall p, j :: !NameAt(NamePattern, query, p, j)
    ensures FirstMatch(query).Some? ==>
      exists p: nat :: LeftmostMatch(NamePattern, query, 0, p) && FirstMatch(query) == AlternativeAt(NamePattern, query, p, 0)
  {
    assert NonEmptyNames(NamePattern);
    MatchesFromEmpty(NamePattern, query, 0);
    if FirstMatch(query).Some? {
      var p := MatchesFromLeftmost(NamePattern, query, 0);
    }
  }

  /** A query that spells a catalog name, in any ASCII case, always yields a match. */
  lemma NamedTvMatches(query: string, p: nat, j: nat)
    requires j < |NamePattern| && p + |NamePattern[j]| <= |query|
    requires EqualIgnoringCase(query[p..p + |NamePattern[j]|], NamePattern[j])
    ensures FirstMatch(query).Some?
  {
    FirstMatchSpec(query);
    assert NameAt(NamePattern, query, p, j);
  }

  /** The compare branch selects the first three (or fewer) catalog TVs, in
      catalog order, whose exact name the regex matched, so a matched TV is left
      out only when three are already selected; it shows a comparison exactly
      when it selected two or more, offers a tip exactly when it did not, and
      lists no cards. */
  lemma {:induction false} CompareSelection(query: string)
    requires IsCompareQuery(query)
    ensures |SelectedTvs(query)| <= 3
    ensures IsSubsequence(SelectedTvs(query), Catalog)
    ensures forall tv :: tv in SelectedTvs(query) ==> Contains(query, tv.name)
    ensures MockResponse(query).comparison.Some? <==> |SelectedTvs(query)| >= 2
    ensures MockResponse(query).comparison.Some? ==> MockResponse(query).comparison.value == SelectedTvs(query)
    ensures MockResponse(query).proactiveTip.None? <==> |SelectedTvs(query)| >= 2
    ensures MockResponse(query).cards == []
    ensures var named := Filter(Catalog, (tv: TvCard) => tv.name in AllMatches(query));
      && SelectedTvs(query) == named[..Min(3, |named|)]
      && IsSubsequence(named, Catalog)
      && forall tv :: tv in named <==> tv in Catalog && tv.name in AllMatches(query)
    ensures forall tv :: tv in Catalog && tv.name in AllMatches(query) && tv !in SelectedTvs(query) ==>
      |SelectedTvs(query)| == 3
  {
    var names := AllMatches(query);
    var p := (tv: TvCard) => tv.name in names;
    var named := Filter(Catalog, p);
    FilterIsSubsequence(Catalog, p);
    FilterMembers(Catalog, p);
    PrefixIsSubsequence(named, Catalog, Min(3, |named|));
    MatchesOccur(query);
    forall tv | tv in SelectedTvs(query)
      ensures Contains(query, tv.name)
    {
      assert tv in named;
    }
    forall tv | tv in Catalog && tv.name in names && tv !in SelectedTvs(query)
      ensures |SelectedTvs(query)| == 3
    {
      assert tv in named;
    }
  }

  /** A compare query in which the regex matched the exact names of two different
      catalog TVs always gets a comparison. */
  lemma CompareTwoNamed(query: string, a: TvCard, b: TvCard)
    requires IsCompareQuery(query)
    requires a in Catalog && b in Catalog && a != b
    requires a.name in AllMatches(query) && b.name in AllMatches(query)
    ensures MockResponse(query).comparison.Some?
    ensures a in SelectedTvs(query) || |SelectedTvs(query)| == 3
  {
    var named := Filter(Catalog, (tv: TvCard) => tv.name in AllMatches(query));
    CompareSelection(query);
    assert a in named && b in named;
  }

  /** The compare, add and remove branches always empty the card list, even when
      a filter keyword matched first. */
  lemma ActionsClearCards(query: string)
    requires IsActionQuery(query)
    ensures MockResponse(query).cards == []
  {
  }

  /** The add branch names the TV exactly when the leftmost regex match is, letter
      for letter, a catalog name; otherwise it answers "TV not found". */
  lemma AddNamesOnlyCatalogTvs(query: string)
    requires !IsCompareQuery(query) && IsAddQuery(query)
    ensures var m := FirstMatch(query);
      var found := m.Some? && exists i :: 0 <= i < |Catalog| && Catalog[i].name == m.value;
      && (found ==> MockResponse(query).responseText == "Added " + m.value + " to comparison.")
      && (!found ==> MockResponse(query).responseText == AddNotFoundText)
    ensures MockResponse(query).proactiveTip == Some(AddTip)
    ensures MockResponse(query).comparison == None
  {
  }

  /** The remove branch names whatever the regex matched, whether or not it is a
      catalog name letter for letter. */
  lemma RemoveNamesMatch(query: string)
    requires !IsCompareQuery(query) && !IsAddQuery(query) && IsRemoveQuery(query)
    ensures FirstMatch(query).Some? ==>
      MockResponse(query).responseText == "Removed " + FirstMatch(query).value + " from comparison."
    ensures FirstMatch(query).None? ==> MockResponse(query).responseText == RemoveNotFoundText
    ensures MockResponse(query).proactiveTip == Some(RemoveTip)
  {
  }

  /** Outside the action branches the tip is withheld exactly when the query
      contains "gaming", in that case. */
  lemma GamingSuppressesTip(query: string)
    requires !IsActionQuery(query)
    ensures MockResponse(query).proactiveTip.None? <==> Contains(query, "gaming")
    ensures MockResponse(query).proactiveTip.Some? ==> MockResponse(query).proactiveTip.value == DefaultTip
  {
  }
}
