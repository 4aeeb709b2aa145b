/** The parent-stock list: the active fish in species sections. */
module ParentStockView {

  import opened Seqs
  import opened Text
  import opened Domain
  import opened StockLists

  /** The parent screen's sections, as a specification: the active fish in
      stock order, by species, each header counting its section. */
  function ParentScreen(stock: seq<Fish>): seq<Group> {
    var active := Filter(stock, IsActiveFish);
    ParentGroups(active, Headers(active))
  }

  function ParentGroups(active: seq<Fish>, hs: seq<string>): (r: seq<Group>)
    ensures |r| == |hs|
  {
    if hs == [] then []
    else [Group(hs[0], |FilterKey(active, SpeciesOf, hs[0])|, FilterKey(active, SpeciesOf, hs[0]))] + ParentGroups(active, hs[1..])
  }

  /** The render: keep the active fish, group them by species, sort the
      species, and count each section's cards. */
  method RenderParents(stock: seq<Fish>) returns (groups: seq<Group>)
    ensures groups == ParentScreen(stock)
  {
    var active := Filter(stock, IsActiveFish);
    var grouped, order := GroupBy(active, SpeciesOf);
    var headers := SortBy(order, StrLe);
    HeaderKeys(active, order, grouped.Keys);
    groups := [];
    assert headers[0..] == headers;
    for i := 0 to |headers|
      invariant ParentGroups(active, headers) == groups + ParentGroups(active, headers[i..])
    {
      var sp := headers[i];
      assert sp in grouped;
      ghost var rest := headers[i..];
      assert rest[0] == sp && rest[1..] == headers[i + 1..];
      groups := groups + [Group(sp, |grouped[sp]|, grouped[sp])];
    }
    assert headers[|headers|..] == [];
  }

  /** The parent sections are the generic species sections of the active
      fish, counted over the active fish. */
  lemma {:induction false} ParentGroupsAreSections(active: seq<Fish>, hs: seq<string>)
    requires forall f :: f in active ==> IsActiveFish(f)
    ensures ParentGroups(active, hs) == GroupsFor(active, active, hs)
  {
    if hs != [] {
      ParentGroupsAreSections(active, hs[1..]);
      var g := FilterKey(active, SpeciesOf, hs[0]);
      FilterAll(g, IsActiveFish);
    }
  }

  /** Each active fish appears once and only active fish appear; each
      header's number is the number of the species' active fish, which is
      also the number of cards under it. */
  lemma ParentScreenSpec(stock: seq<Fish>)
    ensures multiset(AllCards(ParentScreen(stock))) == multiset(Filter(stock, IsActiveFish))
    ensures forall f :: f in AllCards(ParentScreen(stock)) <==> f in stock && IsActiveFish(f)
    ensures forall i :: 0 <= i < |ParentScreen(stock)| ==>
              ParentScreen(stock)[i].count == ActiveCount(stock, ParentScreen(stock)[i].species)
  {
    var active := Filter(stock, IsActiveFish);
    FilterMembers(stock, IsActiveFish);
    ParentGroupsAreSections(active, Headers(active));
    EveryListedFishShownOnce(active, active);
    var cards := AllCards(ParentScreen(stock));
    forall f ensures f in cards <==> f in active {
      assert f in cards <==> f in multiset(cards);
    }
    forall i | 0 <= i < |ParentScreen(stock)| ensures ParentScreen(stock)[i].count == ActiveCount(stock, ParentScreen(stock)[i].species) {
      GroupsForAt(active, active, Headers(active), i);
      var sp := ParentScreen(stock)[i].species;
      var g := FilterKey(active, SpeciesOf, sp);
      FilterAll(g, IsActiveFish);
      FilterKeyCountPrefiltered(stock, SpeciesOf, sp, IsActiveFish);
    }
  }
}
