/** The fry and juveniles list: the fish bred here, sorted active first and
    shown in species sections. */
module FryView {

  import opened Seqs
  import opened Domain
  import opened StockLists

  predicate IsBred(f: Fish) { f.origin == Bred }

  /** The fish bred here, in stock order. */
  function BredFish(stock: seq<Fish>): (r: seq<Fish>)
    ensures forall f :: f in r <==> f in stock && IsBred(f)
  {
    FilterMembers(stock, IsBred);
    Filter(stock, IsBred)
  }

  /** The fry screen's sections, as a specification. */
  function FryScreen(stock: seq<Fish>, showInactive: bool): seq<Group> {
    SortedSections(BredFish(stock), showInactive)
  }

  /** The render: keep the bred fish, filter by the show-inactive setting,
      sort by status, group by species; each header counts the species'
      active bred fish. */
  method RenderFry(stock: seq<Fish>, showInactive: bool) returns (groups: seq<Group>)
    ensures groups == FryScreen(stock, showInactive)
  {
    var bred := Filter(stock, IsBred);
    var filtered := if showInactive then bred else Filter(bred, IsActiveFish);
    var sorted := SortByStatus(filtered);
    groups := RenderGroups(sorted, bred);
  }

  /** Only fish bred here appear, and each bred fish appears exactly when it
      is active or inactive fish are shown. */
  lemma FryShowsBredFish(stock: seq<Fish>, showInactive: bool)
    ensures forall f :: f in AllCards(FryScreen(stock, showInactive)) <==>
              f in stock && IsBred(f) && (showInactive || IsActiveFish(f))
  {
    SortedSectionsSpec(BredFish(stock), showInactive);
    var cards := AllCards(FryScreen(stock, showInactive));
    forall f ensures f in cards <==> f in Shown(BredFish(stock), showInactive) {
      assert f in cards <==> f in multiset(cards);
    }
  }
}
