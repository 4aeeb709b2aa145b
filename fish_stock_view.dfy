/** The fish-stock list: every fish, or only the active ones, sorted active
    first and shown in species sections. */
module FishStockView {

  import opened Seqs
  import opened Domain
  import opened StockLists

  /** The render: filter by the show-inactive setting, sort by status, group
      by species; each header counts the species' active fish in the whole
      stock. */
  method RenderFishStock(stock: seq<Fish>, showInactive: bool) returns (groups: seq<Group>)
    ensures groups == SortedSections(stock, showInactive)
  {
    var filtered := if showInactive then stock else Filter(stock, IsActiveFish);
    var sorted := SortByStatus(filtered);
    groups := RenderGroups(sorted, stock);
  }

  /** With inactive fish shown, every fish of the stock is on the list once;
      with them hidden, exactly the active fish are. */
  lemma FishStockShowsStock(stock: seq<Fish>, showInactive: bool)
    ensures showInactive ==> multiset(AllCards(SortedSections(stock, showInactive))) == multiset(stock)
    ensures forall f :: f in AllCards(SortedSections(stock, showInactive)) <==> f in stock && (showInactive || IsActiveFish(f))
  {
    SortedSectionsSpec(stock, showInactive);
    var cards := AllCards(SortedSections(stock, showInactive));
    forall f ensures f in cards <==> f in Shown(stock, showInactive) {
      assert f in cards <==> f in multiset(cards);
    }
  }
}
