/** Screen changes: the header's back button and a click on a reminder. */
module Navigation {

  import opened Seqs
  import opened Domain

  /** handleBack: from a breeding record to the breeding list, from a fish to
      the fry list when it was bred here and to the stock list otherwise, and
      from anywhere else to the dashboard. */
  function BackTarget(current: View, stock: seq<Fish>, selectedFish: Option<string>): (v: View)
    ensures current == BreedingDetail ==> v == Breeding
    ensures current == FishDetail ==>
              (v == Fry <==> selectedFish.Some? && FindFish(stock, selectedFish.value).Some?
                             && FindFish(stock, selectedFish.value).value.origin == Bred)
    ensures current == FishDetail ==> v == Fry || v == FishStock
    ensures current != BreedingDetail && current != FishDetail ==> v == Dashboard
  {
    if current == BreedingDetail then Breeding
    else if current == FishDetail then
      var fish := if selectedFish.Some? then FindFish(stock, selectedFish.value) else None;
      if fish.Some? && fish.value.origin == Bred then Fry else FishStock
    else Dashboard
  }

  /** Going back never lands on a detail screen, and two steps back always
      reach the dashboard. */
  lemma BackLeavesDetail(current: View, stock: seq<Fish>, selectedFish: Option<string>)
    ensures BackTarget(current, stock, selectedFish) != BreedingDetail
    ensures BackTarget(current, stock, selectedFish) != FishDetail
    ensures BackTarget(BackTarget(current, stock, selectedFish), stock, selectedFish) == Dashboard
  {
  }

  /** The screen and the selected breeding record after a reminder is clicked:
      a target with a (truthy) record id opens that record, a target alone
      just switches screens, and no target leaves both as they were. */
  function AfterClick(n: Notification, current: View, selectedBreeding: Option<nat>): (r: (View, Option<nat>))
    ensures n.target.None? ==> r == (current, selectedBreeding)
    ensures n.target.Some? ==> r.0 == n.target.value
    ensures n.target.Some? && n.recordId.Some? && n.recordId.value != 0 ==> r.1 == n.recordId
    ensures !(n.target.Some? && n.recordId.Some? && n.recordId.value != 0) ==> r.1 == selectedBreeding
  {
    if n.target.Some? && n.recordId.Some? && n.recordId.value != 0 then (n.target.value, n.recordId)
    else if n.target.Some? then (n.target.value, selectedBreeding)
    else (current, selectedBreeding)
  }
}
