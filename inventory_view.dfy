/** The inventory screen: the quantity buttons on each card, the clamped
    quantity update, and the sections by category. */
module InventoryView {

  import opened Seqs
  import opened Domain

  /** Math.max(0, q) */
  function ClampQuantity(q: int): (r: nat)
    ensures r >= q && (q >= 0 ==> r == q) && (q < 0 ==> r == 0)
  {
    if q < 0 then 0 else q
  }

  /** updateQuantity(id, newQuantity): the item handed to the update handler,
      or nothing when no item has that id. */
  function UpdateQuantity(inventory: seq<InventoryItem>, id: string, newQuantity: int): (r: Option<InventoryItem>)
    ensures r.None? <==> forall i :: i in inventory ==> i.id != id
    ensures r.Some? ==> r.value.quantity >= 0 && r.value.quantity >= newQuantity
    ensures r.Some? ==> r.value == FindItem(inventory, id).value.(quantity := r.value.quantity)
    ensures r.Some? && newQuantity >= 0 ==> r.value.quantity == newQuantity
    ensures r.Some? ==> r.value.quantity == ClampQuantity(newQuantity)
  {
    match FindItem(inventory, id)
    case None => None
    case Some(item) => Some(item.(quantity := ClampQuantity(newQuantity)))
  }

  /** The inventory once the update handler has stored the item: every entry
      with that id holds the first such entry with its quantity clamped, and
      the rest are as they were. */
  function InventoryAfterQuantity(inventory: seq<InventoryItem>, id: string, newQuantity: int): (r: seq<InventoryItem>)
    ensures |r| == |inventory|
    ensures FindItem(inventory, id).None? ==> r == inventory
    ensures forall k :: 0 <= k < |r| ==>
              r[k] == if inventory[k].id == id
                      then FindItem(inventory, id).value.(quantity := ClampQuantity(newQuantity))
                      else inventory[k]
  {
    match UpdateQuantity(inventory, id, newQuantity)
    case None => inventory
    case Some(item) => ReplaceWhere(inventory, (i: InventoryItem) => i.id == id, item)
  }

  /** A quantity update never leaves a negative quantity where there was none. */
  lemma QuantitiesStayNonNegative(inventory: seq<InventoryItem>, id: string, newQuantity: int)
    requires forall k :: 0 <= k < |inventory| ==> inventory[k].quantity >= 0
    ensures forall k :: 0 <= k < |inventory| ==> InventoryAfterQuantity(inventory, id, newQuantity)[k].quantity >= 0
  {
  }

  // ---------------------------------------------------------------------
  // The card's buttons

  /** The minus button is disabled once nothing is left. */
  predicate CanDecrease(item: InventoryItem) {
    item.quantity > 0
  }

  /** The quantity the minus button asks for. */
  function DecreaseRequest(item: InventoryItem): int {
    item.quantity - 1
  }

  /** The quantity the plus button asks for. */
  function IncreaseRequest(item: InventoryItem): int {
    item.quantity + 1
  }

  /** Pressing minus on an enabled card removes exactly one unit, never going
      below zero; pressing plus on a card with a quantity adds exactly one. */
  lemma ButtonsMoveByOne(inventory: seq<InventoryItem>, item: InventoryItem)
    requires item in inventory
    requires forall i :: i in inventory && i.id == item.id ==> i == item
    ensures CanDecrease(item) ==> UpdateQuantity(inventory, item.id, DecreaseRequest(item)) == Some(item.(quantity := item.quantity - 1))
    ensures item.quantity >= 0 ==> UpdateQuantity(inventory, item.id, IncreaseRequest(item)) == Some(item.(quantity := item.quantity + 1))
  {
  }

  /** Plus then minus on a card with a quantity gives back the card as it was. */
  lemma IncreaseThenDecrease(item: InventoryItem)
    requires item.quantity >= 0
    ensures var up := item.(quantity := ClampQuantity(IncreaseRequest(item)));
            CanDecrease(up) && up.(quantity := ClampQuantity(DecreaseRequest(up))) == item
  {
  }

  // ---------------------------------------------------------------------
  // Sections

  function CategoryOf(item: InventoryItem): Category { item.category }

  /** The sections in the order the screen lists them. */
  const Categories: seq<Category> := [FishFeeds, Medicines, Maintenance]

  /** One section: its category and its cards; no cards shows the "no
      items in this category" placeholder. */
  datatype Section = Section(category: Category, items: seq<InventoryItem>)

  /** What the screen shows: the empty-inventory message, or the three
      sections in their fixed order. */
  datatype Screen = EmptyInventory | Sections(sections: seq<Section>)

  /** The screen for an inventory, as a specification. */
  function InventoryScreen(inventory: seq<InventoryItem>): Screen {
    if inventory == [] then EmptyInventory
    else Sections(seq(3, k requires 0 <= k < 3 => Section(Categories[k], FilterKey(inventory, CategoryOf, Categories[k]))))
  }

  /** The cards of the screen, section after section. */
  function Cards(s: Screen): seq<InventoryItem> {
    match s
    case EmptyInventory => []
    case Sections(ss) => CardsOf(ss)
  }

  function CardsOf(ss: seq<Section>): seq<InventoryItem> {
    if ss == [] then [] else ss[0].items + CardsOf(ss[1..])
  }

  /** Every item appears on the screen, and exactly once. */
  lemma EveryItemShownOnce(inventory: seq<InventoryItem>)
    ensures multiset(Cards(InventoryScreen(inventory))) == multiset(inventory)
  {
    if inventory != [] {
      var ss := InventoryScreen(inventory).sections;
      assert CardsOf(ss[3..]) == [];
      assert CardsOf(ss[2..]) == ss[2].items;
      assert CardsOf(ss[1..]) == ss[1].items + ss[2].items;
      var key := CategoryOf;
      assert Categories[1..] == [Medicines, Maintenance] && Categories[1..][1..] == [Maintenance];
      assert Concat(inventory, key, [Maintenance]) == ss[2].items;
      assert Concat(inventory, key, [Medicines, Maintenance]) == ss[1].items + ss[2].items;
      assert Concat(inventory, key, Categories) == CardsOf(ss);
      assert NoDup(Categories);
      forall x | x in inventory ensures key(x) in Categories {
        match x.category
        case FishFeeds => assert Categories[0] == FishFeeds;
        case Medicines => assert Categories[1] == Medicines;
        case Maintenance => assert Categories[2] == Maintenance;
      }
      ConcatPermutation(inventory, CategoryOf, Categories);
    }
  }

  /** The render: the grouping reduce of the inventory, then each category's
      group in the fixed order, or the empty message. */
  method RenderInventory(inventory: seq<InventoryItem>) returns (screen: Screen)
    ensures screen == InventoryScreen(inventory)
  {
    if |inventory| == 0 {
      return EmptyInventory;
    }
    var grouped, _ := GroupBy(inventory, CategoryOf);
    var sections: seq<Section> := [];
    for k := 0 to 3
      invariant |sections| == k
      invariant forall j :: 0 <= j < k ==> sections[j] == Section(Categories[j], FilterKey(inventory, CategoryOf, Categories[j]))
    {
      var c := Categories[k];
      var items := if c in grouped then grouped[c] else [];
      if c !in grouped {
        FilterKeyAbsent(inventory, CategoryOf, c);
      }
      sections := sections + [Section(c, items)];
    }
    screen := Sections(sections);
  }
}
