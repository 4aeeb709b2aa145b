/** What the three fish lists share: the sort that puts active fish first,
    the species sections with their alphabetical headers, and the active
    count beside each header. */
module StockLists {

  import opened Seqs
  import opened Text
  import opened Domain

  /** statusOrder: Active 1, Sold 2, Dead 3 */
  function StatusRank(s: FishStatus): nat {
    match s
    case Active => 1
    case Sold => 2
    case Dead => 3
  }

  /** The comparator statusOrder[a.status] - statusOrder[b.status] <= 0 */
  predicate StatusLe(a: Fish, b: Fish) {
    StatusRank(a.status) <= StatusRank(b.status)
  }

  lemma StatusLeTotalPreorder()
    ensures TotalPreorder(StatusLe)
  {
  }

  /** [...fish].sort by status, a stable sort. */
  function SortByStatus(fish: seq<Fish>): (r: seq<Fish>)
    ensures multiset(r) == multiset(fish)
  {
    SortBy(fish, StatusLe)
  }

  predicate HasStatus(st: FishStatus, f: Fish) { f.status == st }

  /** The sorted list puts active fish before sold ones and sold ones before
      dead ones, holds the same fish, and keeps the fish of each status in the
      order they had. */
  lemma SortByStatusSpec(fish: seq<Fish>, st: FishStatus)
    ensures SortedBy(SortByStatus(fish), StatusLe)
    ensures multiset(SortByStatus(fish)) == multiset(fish)
    ensures Filter(SortByStatus(fish), f => HasStatus(st, f)) == Filter(fish, f => HasStatus(st, f))
  {
    StatusLeTotalPreorder();
    SortBySorted(fish, StatusLe);
    SortByStable(fish, StatusLe, f => HasStatus(st, f));
  }

  function SpeciesOf(f: Fish): string { f.species }

  /** Object.keys(grouped).sort(): the species of the listed fish in
      ascending string order. */
  function Headers(listed: seq<Fish>): seq<string> {
    SortBy(Distinct(Map(listed, SpeciesOf)), StrLe)
  }

  /** The headers are strictly ascending and name exactly the species the
      listed fish belong to. */
  lemma HeadersSpec(listed: seq<Fish>)
    ensures forall i, j :: 0 <= i < j < |Headers(listed)| ==> StrLe(Headers(listed)[i], Headers(listed)[j]) && Headers(listed)[i] != Headers(listed)[j]
    ensures forall sp :: sp in Headers(listed) <==> exists f :: f in listed && f.species == sp
  {
    var d := Distinct(Map(listed, SpeciesOf));
    StrLeTotalPreorder();
    SortBySorted(d, StrLe);
    SortByNoDup(d, StrLe);
    MapKeySet(listed, SpeciesOf);
    forall sp ensures sp in Headers(listed) <==> sp in d {
      assert sp in Headers(listed) <==> sp in multiset(Headers(listed));
    }
  }

  /** One species section: its header, the number in brackets beside it,
      and its cards in order. */
  datatype Group = Group(species: string, count: nat, fish: seq<Fish>)

  /** The number of active fish of species sp among the counted fish. */
  function ActiveCount(counted: seq<Fish>, sp: string): nat {
    Count(FilterKey(counted, SpeciesOf, sp), IsActiveFish)
  }

  /** The sections for the headers hs: each lists the listed fish of its
      species and counts the active fish of that species among `counted`. */
  function GroupsFor(listed: seq<Fish>, counted: seq<Fish>, hs: seq<string>): (r: seq<Group>)
    ensures |r| == |hs|
  {
    if hs == [] then []
    else [Group(hs[0], ActiveCount(counted, hs[0]), FilterKey(listed, SpeciesOf, hs[0]))] + GroupsFor(listed, counted, hs[1..])
  }

  /** The section at position i is the one for the i-th header. */
  lemma {:induction false} GroupsForAt(listed: seq<Fish>, counted: seq<Fish>, hs: seq<string>, i: nat)
    requires i < |hs|
    ensures GroupsFor(listed, counted, hs)[i] == Group(hs[i], ActiveCount(counted, hs[i]), FilterKey(listed, SpeciesOf, hs[i]))
  {
    if i > 0 {
      GroupsForAt(listed, counted, hs[1..], i - 1);
    }
  }

  /** The cards of all sections, one section after another. */
  function AllCards(groups: seq<Group>): seq<Fish> {
    if groups == [] then [] else groups[0].fish + AllCards(groups[1..])
  }

  lemma {:induction false} AllCardsConcat(listed: seq<Fish>, counted: seq<Fish>, hs: seq<string>)
    ensures AllCards(GroupsFor(listed, counted, hs)) == Concat(listed, SpeciesOf, hs)
  {
    if hs != [] {
      AllCardsConcat(listed, counted, hs[1..]);
      assert GroupsFor(listed, counted, hs)[1..] == GroupsFor(listed, counted, hs[1..]);
    }
  }

  /** Every listed fish appears under exactly one header, once. */
  lemma EveryListedFishShownOnce(listed: seq<Fish>, counted: seq<Fish>)
    ensures multiset(AllCards(GroupsFor(listed, counted, Headers(listed)))) == multiset(listed)
  {
    HeadersSpec(listed);
    var hs := Headers(listed);
    forall f | f in listed ensures SpeciesOf(f) in hs {
    }
    AllCardsConcat(listed, counted, hs);
    ConcatPermutation(listed, SpeciesOf, hs);
  }

  /** No section is empty: each header names a species some listed fish has. */
  lemma NoEmptySection(listed: seq<Fish>, counted: seq<Fish>, i: nat)
    requires i < |Headers(listed)|
    ensures GroupsFor(listed, counted, Headers(listed))[i].fish != []
  {
    HeadersSpec(listed);
    var sp := Headers(listed)[i];
    GroupsForAt(listed, counted, Headers(listed), i);
    assert sp in Headers(listed);
    var f :| f in listed && f.species == sp;
    assert f in FilterKey(listed, SpeciesOf, sp);
  }

  /** The render shared by the fish-stock and fry lists: group the listed
      fish by species, sort the species, and build one section per species. */
  method RenderGroups(listed: seq<Fish>, counted: seq<Fish>) returns (groups: seq<Group>)
    ensures groups == GroupsFor(listed, counted, Headers(listed))
  {
    var grouped, order := GroupBy(listed, SpeciesOf);
    var headers := SortBy(order, StrLe);
    HeaderKeys(listed, order, grouped.Keys);
    groups := [];
    assert headers[0..] == headers;
    for i := 0 to |headers|
      invariant GroupsFor(listed, counted, headers) == groups + GroupsFor(listed, counted, headers[i..])
    {
      var sp := headers[i];
      assert sp in grouped;
      ghost var rest := headers[i..];
      assert rest[0] == sp && rest[1..] == headers[i + 1..];
      groups := groups + [Group(sp, ActiveCount(counted, sp), grouped[sp])];
    }
    assert headers[|headers|..] == [];
  }

  /** Every sorted key is a key of the grouping. */
  lemma HeaderKeys(listed: seq<Fish>, order: seq<string>, keys: set<string>)
    requires order == Distinct(Map(listed, SpeciesOf)) && keys == KeySet(listed, SpeciesOf)
    ensures forall sp :: sp in SortBy(order, StrLe) ==> sp in keys
  {
    MapKeySet(listed, SpeciesOf);
    forall sp | sp in SortBy(order, StrLe) ensures sp in keys {
      assert sp in multiset(SortBy(order, StrLe));
    }
  }

  // ---------------------------------------------------------------------
  // The status-sorted lists (fish stock, fry)

  /** The fish a list screen shows: all of them when inactive fish are shown,
      otherwise only the active ones. */
  function Shown(fish: seq<Fish>, showInactive: bool): (r: seq<Fish>)
    ensures forall f :: f in r <==> f in fish && (showInactive || IsActiveFish(f))
  {
    FilterMembers(fish, IsActiveFish);
    if showInactive then fish else Filter(fish, IsActiveFish)
  }

  /** The sections of a status-sorted list: the shown fish, active first, by
      species, each header counting the active fish of `fish`. */
  function SortedSections(fish: seq<Fish>, showInactive: bool): seq<Group> {
    var listed := SortByStatus(Shown(fish, showInactive));
    GroupsFor(listed, fish, Headers(listed))
  }

  /** Within a section of a status-sorted list the cards run active, sold,
      dead, and the fish of one status keep the order they had. */
  lemma {:induction false} SectionOrder(shown: seq<Fish>, sp: string, st: FishStatus)
    ensures SortedBy(FilterKey(SortByStatus(shown), SpeciesOf, sp), StatusLe)
    ensures Filter(FilterKey(SortByStatus(shown), SpeciesOf, sp), f => HasStatus(st, f))
         == Filter(FilterKey(shown, SpeciesOf, sp), f => HasStatus(st, f))
  {
    StatusLeTotalPreorder();
    SortBySorted(shown, StatusLe);
    FilterKeySorted(SortByStatus(shown), StatusLe, SpeciesOf, sp);
    FilterKeyStable(shown, StatusLe, SpeciesOf, sp, f => HasStatus(st, f));
  }

  /** The number beside a header is the number of active cards under it,
      whether or not inactive fish are shown. */
  lemma {:induction false} SectionCount(fish: seq<Fish>, showInactive: bool, sp: string)
    ensures ActiveCount(fish, sp) == Count(FilterKey(SortByStatus(Shown(fish, showInactive)), SpeciesOf, sp), IsActiveFish)
  {
    var shown := Shown(fish, showInactive);
    FilterKeyCountPermutation(SortByStatus(shown), shown, SpeciesOf, sp, IsActiveFish);
    if !showInactive {
      FilterKeyCountPrefiltered(fish, SpeciesOf, sp, IsActiveFish);
    }
  }

  /** A status-sorted list shows each shown fish once, under its species; the
      cards of a section run active, sold, dead; and the number beside each
      header is the number of active cards under it. */
  lemma {:induction false} SortedSectionsSpec(fish: seq<Fish>, showInactive: bool)
    ensures multiset(AllCards(SortedSections(fish, showInactive))) == multiset(Shown(fish, showInactive))
    ensures forall i :: 0 <= i < |SortedSections(fish, showInactive)| ==>
              && SortedBy(SortedSections(fish, showInactive)[i].fish, StatusLe)
              && SortedSections(fish, showInactive)[i].count == Count(SortedSections(fish, showInactive)[i].fish, IsActiveFish)
              && SortedSections(fish, showInactive)[i].fish != []
  {
    var shown := Shown(fish, showInactive);
    var listed := SortByStatus(shown);
    var gs := SortedSections(fish, showInactive);
    EveryListedFishShownOnce(listed, fish);
    forall i | 0 <= i < |gs|
      ensures SortedBy(gs[i].fish, StatusLe) && gs[i].count == Count(gs[i].fish, IsActiveFish) && gs[i].fish != []
    {
      var sp := Headers(listed)[i];
      GroupsForAt(listed, fish, Headers(listed), i);
      SectionOrder(shown, sp, Active);
      SectionCount(fish, showInactive, sp);
      NoEmptySection(listed, fish, i);
    }
  }
}
