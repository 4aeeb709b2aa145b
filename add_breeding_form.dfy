/** The new-breeding-record form: the parent dropdowns and the submit check. */
module AddBreedingForm {

  import opened Seqs
  import opened Text
  import opened Domain

  /** The record the form hands to the save handler (id and species are
      added by the handler). */
  datatype PairingPayload = PairingPayload(
    motherId: string,
    fatherId: string,
    pairingDate: string,
    notes: string,
    status: BreedingStatus)

  datatype SubmitOutcome =
    | MissingField      // a parent or the pairing date is not chosen
    | SameFish          // mother and father are the same fish
    | Save(payload: PairingPayload)

  /** handleSubmit */
  function Submit(motherId: string, fatherId: string, pairingDate: string, notes: string): (r: SubmitOutcome)
    ensures r == MissingField <==> motherId == "" || fatherId == "" || pairingDate == ""
    ensures r == SameFish <==> motherId != "" && fatherId != "" && pairingDate != "" && motherId == fatherId
    ensures r.Save? ==> r.payload == PairingPayload(motherId, fatherId, pairingDate, notes, Paired)
    ensures r.Save? ==> r.payload.motherId != r.payload.fatherId
  {
    if motherId == "" || fatherId == "" || pairingDate == "" then MissingField
    else if motherId == fatherId then SameFish
    else Save(PairingPayload(motherId, fatherId, pairingDate, notes, Paired))
  }

  /** The text a dropdown shows and sorts by: the nickname, or else the id. */
  function OptionLabel(f: Fish): string {
    if f.nickname != "" then f.nickname else f.id
  }

  /** The drop-down order: by nickname-or-id label, with string order
      standing in for the locale's collation. */
  predicate LabelLe(a: Fish, b: Fish) {
    StrLe(OptionLabel(a), OptionLabel(b))
  }

  lemma LabelLeTotalPreorder()
    ensures TotalPreorder(LabelLe)
  {
    forall a, b ensures LabelLe(a, b) || LabelLe(b, a) {
      StrLeTotal(OptionLabel(a), OptionLabel(b));
    }
    forall a, b, c | LabelLe(a, b) && LabelLe(b, c) ensures LabelLe(a, c) {
      StrLeTransitive(OptionLabel(a), OptionLabel(b), OptionLabel(c));
    }
  }

  /** getParentOptions(gender, excludeId): the fish of that gender other than
      the excluded one, sorted by label. */
  function ParentOptions(parentStock: seq<Fish>, gender: Gender, excludeId: string): (r: seq<Fish>)
    ensures forall f :: f in r <==> f in parentStock && f.gender == gender && f.id != excludeId
    ensures multiset(r) == multiset(Filter(parentStock, (f: Fish) => f.gender == gender && f.id != excludeId))
  {
    var eligible := Filter(parentStock, (f: Fish) => f.gender == gender && f.id != excludeId);
    FilterMembers(parentStock, (f: Fish) => f.gender == gender && f.id != excludeId);
    var r := SortBy(eligible, LabelLe);
    assert forall f :: f in r <==> f in multiset(r);
    assert forall f :: f in eligible <==> f in multiset(eligible);
    r
  }

  /** The options are in label order, and each eligible fish is offered once
      for every time the stock lists it. */
  lemma ParentOptionsSorted(parentStock: seq<Fish>, gender: Gender, excludeId: string)
    ensures SortedBy(ParentOptions(parentStock, gender, excludeId), LabelLe)
  {
    LabelLeTotalPreorder();
    SortBySorted(Filter(parentStock, (f: Fish) => f.gender == gender && f.id != excludeId), LabelLe);
  }

  /** The mother list offers females other than the chosen father, and the
      father list males other than the chosen mother. */
  function MotherOptions(parentStock: seq<Fish>, fatherId: string): seq<Fish> {
    ParentOptions(parentStock, Female, fatherId)
  }

  function FatherOptions(parentStock: seq<Fish>, motherId: string): seq<Fish> {
    ParentOptions(parentStock, Male, motherId)
  }

  /** Two picks from the dropdowns are never refused as the same fish: each
      list already leaves out the other pick. */
  lemma DropdownPicksPass(parentStock: seq<Fish>, mother: Fish, father: Fish, pairingDate: string, notes: string)
    requires mother in MotherOptions(parentStock, father.id)
    requires father in FatherOptions(parentStock, mother.id)
    requires mother.id != "" && father.id != "" && pairingDate != ""
    ensures Submit(mother.id, father.id, pairingDate, notes).Save?
  {
  }
}
