/** The breeding record screen: which status buttons it offers, and saving
    the fry diet text. */
module BreedingDetailView {

  import opened Seqs
  import opened Domain

  /** 'Successful' and 'Unsuccessful' end a record. */
  predicate IsFinished(s: BreedingStatus) {
    s == Successful || s == Unsuccessful
  }

  /** Position of a status on the way to the end of a record; both ending
      statuses lie past every ongoing one. */
  function StageRank(s: BreedingStatus): nat {
    match s
    case Paired => 0
    case EggsLaid => 1
    case Hatched => 2
    case FryOut => 3
    case Successful => 4
    case Unsuccessful => 4
  }

  /** The status progression map: Paired, Eggs Laid, Hatched, Fry Out,
      Successful; the ending statuses have no next status. */
  function NextStatus(s: BreedingStatus): (r: Option<BreedingStatus>)
    ensures r.None? <==> IsFinished(s)
    ensures r.Some? ==> StageRank(r.value) == StageRank(s) + 1 && r.value != Unsuccessful
  {
    match s
    case Paired => Some(EggsLaid)
    case EggsLaid => Some(Hatched)
    case Hatched => Some(FryOut)
    case FryOut => Some(Successful)
    case Successful => None
    case Unsuccessful => None
  }

  /** A button on the screen: adding the fry of a successful pair to the
      stock, or marking the record with a status. */
  datatype Action = AddFry | MarkAs(status: BreedingStatus)

  /** The buttons shown for a record in status s, top to bottom. */
  function Actions(s: BreedingStatus): (r: seq<Action>)
    ensures AddFry in r <==> s == Successful
    ensures forall t :: MarkAs(t) in r <==> !IsFinished(s) && (NextStatus(s) == Some(t) || IsFinished(t))
  {
    (if s == Successful then [AddFry] else [])
    + (if IsFinished(s) then []
       else (match NextStatus(s) case Some(t) => [MarkAs(t)] case None => [])
            + [MarkAs(Successful), MarkAs(Unsuccessful)])
  }

  /** Every status the screen offers lies strictly further along than the
      current one, so a record reaches an ending status after at most four
      presses and is never moved back. */
  lemma OfferedStatusesAdvance(s: BreedingStatus, t: BreedingStatus)
    requires MarkAs(t) in Actions(s)
    ensures StageRank(s) < StageRank(t)
  {
  }

  /** Following "Mark as <next>" from 'Paired' passes every ongoing status
      and ends at 'Successful'. */
  lemma ProgressionFromPaired()
    ensures NextStatus(Paired) == Some(EggsLaid)
    ensures NextStatus(EggsLaid) == Some(Hatched)
    ensures NextStatus(Hatched) == Some(FryOut)
    ensures NextStatus(FryOut) == Some(Successful)
    ensures IsFinished(Successful)
  {
  }

  /** The diet text the editor opens with: the stored plan, or nothing. */
  function InitialDiet(record: BreedingRecord): (r: string)
    ensures record.dietPlan.Some? ==> r == record.dietPlan.value
    ensures record.dietPlan.None? ==> r == ""
  {
    match record.dietPlan
    case Some(d) => d
    case None => ""
  }

  /** handleSaveDiet: the record with the edited text as its diet plan and
      every other field as it was. */
  function SaveDiet(record: BreedingRecord, text: string): (r: BreedingRecord)
    ensures r.dietPlan == Some(text)
    ensures r.(dietPlan := record.dietPlan) == record
  {
    record.(dietPlan := Some(text))
  }

  /** Saving without editing keeps a stored plan; a record without one gets
      the empty text. */
  lemma SaveUneditedDiet(record: BreedingRecord)
    ensures record.dietPlan.Some? ==> SaveDiet(record, InitialDiet(record)) == record
    ensures record.dietPlan.None? ==> SaveDiet(record, InitialDiet(record)).dietPlan == Some("")
  {
  }
}
