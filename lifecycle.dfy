/** How a breeding record moves through its statuses, how a fish's sale and
    death dates are stamped, and the recent-activity feed these changes feed. */
module Lifecycle {

  import opened Seqs
  import opened Domain

  // ---------------------------------------------------------------------
  // Labels

  /** A parent as the pair label shows it: its nickname, or its id when the
      fish is unknown or has no nickname. */
  function ParentLabel(stock: seq<Fish>, id: string): string {
    match FindFish(stock, id)
    case Some(f) => if f.nickname != "" then f.nickname else id
    case None => id
  }

  /** "mother x father" */
  function PairLabel(stock: seq<Fish>, r: BreedingRecord): string {
    ParentLabel(stock, r.motherId) + " x " + ParentLabel(stock, r.fatherId)
  }

  /** A fish as the activity feed names it: its nickname, or else its id. */
  function FishLabel(f: Fish): string {
    if f.nickname != "" then f.nickname else f.id
  }

  // ---------------------------------------------------------------------
  // Activity feed

  /** The feed keeps the twenty most recent entries. */
  const MaxActivities := 20

  /** The feed with a new entry in front, cut back to its twenty newest entries. */
  function LogActivity(feed: seq<Activity>, entry: Activity): (r: seq<Activity>)
    ensures |r| == if |feed| < MaxActivities then |feed| + 1 else MaxActivities
    ensures r[0] == entry
    ensures r[1..] == feed[..|r| - 1]
  {
    var l := [entry] + feed;
    if |l| > MaxActivities then l[..MaxActivities] else l
  }

  /** Logging several entries, newest last, one after the other. */
  function LogAll(feed: seq<Activity>, entries: seq<Activity>): (r: seq<Activity>)
    ensures |feed| <= MaxActivities ==> |r| <= MaxActivities
    decreases |entries|
  {
    if entries == [] then feed else LogAll(LogActivity(feed, entries[0]), entries[1..])
  }

  // ---------------------------------------------------------------------
  // Breeding status

  /** { ...rec, status }, stamping the lay date on 'Eggs Laid' and the hatch
      date on 'Hatched' with today when that date is still unset. */
  function ApplyStatus(rec: BreedingRecord, status: BreedingStatus, today: int): (r: BreedingRecord)
    ensures r.status == status
    ensures rec.eggsLaidDate.IsSet() || status != EggsLaid ==> r.eggsLaidDate == rec.eggsLaidDate
    ensures status == EggsLaid && !rec.eggsLaidDate.IsSet() ==> r.eggsLaidDate == On(today)
    ensures rec.hatchDate.IsSet() || status != Hatched ==> r.hatchDate == rec.hatchDate
    ensures status == Hatched && !rec.hatchDate.IsSet() ==> r.hatchDate == On(today)
    ensures r.(status := rec.status, eggsLaidDate := rec.eggsLaidDate, hatchDate := rec.hatchDate) == rec
  {
    var u := rec.(status := status);
    var u := if status == EggsLaid && !u.eggsLaidDate.IsSet() then u.(eggsLaidDate := On(today)) else u;
    if status == Hatched && !u.hatchDate.IsSet() then u.(hatchDate := On(today)) else u
  }

  /** Setting the same status again, on any later day, changes nothing: a
      stamped date is never overwritten. */
  lemma ApplyStatusStampsOnce(rec: BreedingRecord, status: BreedingStatus, day1: int, day2: int)
    ensures ApplyStatus(ApplyStatus(rec, status, day1), status, day2) == ApplyStatus(rec, status, day1)
  {
  }

  /** The activities a status change logs: 'Eggs Laid' and 'Hatched' each
      log one entry naming the pair; no other status logs anything. */
  function StatusActivities(stock: seq<Fish>, rec: BreedingRecord, status: BreedingStatus): (r: seq<Activity>)
    ensures r != [] <==> status == EggsLaid || status == Hatched
    ensures status == EggsLaid ==> r == [Activity(EggsLaidActivity, PairLabel(stock, rec))]
    ensures status == Hatched ==> r == [Activity(FryHatchedActivity, PairLabel(stock, rec))]
  {
    if status == EggsLaid then [Activity(EggsLaidActivity, PairLabel(stock, rec))]
    else if status == Hatched then [Activity(FryHatchedActivity, PairLabel(stock, rec))]
    else []
  }

  /** The breeding list after handleUpdateBreedingStatus(id, status): nothing
      changes when no record has that id; otherwise every record with that id
      becomes the first such record with the status applied, and every other
      record is untouched. */
  function RecordsAfterStatus(records: seq<BreedingRecord>, id: nat, status: BreedingStatus, today: int): (r: seq<BreedingRecord>)
    ensures |r| == |records|
    ensures FindRecord(records, id).None? ==> r == records
    ensures forall i :: 0 <= i < |records| && records[i].id != id ==> r[i] == records[i]
    ensures forall i :: 0 <= i < |records| && records[i].id == id ==>
              r[i] == ApplyStatus(FindRecord(records, id).value, status, today)
  {
    match FindRecord(records, id)
    case None => records
    case Some(rec) => ReplaceWhere(records, (b: BreedingRecord) => b.id == id, ApplyStatus(rec, status, today))
  }

  /** A second identical status update leaves the list as the first left it. */
  lemma RecordsAfterStatusTwice(records: seq<BreedingRecord>, id: nat, status: BreedingStatus, day1: int, day2: int)
    ensures RecordsAfterStatus(RecordsAfterStatus(records, id, status, day1), id, status, day2)
            == RecordsAfterStatus(records, id, status, day1)
  {
    var once := RecordsAfterStatus(records, id, status, day1);
    var twice := RecordsAfterStatus(once, id, status, day2);
    match FindRecord(records, id)
    case None =>
    case Some(rec) =>
      var u := ApplyStatus(rec, status, day1);
      var k := IndexOf(records, rec);
      assert once[k] == u;
      assert FindRecord(once, id).Some?;
      var first := FindRecord(once, id).value;
      assert first == u;
      ApplyStatusStampsOnce(rec, status, day1, day2);
      forall i | 0 <= i < |once| ensures twice[i] == once[i] {
      }
      assert twice == once;
  }

  /** The status changes that leave the detail view for the breeding list. */
  predicate ClosesRecord(status: BreedingStatus) {
    status == Successful || status == Unsuccessful
  }

  // ---------------------------------------------------------------------
  // Fish sale and death

  /** The fish goes from some other status to 'Sold' in this update. */
  predicate BecomesSold(prior: Option<Fish>, updated: Fish) {
    prior.Some? && updated.status == Sold && prior.value.status != Sold
  }

  /** The fish goes from some other status to 'Dead' in this update. */
  predicate BecomesDead(prior: Option<Fish>, updated: Fish) {
    prior.Some? && updated.status == Dead && prior.value.status != Dead
  }

  /** The fish handleUpdateFish stores: the submitted fish, with today as its
      sale date when it has just been sold and as its death date when it has
      just died; a fish not yet in the stock is stored as submitted. */
  function StampFish(prior: Option<Fish>, updated: Fish, today: int): (r: Fish)
    ensures r.(saleDate := updated.saleDate, deathDate := updated.deathDate) == updated
    ensures r.saleDate == if BecomesSold(prior, updated) then On(today) else updated.saleDate
    ensures r.deathDate == if BecomesDead(prior, updated) then On(today) else updated.deathDate
  {
    var f := if BecomesSold(prior, updated) then updated.(saleDate := On(today)) else updated;
    if BecomesDead(prior, updated) then f.(deathDate := On(today)) else f
  }

  /** The activities handleUpdateFish logs, in order. */
  function FishActivities(prior: Option<Fish>, updated: Fish): (r: seq<Activity>)
    ensures |r| <= 1
    ensures r == [] <==> !BecomesSold(prior, updated) && !BecomesDead(prior, updated)
    ensures BecomesSold(prior, updated) <==> Activity(FishSoldActivity, FishLabel(updated)) in r
    ensures BecomesDead(prior, updated) <==> Activity(FishDiedActivity, FishLabel(updated)) in r
  {
    (if BecomesSold(prior, updated) then [Activity(FishSoldActivity, FishLabel(updated))] else [])
    + (if BecomesDead(prior, updated) then [Activity(FishDiedActivity, FishLabel(updated))] else [])
  }

  /** The stock after handleUpdateFish(updated): each fish with the submitted
      id is replaced by the stamped fish, the others are untouched, and a fish
      whose id is not in the stock changes nothing. */
  function StockAfterUpdate(stock: seq<Fish>, updated: Fish, today: int): (r: seq<Fish>)
    ensures |r| == |stock|
    ensures forall i :: 0 <= i < |stock| && stock[i].id != updated.id ==> r[i] == stock[i]
    ensures forall i :: 0 <= i < |stock| && stock[i].id == updated.id ==>
              r[i] == StampFish(FindFish(stock, updated.id), updated, today)
  {
    ReplaceWhere(stock, (f: Fish) => f.id == updated.id, StampFish(FindFish(stock, updated.id), updated, today))
  }

  /** An update for an id the stock does not hold leaves the stock as it was. */
  lemma StockAfterUpdateUnknown(stock: seq<Fish>, updated: Fish, today: int)
    requires FindFish(stock, updated.id).None?
    ensures StockAfterUpdate(stock, updated, today) == stock
  {
    ReplaceNowhere(stock, (f: Fish) => f.id == updated.id, StampFish(None, updated, today));
  }

  /** Saving an already sold fish again keeps the sale date it carries. */
  lemma ResaveKeepsSaleDate(stock: seq<Fish>, updated: Fish, today: int)
    requires FindFish(stock, updated.id).Some? && FindFish(stock, updated.id).value.status == Sold
    ensures StampFish(FindFish(stock, updated.id), updated, today).saleDate == updated.saleDate
  {
  }
}
