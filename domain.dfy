/** The records the breeding app keeps: breeding pairs, fish, inventory,
    diet plans, species timelines, notifications and the activity log. */
module Domain {

  import opened Seqs

  /** The screens the app can show. */
  datatype View =
    | Dashboard | ParentStock | Fry | Breeding | FishStock | Settings
    | BreedingDetail | FishDetail | Certificates | Performance | Inventory
    | DietPlans | Finance | About

  /** The life cycle of a breeding pair. */
  datatype BreedingStatus = Paired | EggsLaid | Hatched | FryOut | Successful | Unsuccessful

  /** A stored date. Dates are whole day numbers. `Unset` is an absent or empty
      date string (falsy); `Unparsable` is a non-empty string that does not name a
      date (truthy, yet every comparison with it is false). */
  datatype Date = Unset | On(day: int) | Unparsable {
    predicate IsSet() { !Unset? }
  }

  datatype BreedingRecord = BreedingRecord(
    id: nat,
    motherId: string,
    fatherId: string,
    species: string,
    pairingDate: Date,
    eggsLaidDate: Date,
    hatchDate: Date,
    status: BreedingStatus,
    notes: string,
    fryCount: Option<int>,
    dietPlan: Option<string>)

  datatype Gender = Male | Female | UnknownGender
  datatype FishStatus = Active | Sold | Dead
  datatype Origin = Acquired | Bred

  /** A fish of the stock; the empty nickname stands for "no nickname". */
  datatype Fish = Fish(
    id: string,
    species: string,
    nickname: string,
    dob: Date,
    gender: Gender,
    status: FishStatus,
    origin: Origin,
    motherId: string,
    fatherId: string,
    saleDate: Date,
    deathDate: Date)

  datatype Category = FishFeeds | Medicines | Maintenance

  datatype InventoryItem = InventoryItem(
    id: string,
    name: string,
    category: Category,
    quantity: int,
    purchaseDate: Date)

  datatype FeedingTarget = ForParents | ForFry | ForAll

  datatype DietPlan = DietPlan(
    id: string,
    name: string,
    species: string,
    food: string,
    timesPerDay: int,
    feedingTimes: seq<string>,
    target: FeedingTarget,
    isTemporary: bool,
    endDate: Date)

  /** Day counts of a species' breeding timeline. */
  datatype SpeciesTimeline = SpeciesTimeline(
    incubationDays: int,
    saleReadyDays: int,
    breedingCooldownDays: int,
    maturityDays: int)

  type SpeciesSettings = map<string, SpeciesTimeline>

  datatype Severity = Info | Success | Warning

  /** A reminder in the notification panel (its message text is not modelled). */
  datatype Notification = Notification(
    id: string,
    severity: Severity,
    target: Option<View>,
    recordId: Option<nat>)

  datatype ActivityKind =
    | NewParentActivity | FryHatchedActivity | EggsLaidActivity | NewBreedingActivity
    | FishSoldActivity | FishDiedActivity | InventoryAddedActivity

  /** An entry of the recent-activity feed: its kind and the pair or fish it is about. */
  datatype Activity = Activity(kind: ActivityKind, subject: string)

  /** An 'Active' fish, the only kind that can be a parent. */
  predicate IsActiveFish(f: Fish) { f.status == Active }

  /** The first fish of the stock with the given id, if any. */
  function FindFish(stock: seq<Fish>, id: string): (r: Option<Fish>)
    ensures r.Some? ==> r.value in stock && r.value.id == id
    ensures r.None? <==> forall f :: f in stock ==> f.id != id
    ensures r.Some? ==> exists k :: 0 <= k < |stock| && stock[k] == r.value && forall j :: 0 <= j < k ==> stock[j].id != id
  {
    Find(stock, (f: Fish) => f.id == id)
  }

  /** The first breeding record with the given id, if any. */
  function FindRecord(records: seq<BreedingRecord>, id: nat): (r: Option<BreedingRecord>)
    ensures r.Some? ==> r.value in records && r.value.id == id
    ensures r.None? <==> forall b :: b in records ==> b.id != id
    ensures r.Some? ==> exists k :: 0 <= k < |records| && records[k] == r.value && forall j :: 0 <= j < k ==> records[j].id != id
  {
    Find(records, (b: BreedingRecord) => b.id == id)
  }

  /** The first inventory item with the given id, if any. */
  function FindItem(items: seq<InventoryItem>, id: string): (r: Option<InventoryItem>)
    ensures r.Some? ==> r.value in items && r.value.id == id
    ensures r.None? <==> forall i :: i in items ==> i.id != id
    ensures r.Some? ==> exists k :: 0 <= k < |items| && items[k] == r.value && forall j :: 0 <= j < k ==> items[j].id != id
  {
    Find(items, (i: InventoryItem) => i.id == id)
  }
}
