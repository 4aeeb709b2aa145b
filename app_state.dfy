/** The state the App component keeps and the handlers that change it: the
    reminder tick, dismissing and clicking a reminder, breeding status
    changes, fish updates, inventory and record edits, species settings and
    the back button. */
module AppState {

  import opened Seqs
  import opened Text
  import opened Domain
  import opened Reminders
  import opened Lifecycle
  import opened Navigation
  import opened SpeciesSettingsRules

  datatype Snapshot = Snapshot(
    view: View,
    selectedBreedingId: Option<nat>,
    selectedFishId: Option<string>,
    records: seq<BreedingRecord>,
    stock: seq<Fish>,
    inventory: seq<InventoryItem>,
    dietPlans: seq<DietPlan>,
    speciesSettings: SpeciesSettings,
    notificationsEnabled: bool,
    notifications: seq<Notification>,
    dismissed: seq<string>,
    activities: seq<Activity>,
    panelOpen: bool)

  /** The breeding list, activity feed and screen after a status update. */
  method StatusStep(records: seq<BreedingRecord>, activities: seq<Activity>, stock: seq<Fish>, view: View,
                    id: nat, status: BreedingStatus, today: int)
      returns (records': seq<BreedingRecord>, activities': seq<Activity>, view': View)
    requires |activities| <= MaxActivities
    ensures |activities'| <= MaxActivities
    ensures records' == RecordsAfterStatus(records, id, status, today)
    ensures activities' == if FindRecord(records, id).Some? then LogAll(activities, StatusActivities(stock, FindRecord(records, id).value, status)) else activities
    ensures view' == if FindRecord(records, id).Some? && ClosesRecord(status) then Breeding else view
  {
    var found := FindRecord(records, id);
    records', activities', view' := records, activities, view;
    if found.Some? {
      activities' := LogAll(activities, StatusActivities(stock, found.value, status));
      records' := RecordsAfterStatus(records, id, status, today);
      if ClosesRecord(status) {
        view' := Breeding;
      }
    }
  }

  class App {
    var view: View
    var selectedBreedingId: Option<nat>
    var selectedFishId: Option<string>
    var records: seq<BreedingRecord>
    var stock: seq<Fish>
    var inventory: seq<InventoryItem>
    var dietPlans: seq<DietPlan>
    var speciesSettings: SpeciesSettings
    var notificationsEnabled: bool
    /** the live reminders shown in the panel */
    var notifications: seq<Notification>
    /** the session's dismissal ledger */
    var dismissed: seq<string>
    var activities: seq<Activity>
    var panelOpen: bool

    ghost function State(): Snapshot
      reads this
    {
      Snapshot(view, selectedBreedingId, selectedFishId, records, stock, inventory, dietPlans,
               speciesSettings, notificationsEnabled, notifications, dismissed, activities, panelOpen)
    }

    /** The feed holds at most twenty entries, the ledger names each id once,
        and no live reminder carries a dismissed id. */
    ghost predicate Valid()
      reads this
    {
      && |activities| <= MaxActivities
      && NoDup(dismissed)
      && forall n :: n in notifications ==> n.id !in dismissed
    }

    /** The state after loading: the stored collections, nothing live and
        nothing dismissed in this session. */
    constructor (records: seq<BreedingRecord>, stock: seq<Fish>, inventory: seq<InventoryItem>,
                 dietPlans: seq<DietPlan>, speciesSettings: SpeciesSettings, notificationsEnabled: bool,
                 activities: seq<Activity>)
      requires |activities| <= MaxActivities
      ensures Valid()
      ensures this.view == Dashboard && this.selectedBreedingId == None && this.selectedFishId == None
      ensures this.records == records && this.stock == stock && this.inventory == inventory
      ensures this.dietPlans == dietPlans && this.speciesSettings == speciesSettings
      ensures this.notificationsEnabled == notificationsEnabled && this.activities == activities
      ensures this.notifications == [] && this.dismissed == [] && !this.panelOpen
    {
      view := Dashboard;
      selectedBreedingId := None;
      selectedFishId := None;
      this.records := records;
      this.stock := stock;
      this.inventory := inventory;
      this.dietPlans := dietPlans;
      this.speciesSettings := speciesSettings;
      this.notificationsEnabled := notificationsEnabled;
      notifications := [];
      dismissed := [];
      this.activities := activities;
      panelOpen := false;
    }

    /** checkNotifications at day `today` and wall-clock hour:minute: with
        reminders switched off the live list is emptied; otherwise the
        candidates of the tick are appended unless their id is already live. */
    method Tick(today: int, hour: nat, minute: nat)
      requires Valid()
      modifies this
      ensures Valid()
      ensures notifications ==
                if notificationsEnabled
                then Merge(old(notifications), Candidates(records, inventory, dietPlans, speciesSettings, dismissed, today, hour, minute))
                else []
      ensures view == old(view) && selectedBreedingId == old(selectedBreedingId) && selectedFishId == old(selectedFishId)
      ensures records == old(records) && stock == old(stock) && inventory == old(inventory)
      ensures dietPlans == old(dietPlans) && speciesSettings == old(speciesSettings)
      ensures notificationsEnabled == old(notificationsEnabled) && dismissed == old(dismissed)
      ensures activities == old(activities) && panelOpen == old(panelOpen)
    {
      if !notificationsEnabled {
        notifications := [];
        return;
      }
      var recordPart := RecordReminders(records, speciesSettings, today, dismissed);
      var itemPart := StockReminders(inventory, dismissed);
      var planPart := FeedingReminders(dietPlans, ClockText(hour, minute), dismissed);
      var batch := recordPart + itemPart + planPart;
      ghost var prev := notifications;
      notifications := Merge(notifications, batch);
      CandidatesAvoidLedger(records, inventory, dietPlans, speciesSettings, dismissed, today, hour, minute);
      forall id | id in dismissed ensures id !in IdSet(notifications) {
        MergeKeepsOut(prev, batch, id);
      }
    }

    /** handleDismissNotification(id): the id joins the ledger once and every
        live reminder with that id goes. */
    method Dismiss(id: string)
      requires Valid()
      modifies this
      ensures Valid()
      ensures dismissed == RecordDismissal(old(dismissed), id)
      ensures notifications == WithoutId(old(notifications), id)
      ensures id in dismissed && id !in IdSet(notifications)
      ensures view == old(view) && selectedBreedingId == old(selectedBreedingId) && selectedFishId == old(selectedFishId)
      ensures records == old(records) && stock == old(stock) && inventory == old(inventory)
      ensures dietPlans == old(dietPlans) && speciesSettings == old(speciesSettings)
      ensures notificationsEnabled == old(notificationsEnabled)
      ensures activities == old(activities) && panelOpen == old(panelOpen)
    {
      dismissed := RecordDismissal(dismissed, id);
      notifications := WithoutId(notifications, id);
    }

    /** handleNotificationClick(n): the reminder is dismissed, the screen and
        the selected record follow its target, and the panel closes. */
    method ClickNotification(n: Notification)
      requires Valid()
      modifies this
      ensures Valid()
      ensures dismissed == RecordDismissal(old(dismissed), n.id)
      ensures notifications == WithoutId(old(notifications), n.id)
      ensures (view, selectedBreedingId) == AfterClick(n, old(view), old(selectedBreedingId))
      ensures !panelOpen
      ensures selectedFishId == old(selectedFishId)
      ensures records == old(records) && stock == old(stock) && inventory == old(inventory)
      ensures dietPlans == old(dietPlans) && speciesSettings == old(speciesSettings)
      ensures notificationsEnabled == old(notificationsEnabled) && activities == old(activities)
    {
      Dismiss(n.id);
      var target := AfterClick(n, view, selectedBreedingId);
      view := target.0;
      selectedBreedingId := target.1;
      panelOpen := false;
    }

    /** handleBack */
    method Back()
      requires Valid()
      modifies this
      ensures Valid()
      ensures view == BackTarget(old(view), stock, selectedFishId)
      ensures view != BreedingDetail && view != FishDetail
      ensures selectedBreedingId == old(selectedBreedingId) && selectedFishId == old(selectedFishId)
      ensures records == old(records) && stock == old(stock) && inventory == old(inventory)
      ensures dietPlans == old(dietPlans) && speciesSettings == old(speciesSettings)
      ensures notificationsEnabled == old(notificationsEnabled) && notifications == old(notifications)
      ensures dismissed == old(dismissed) && activities == old(activities) && panelOpen == old(panelOpen)
    {
      BackLeavesDetail(view, stock, selectedFishId);
      view := BackTarget(view, stock, selectedFishId);
    }

    /** handleUpdateBreedingStatus(id, status) on day `today`: an unknown id
        changes nothing; otherwise the record takes the status (stamping its
        lay or hatch date), 'Eggs Laid' and 'Hatched' are logged, and a
        closing status returns to the breeding list. */
    method UpdateBreedingStatus(id: nat, status: BreedingStatus, today: int)
      requires Valid()
      modifies this
      ensures Valid()
      ensures FindRecord(old(records), id).None? ==> State() == old(State())
      ensures FindRecord(old(records), id).Some? ==>
                State() == old(State()).(
                  records := RecordsAfterStatus(old(records), id, status, today),
                  activities := LogAll(old(activities), StatusActivities(old(stock), FindRecord(old(records), id).value, status)),
                  view := if ClosesRecord(status) then Breeding else old(view))
    {
      var updated, logged, target := StatusStep(records, activities, stock, view, id, status, today);
      records, activities, view := updated, logged, target;
    }

    /** handleUpdateFish(updated) on day `today`: the stored fish is replaced
        by the submitted one, stamped with its sale or death date when it has
        just been sold or has just died, and those changes are logged. */
    method UpdateFish(updated: Fish, today: int)
      requires Valid()
      modifies this
      ensures Valid()
      ensures stock == StockAfterUpdate(old(stock), updated, today)
      ensures activities == LogAll(old(activities), FishActivities(FindFish(old(stock), updated.id), updated))
      ensures view == old(view) && selectedBreedingId == old(selectedBreedingId) && selectedFishId == old(selectedFishId)
      ensures records == old(records) && inventory == old(inventory)
      ensures dietPlans == old(dietPlans) && speciesSettings == old(speciesSettings)
      ensures notificationsEnabled == old(notificationsEnabled) && notifications == old(notifications)
      ensures dismissed == old(dismissed) && panelOpen == old(panelOpen)
    {
      var prior := FindFish(stock, updated.id);
      activities := LogAll(activities, FishActivities(prior, updated));
      stock := StockAfterUpdate(stock, updated, today);
    }

    /** handleUpdateBreedingRecord(updated): every record with its id is
        replaced, the others are kept. */
    method UpdateBreedingRecord(updated: BreedingRecord)
      requires Valid()
      modifies this
      ensures Valid()
      ensures |records| == |old(records)|
      ensures forall i :: 0 <= i < |records| ==>
                records[i] == if old(records)[i].id == updated.id then updated else old(records)[i]
      ensures view == old(view) && selectedBreedingId == old(selectedBreedingId) && selectedFishId == old(selectedFishId)
      ensures stock == old(stock) && inventory == old(inventory)
      ensures dietPlans == old(dietPlans) && speciesSettings == old(speciesSettings)
      ensures notificationsEnabled == old(notificationsEnabled) && notifications == old(notifications)
      ensures dismissed == old(dismissed) && activities == old(activities) && panelOpen == old(panelOpen)
    {
      records := ReplaceWhere(records, (b: BreedingRecord) => b.id == updated.id, updated);
    }

    /** handleUpdateInventoryItem(item): every item with its id is replaced,
        the others are kept. */
    method UpdateInventoryItem(item: InventoryItem)
      requires Valid()
      modifies this
      ensures Valid()
      ensures |inventory| == |old(inventory)|
      ensures forall i :: 0 <= i < |inventory| ==>
                inventory[i] == if old(inventory)[i].id == item.id then item else old(inventory)[i]
      ensures view == old(view) && selectedBreedingId == old(selectedBreedingId) && selectedFishId == old(selectedFishId)
      ensures records == old(records) && stock == old(stock)
      ensures dietPlans == old(dietPlans) && speciesSettings == old(speciesSettings)
      ensures notificationsEnabled == old(notificationsEnabled) && notifications == old(notifications)
      ensures dismissed == old(dismissed) && activities == old(activities) && panelOpen == old(panelOpen)
    {
      inventory := ReplaceWhere(inventory, (i: InventoryItem) => i.id == item.id, item);
    }

    /** handleSaveSpeciesSettings(species, timeline): the timeline is stored
        under the trimmed name unless the outcome is a refusal, which leaves
        the settings as they were. */
    method SaveSpeciesSettings(species: string, timeline: SpeciesTimeline) returns (outcome: SaveOutcome)
      requires Valid()
      modifies this
      ensures Valid()
      ensures outcome == SaveSpecies(old(speciesSettings), stock, species, timeline)
      ensures speciesSettings == if outcome.Saved? then outcome.settings else old(speciesSettings)
      ensures view == old(view) && selectedBreedingId == old(selectedBreedingId) && selectedFishId == old(selectedFishId)
      ensures records == old(records) && stock == old(stock) && inventory == old(inventory)
      ensures dietPlans == old(dietPlans)
      ensures notificationsEnabled == old(notificationsEnabled) && notifications == old(notifications)
      ensures dismissed == old(dismissed) && activities == old(activities) && panelOpen == old(panelOpen)
    {
      outcome := SaveSpecies(speciesSettings, stock, species, timeline);
      if outcome.Saved? {
        speciesSettings := outcome.settings;
      }
    }

    /** handleToggleNotifications(enabled) */
    method ToggleNotifications(enabled: bool)
      requires Valid()
      modifies this
      ensures Valid()
      ensures notificationsEnabled == enabled
      ensures view == old(view) && selectedBreedingId == old(selectedBreedingId) && selectedFishId == old(selectedFishId)
      ensures records == old(records) && stock == old(stock) && inventory == old(inventory)
      ensures dietPlans == old(dietPlans) && speciesSettings == old(speciesSettings)
      ensures notifications == old(notifications)
      ensures dismissed == old(dismissed) && activities == old(activities) && panelOpen == old(panelOpen)
    {
      notificationsEnabled := enabled;
    }
  }

  /** The breedingRecords.forEach pass of a tick: per record, a hatch reminder
      once the incubation days have passed since the lay date and a sale
      reminder once the sale-ready days have passed since the hatch date,
      each unless dismissed. */
  method RecordReminders(records: seq<BreedingRecord>, speciesSettings: SpeciesSettings, today: int, dismissed: seq<string>)
    returns (incoming: seq<Notification>)
    ensures incoming == RecordCandidates(records, speciesSettings, today, dismissed)
  {
    incoming := [];
    for i := 0 to |records|
      invariant incoming == RecordCandidates(records[..i], speciesSettings, today, dismissed)
    {
      var r := records[i];
      var timeline := TimelineFor(speciesSettings, r.species);
      if r.status == EggsLaid && r.eggsLaidDate.IsSet() {
        if Reached(r.eggsLaidDate, timeline.incubationDays, today) && HatchId(r.id) !in dismissed {
          incoming := incoming + [HatchNotice(r)];
        }
      }
      if (r.status == Hatched || r.status == FryOut || r.status == Successful) && r.hatchDate.IsSet() {
        if Reached(r.hatchDate, timeline.saleReadyDays, today) && SaleId(r.id) !in dismissed {
          incoming := incoming + [SaleNotice(r)];
        }
      }
      assert records[..i + 1][..i] == records[..i];
    }
    assert records[..|records|] == records;
  }

  /** The inventory.forEach pass: an out-of-stock reminder for every item
      with no quantity left, unless dismissed. */
  method StockReminders(inventory: seq<InventoryItem>, dismissed: seq<string>) returns (incoming: seq<Notification>)
    ensures incoming == ItemCandidates(inventory, dismissed)
  {
    incoming := [];
    for i := 0 to |inventory|
      invariant incoming == ItemCandidates(inventory[..i], dismissed)
    {
      var item := inventory[i];
      if item.quantity <= 0 && StockId(item.id) !in dismissed {
        incoming := incoming + [StockNotice(item)];
      }
      assert inventory[..i + 1][..i] == inventory[..i];
    }
    assert inventory[..|inventory|] == inventory;
  }

  /** The dietPlans.forEach pass: a feeding reminder for every plan that
      lists the current clock text, unless dismissed. */
  method FeedingReminders(dietPlans: seq<DietPlan>, time: string, dismissed: seq<string>) returns (incoming: seq<Notification>)
    ensures incoming == PlanCandidates(dietPlans, time, dismissed)
  {
    incoming := [];
    for i := 0 to |dietPlans|
      invariant incoming == PlanCandidates(dietPlans[..i], time, dismissed)
    {
      var plan := dietPlans[i];
      if time in plan.feedingTimes && DietId(plan.id, time) !in dismissed {
        incoming := incoming + [DietNotice(plan, time)];
      }
      assert dietPlans[..i + 1][..i] == dietPlans[..i];
    }
    assert dietPlans[..|dietPlans|] == dietPlans;
  }
}
