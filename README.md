# Aqua-Breed-x: breeding lifecycle, reminders and stock screens in Dafny

Aqua-Breed-x is a single-page app that helps a fish breeder run a hatchery:
parent stock, breeding pairs, fry, inventory and diet plans. This project
models the parts of it that carry its rules and proves properties about
them.

- **Lifecycle.** A breeding record moves through the statuses Paired,
  Eggs Laid, Hatched, Fry Out and then Successful (or is closed as
  Unsuccessful). Its lay and hatch dates are stamped once. A fish's sale and
  death dates are stamped when its status changes. Every such change goes to
  a recent-activity feed that holds twenty entries.
- **Reminders.** Each minute the app computes reminders:
  - hatch-due, from the lay date plus the species' incubation days;
  - sale-ready, from the hatch date plus the sale-ready days;
  - out-of-stock items;
  - feeding times of diet plans.

  Ids the user dismissed in the session are dropped, and only ids not
  already live are appended to the live list. Dismissing a reminder records
  its id once and removes it from the list.
- **Smaller rules of the same screen.** These are:
  - the back button;
  - opening a clicked reminder;
  - the validation when a species timeline is saved;
  - the feeding-time rows of the diet-plan form;
  - the dashboard counts;
  - the "5m ago" age labels.
- **The list screens.** These are:
  - the breeding detail screen's next-status button and actions;
  - the inventory screen's clamped quantity buttons and its three fixed
    category sections;
  - the fish stock, fry and parent stock screens: filter, stable sort by
    status, group by species under sorted headers, count per header;
  - the new-pair form's validation and parent drop-downs;
  - the performance screen's date-range filter and bar counts.

Modelling choices:
- **State.** App.tsx keeps its state in React hooks. It becomes the class
  `AppState.App`, with one field per piece of state the modelled handlers
  read or write. The session's dismissal ledger is the field `dismissed`.
- **Handlers and loops.** Each handler is a method that states its complete
  new state. The `forEach`/`push` loops of the reminder tick are imperative
  methods, proved equal to the specification functions of the `Reminders`
  module. The grouping `reduce` of the list screens is the loop of
  `Seqs.GroupBy`, proved equal to a filter per key.
- **Dates and clock.** Dates are whole day numbers (`Domain.Date`). An
  absent or empty date string is `Unset`. An unparsable one is
  `Unparsable`: truthy, yet never in any range. The clock is passed in as
  parameters: `today`, the wall-clock `hour:minute`, and the moment `now`
  in milliseconds.
- **Sorting.** Array sorting is stable insertion sort, `Seqs.SortBy`.
  `localeCompare` and the default sort of strings are both lexicographic
  order on characters (`Text.StrLe`).

Two behaviours of the code are modelled as written:
- **Saving a stock-only species is refused.** Saving a timeline for a
  species that appears in the stock but has no timeline yet is always
  refused as "already exists" (`SpeciesSettingsRules.StockOnlySpeciesRefused`).
- **Case variants add a second key.** The timeline is stored under the name
  as typed. Editing 'guppy' when the key is 'Guppy' therefore adds a second
  key (`SpeciesSettingsRules.CaseVariantAddsKey`).

## Model

| member | source | states |
|---|---|---|
| Text.DigitChar | App.tsx:490 | a digit below ten is one of the characters '0'..'9' |
| Text.NatText | App.tsx:490 | the decimal text of a number is a non-empty run of digits, one digit exactly for numbers below ten |
| Text.NatTextInjective | App.tsx:490 | different record ids have different decimal texts |
| Text.Pad2 | App.tsx:514 | padStart(2, '0') of a number below 100 has two characters |
| Text.Pad2Leading | App.tsx:514 | the padded text starts with '0' exactly for one-digit numbers, followed by that digit |
| Text.Pad2Injective | App.tsx:514 | different hours (or minutes) pad to different texts |
| Text.ClockText | App.tsx:514 | the current time text is five characters with ':' in the middle |
| Text.ClockTextInjective | App.tsx:513-517 | two different times of day never share an HH:MM text, so a plan's feeding id names one minute |
| Text.StrLeTotal | components/AddBreedingForm.tsx:40 | any two strings are comparable in the string order |
| Text.StrLeTransitive | components/AddBreedingForm.tsx:40 | the string order is transitive |
| Text.StrLeAntisymmetric | components/FishStockView.tsx:33 | two strings ordered both ways are equal |
| Text.StrLeTotalPreorder | components/FishStockView.tsx:33 | the string order is a total preorder, a well-behaved comparator for the sort |
| Text.TrimStart | App.tsx:554 | the result is a suffix of the input, all it dropped is blank, and it starts with a non-blank |
| Text.TrimEnd | App.tsx:554 | the result is a prefix of the input, all it dropped is blank, and it ends with a non-blank |
| Text.Trim | App.tsx:554 | the trimmed name is the input with a blank-only prefix and a blank-only suffix cut off; it starts and ends with a non-blank, and is empty exactly when the input is all blanks |
| Text.LowerChar | App.tsx:560 | an upper-case ASCII letter becomes the letter 32 code points above it, and every other character is kept |
| Text.Lower | App.tsx:560 | lower-casing keeps the length, lowers each character and leaves no upper-case letter |
| Text.SameIgnoringCaseIff | App.tsx:560 | two names match ignoring case exactly when they have equal length and at each index the same character or the two cases of one letter |
| Text.LowerIdempotent | App.tsx:560 | lower-casing a lowered name changes nothing |
| Text.LowerKeepsLowerCase | App.tsx:560 | a name without upper-case letters is its own lower-case form |
| Seqs.SortBy | components/FishStockView.tsx:25 | `[...xs].sort(cmp)` returns a permutation of its input |
| Seqs.SortBySorted | components/FishStockView.tsx:25 | with a total-preorder comparator the sort returns an ordered permutation |
| Seqs.SortByStable | components/FishStockView.tsx:25 | the sort is stable: mutually equal elements keep their input order |
| Seqs.GroupBy | components/InventoryView.tsx:82-85 | the grouping reduce gives each key present, and only those, the elements of that key in input order, and lists the keys in first-seen order |
| Domain.FindFish | App.tsx:721 | find by id returns the first fish of the stock with that id, and none exactly when no fish has it |
| Domain.FindRecord | App.tsx:632-633 | find by id returns the first record with that id, and none exactly when no record has it |
| Domain.FindItem | components/InventoryView.tsx:75-76 | find by id returns the first item with that id, and none exactly when no item has it |
| Reminders.HatchId | App.tsx:490 | the hatch reminder id is 'hatch-' followed by the record id's decimal text |
| Reminders.SaleId | App.tsx:499 | the sale reminder id is 'sale-' followed by the record id's decimal text |
| Reminders.StockId | App.tsx:507 | the stock reminder id is 'stock-' followed by the item id |
| Reminders.DietId | App.tsx:517 | the feeding reminder id is 'diet-', the plan id, '-' and the time |
| Reminders.HatchIdInjective | App.tsx:490 | two records with different ids never share a hatch reminder id |
| Reminders.SaleIdInjective | App.tsx:499 | two records with different ids never share a sale reminder id |
| Reminders.DietIdInjective | App.tsx:517 | a feeding id with a time of fixed length determines both plan id and time |
| Reminders.PlanEvents | App.tsx:515-521 | a plan yields at most one feeding reminder per tick |
| Reminders.RecordCandidatesMembers | App.tsx:481-504 | a reminder is a record candidate exactly when it is an event of some record |
| Reminders.ItemCandidatesMembers | App.tsx:506-511 | a reminder is a stock candidate exactly when it is an event of some item |
| Reminders.PlanCandidatesMembers | App.tsx:515-522 | a reminder is a feeding candidate exactly when it is an event of some plan |
| Reminders.RecordSource | App.tsx:481-504 | every record candidate is undismissed and is the hatch reminder of a hatch-due record or the sale reminder of a sale-due one |
| Reminders.ItemSource | App.tsx:506-511 | every stock candidate is the undismissed reminder of an item with quantity at most 0 |
| Reminders.PlanSource | App.tsx:513-522 | every feeding candidate is the undismissed reminder of a plan whose feeding times hold the current time |
| Reminders.RecordCandidatePrefix | App.tsx:490-499 | record candidates have 'hatch-' or 'sale-' ids |
| Reminders.ItemCandidatePrefix | App.tsx:507 | stock candidates have 'st…' ids, apart from every record and feeding id |
| Reminders.PlanCandidatePrefix | App.tsx:517 | feeding candidates have 'd…' ids |
| Reminders.HatchReminderIff | App.tsx:485-494 | a tick offers 'hatch-k' exactly when it is undismissed and a record k is 'Eggs Laid' with a set lay date and today at or past lay date plus incubation days (the species' or the default 3); it is an info reminder opening record k |
| Reminders.SaleReminderIff | App.tsx:485-503 | a tick offers 'sale-k' exactly when it is undismissed and a record k is 'Hatched', 'Fry Out' or 'Successful' with a set hatch date and today at or past hatch date plus sale-ready days (the species' or the default 30); it is a success reminder opening record k |
| Reminders.StockReminderIff | App.tsx:506-511 | a tick offers 'stock-x' exactly when it is undismissed and an item x has quantity at most 0; it is a warning opening the inventory with no record |
| Reminders.DietReminderIff | App.tsx:513-522 | a tick offers 'diet-p-HH:MM' exactly when HH:MM is the zero-padded current time, it is undismissed, and plan p lists that time |
| Reminders.PlanCandidatesAtMostOnePerPlan | App.tsx:515-522 | a tick yields no more feeding reminders than there are plans |
| Reminders.HatchThresholdExample | App.tsx:485-491 | eggs laid on day 10 with the default incubation give no hatch reminder on day 12 and one on day 13 |
| Reminders.Merge | App.tsx:524-528 | the previous live list stays an unchanged prefix, and what follows is the candidates whose id was not live, each once and in candidate order, so the list grows by their number |
| Reminders.MergeIdempotent | App.tsx:524-528 | merging the same candidates a second time changes nothing |
| Reminders.MergeKeepsOut | App.tsx:524-528 | an id in neither the live list nor the candidates is not live after the merge |
| Reminders.RecordDismissal | App.tsx:587-590 | the ledger gains exactly the dismissed id and keeps having no duplicates |
| Reminders.DismissIdempotent | App.tsx:588-590 | dismissing the same id twice records it once |
| Reminders.WithoutId | App.tsx:591 | the live list keeps exactly the reminders with other ids |
| Reminders.WithoutIdAppend | App.tsx:591 | removing an id works section by section, so the others keep their order |
| Reminders.WithoutIdAbsent | App.tsx:591 | removing an id that is not live changes nothing |
| Reminders.CandidatesAvoidLedger | App.tsx:479-522 | no candidate of a tick carries a dismissed id |
| Reminders.DismissedStaysAway | App.tsx:479-528 | a dismissed id that is not live stays off the live list after any later tick |
| Lifecycle.LogActivity | App.tsx:542 | a new entry goes to the front of the feed, which keeps at most twenty entries, dropping the oldest |
| Lifecycle.LogAll | App.tsx:535-546 | logging any entries keeps the feed within twenty entries |
| Lifecycle.ApplyStatus | App.tsx:649-651 | the record takes the new status; the lay date is stamped with today only on 'Eggs Laid' and only when unset, the hatch date likewise on 'Hatched'; no other field changes |
| Lifecycle.ApplyStatusStampsOnce | App.tsx:650-651 | setting the same status again on a later day overwrites no stamped date |
| Lifecycle.StatusActivities | App.tsx:635-646 | 'Eggs Laid' logs exactly one eggs-laid entry naming the pair, 'Hatched' exactly one fry-hatched entry naming the pair; every other status logs nothing |
| Lifecycle.RecordsAfterStatus | App.tsx:630-653 | an unknown id leaves the list as it was; otherwise every record with the id becomes the found record with the status applied, and all others are untouched |
| Lifecycle.RecordsAfterStatusTwice | App.tsx:649-653 | a second identical status update leaves the list as the first left it |
| Lifecycle.StampFish | App.tsx:720-741 | the stored fish is the submitted fish, with today as sale date when it has just become 'Sold' and as death date when it has just become 'Dead' |
| Lifecycle.FishActivities | App.tsx:724-741 | a sale is logged exactly when the fish has just been sold and a death exactly when it has just died; any other edit logs nothing |
| Lifecycle.StockAfterUpdate | App.tsx:743 | the fish with the submitted id are replaced by the stamped fish and all others are untouched |
| Lifecycle.StockAfterUpdateUnknown | App.tsx:721-743 | an update for an id not in the stock leaves the stock as it was |
| Lifecycle.ResaveKeepsSaleDate | App.tsx:725-726 | saving an already sold fish again keeps the sale date it carries |
| Navigation.BackTarget | App.tsx:610-618 | back from a record goes to the breeding list; back from a fish goes to the fry list exactly when the selected fish exists and was bred here, else to the stock list; back from anywhere else goes to the dashboard |
| Navigation.BackLeavesDetail | App.tsx:610-618 | back never lands on a detail screen, and two steps back always reach the dashboard |
| Navigation.AfterClick | App.tsx:596-601 | a reminder with a target switches to it; the selected record becomes the reminder's record exactly for a target with a non-zero record id and stays otherwise; no target changes nothing |
| SpeciesSettingsRules.SaveSpecies | App.tsx:553-569 | an all-blank name is refused; a trimmed name that no key matches ignoring case, but a fish's species does, is refused as existing; otherwise the timeline is stored under the trimmed name |
| SpeciesSettingsRules.SavedTimelineStored | App.tsx:569 | after a save the trimmed name maps to the new timeline and every other key keeps its timeline |
| SpeciesSettingsRules.StockOnlySpeciesRefused | App.tsx:560-566 | a species only the stock knows is always refused, even from its own settings button |
| SpeciesSettingsRules.CaseVariantAddsKey | App.tsx:560-569 | a case variant of an existing key is saved under a second key beside the first |
| DietPlanForm.ChangeTime | App.tsx:183-187 | editing a feeding time changes that row only |
| DietPlanForm.AddTime | App.tsx:189 | adding a time appends one empty row |
| DietPlanForm.RemoveTime | App.tsx:190-194 | removing deletes exactly the given row, and never the last remaining row |
| DietPlanForm.EditsKeepARow | App.tsx:189-194 | no sequence of row edits empties a non-empty list |
| DietPlanForm.SubmitPlan | App.tsx:196-211 | submission is refused exactly when name, species or food is empty or a time is blank; else the plan carries the fields, the times and their count |
| DietPlanForm.SubmittedPlanHasATime | App.tsx:189-211 | a submitted plan has at least one feeding time and times-per-day equal to their number |
| DashboardStats.OngoingByStatus | App.tsx:927-928 | the ongoing card's count is the number of pairs at Paired, Eggs Laid, Hatched and Fry Out, summed |
| DashboardStats.EggsLaidByStatus | App.tsx:929-930 | the eggs-laid card's count is the number of pairs at Eggs Laid, Hatched, Fry Out and Successful, summed |
| DashboardStats.FryOutByStatus | App.tsx:931-932 | the fry-out card's count is the number of pairs at Fry Out and Successful, summed |
| DashboardStats.Summarize | App.tsx:927-935 | the ongoing card counts pairs at Paired, Eggs Laid, Hatched or Fry Out; the eggs-laid card those at Eggs Laid, Hatched, Fry Out or Successful; the fry-out card those at Fry Out or Successful; the outcome cards the pairs with that outcome; the parent card the active fish |
| DashboardStats.SummaryConsistent | App.tsx:927-935 | ongoing, successful and unsuccessful pairs add up to all pairs; successful ≤ fry out ≤ eggs laid ≤ all pairs; active fish ≤ stock |
| DashboardStats.FormatTimeAgo | App.tsx:888-902 | 'Just now' exactly below a minute; otherwise the label's unit is the largest of minute, hour, day, 30-day month and 12-month year that fits, and its number is the whole number of units elapsed |
| DashboardStats.FormatTimeAgoMonotone | App.tsx:888-902 | an older timestamp never gets a smaller unit than a newer one |
| AppState.StatusStep | App.tsx:630-656 | the breeding list, feed and screen after a status change, each as the lifecycle functions define them, with the feed bound kept |
| AppState.App.constructor | App.tsx:386-407 | the app opens on the dashboard with nothing selected, no live reminders, an empty ledger and the panel closed, holding the loaded collections |
| AppState.App.Tick | App.tsx:470-529 | with reminders off the live list is emptied; otherwise it becomes the merge of the old list and the tick's candidates; nothing else changes and no dismissed id goes live |
| AppState.App.Dismiss | App.tsx:586-592 | the ledger records the id, the live list loses it, nothing else changes |
| AppState.App.ClickNotification | App.tsx:594-603 | dismisses the reminder, moves screen and selection as the reminder says, closes the panel |
| AppState.App.Back | App.tsx:610-618 | the screen moves to the back target, never a detail screen; nothing else changes; the app invariant is kept |
| AppState.App.UpdateBreedingStatus | App.tsx:630-656 | an unknown id changes nothing; otherwise the list takes the status update, the feed logs its entries, and a closing status returns to the breeding list; nothing else changes |
| AppState.App.UpdateFish | App.tsx:720-745 | the stock takes the stamped fish and the feed the sale or death entries; nothing else changes |
| AppState.App.UpdateBreedingRecord | App.tsx:658-661 | every record with the submitted id is replaced by it, the others kept; the app invariant is kept |
| AppState.App.UpdateInventoryItem | App.tsx:800-803 | every item with the submitted id is replaced by it, the others kept; the app invariant is kept |
| AppState.App.SaveSpeciesSettings | App.tsx:553-575 | the outcome is the save rule's, and the timelines change only when it saves; the app invariant is kept |
| AppState.App.ToggleNotifications | App.tsx:548-551 | sets the reminders switch and nothing else; the app invariant is kept |
| AppState.RecordReminders | App.tsx:481-504 | the forEach over records pushes exactly the record candidates, in order |
| AppState.StockReminders | App.tsx:506-511 | the forEach over the inventory pushes exactly the stock candidates, in order |
| AppState.FeedingReminders | App.tsx:513-522 | the forEach over the diet plans pushes exactly the feeding candidates, in order |
| BreedingDetailView.NextStatus | components/BreedingDetailView.tsx:37-43 | a status has a next status exactly when it is not finished, and the next status is the following stage, never 'Unsuccessful' |
| BreedingDetailView.Actions | components/BreedingDetailView.tsx:86-114 | 'Add Fry to Stock' is offered exactly for 'Successful'; a record that is not finished offers its next status and both terminal statuses, and a finished one offers no status |
| BreedingDetailView.OfferedStatusesAdvance | components/BreedingDetailView.tsx:94-114 | every offered status is a later stage than the current one |
| BreedingDetailView.ProgressionFromPaired | components/BreedingDetailView.tsx:37-43 | the chain runs Paired, Eggs Laid, Hatched, Fry Out, Successful, which is finished |
| BreedingDetailView.InitialDiet | components/BreedingDetailView.tsx:31 | the diet box starts with the record's plan, or empty |
| BreedingDetailView.SaveDiet | components/BreedingDetailView.tsx:45-46 | saving the diet sets the plan text and changes no other field |
| BreedingDetailView.SaveUneditedDiet | components/BreedingDetailView.tsx:31-46 | saving an unedited diet leaves a record with a plan unchanged |
| InventoryView.ClampQuantity | components/InventoryView.tsx:77 | Math.max(0, q): q when it is non-negative, 0 otherwise |
| InventoryView.UpdateQuantity | components/InventoryView.tsx:74-80 | an unknown id saves nothing; otherwise the first item with the id is saved with only its quantity changed, to max(0, q) |
| InventoryView.InventoryAfterQuantity | components/InventoryView.tsx:74-80 | with the App's replace-by-id, only the items with that id change, to the clamped quantity |
| InventoryView.QuantitiesStayNonNegative | components/InventoryView.tsx:77 | quantity buttons never make any quantity negative |
| InventoryView.ButtonsMoveByOne | components/InventoryView.tsx:42-57 | an enabled '-' lowers the quantity by one and '+' raises it by one |
| InventoryView.IncreaseThenDecrease | components/InventoryView.tsx:42-57 | '+' then '-' restores the quantity |
| InventoryView.EveryItemShownOnce | components/InventoryView.tsx:82-121 | the three fixed sections together show every item exactly once |
| InventoryView.RenderInventory | components/InventoryView.tsx:82-127 | the grouped screen is the empty message for no items, else the sections Fish Feeds, Medicines, Maintenance with each category's items in order |
| StockLists.StatusLeTotalPreorder | components/FishStockView.tsx:20-25 | the status comparator orders Active < Sold < Dead as a total preorder |
| StockLists.SortByStatus | components/FishStockView.tsx:25 | the sorted fish are a permutation of the fish |
| StockLists.SortByStatusSpec | components/FishStockView.tsx:20-25 | the sorted list is ordered Active, Sold, Dead, is a permutation, and keeps the input order among fish of one status |
| StockLists.HeadersSpec | components/FishStockView.tsx:33 | the headers are the listed fish's species, each once, in strictly ascending order |
| StockLists.GroupsFor | components/FishStockView.tsx:51 | one section per header |
| StockLists.GroupsForAt | components/FishStockView.tsx:51-69 | section i is header i, its count, and the listed fish of that species in list order |
| StockLists.AllCardsConcat | components/FishStockView.tsx:51-71 | the cards of all sections are the per-species lists concatenated in header order |
| StockLists.EveryListedFishShownOnce | components/FishStockView.tsx:28-33 | every listed fish appears in exactly one section |
| StockLists.NoEmptySection | components/FishStockView.tsx:28-33 | no header has an empty section |
| StockLists.RenderGroups | components/FishStockView.tsx:28-52 | the grouping reduce and header loop give the sections of the sorted headers |
| StockLists.HeaderKeys | components/FishStockView.tsx:28-33 | every sorted header is a key of the grouping object |
| StockLists.Shown | components/FishStockView.tsx:17 | inactive fish are shown exactly when the switch allows them |
| StockLists.SectionOrder | components/FishStockView.tsx:25-31 | a species' section is sorted by status and keeps the input order among fish of one status |
| StockLists.SectionCount | components/FishStockView.tsx:52 | the header count of active fish over the whole stock equals the active cards of the section, whatever the switch |
| StockLists.SortedSectionsSpec | components/FishStockView.tsx:17-52 | the sections show the shown fish exactly once; each is sorted by status, non-empty, and counts its active cards |
| FishStockView.RenderFishStock | components/FishStockView.tsx:16-52 | the screen is the filter, sort and grouping of the stock |
| FishStockView.FishStockShowsStock | components/FishStockView.tsx:17 | with the switch on, every fish appears exactly once; with it off, exactly the active fish appear |
| FryView.BredFish | components/FryView.tsx:16 | exactly the fish bred here |
| FryView.RenderFry | components/FryView.tsx:16-48 | the screen is the bred filter, switch filter, sort and grouping, counting active bred fish |
| FryView.FryShowsBredFish | components/FryView.tsx:16-19 | exactly the bred fish appear, inactive ones only when the switch allows |
| ParentStockView.ParentGroups | components/ParentStockView.tsx:42-43 | one section per header |
| ParentStockView.RenderParents | components/ParentStockView.tsx:16-43 | the screen is the active filter and grouping, each header counting its group |
| ParentStockView.ParentGroupsAreSections | components/ParentStockView.tsx:43 | over active fish only, the group length is the active count |
| ParentStockView.ParentScreenSpec | components/ParentStockView.tsx:16-43 | exactly the active fish appear, each once, and each header's count is the number of active fish of its species |
| AddBreedingForm.Submit | components/AddBreedingForm.tsx:17-35 | refused exactly when mother, father or date is empty, refused exactly when mother and father are the same, else the payload carries the fields with status 'Paired' |
| AddBreedingForm.LabelLeTotalPreorder | components/AddBreedingForm.tsx:40 | ordering by nickname-or-id is a total preorder |
| AddBreedingForm.ParentOptions | components/AddBreedingForm.tsx:37-41 | the options are exactly the parents of that gender other than the excluded id, each once |
| AddBreedingForm.ParentOptionsSorted | components/AddBreedingForm.tsx:40 | the options are sorted by nickname-or-id |
| AddBreedingForm.DropdownPicksPass | components/AddBreedingForm.tsx:17-63 | a mother and father picked from the two drop-downs, with a date, are always accepted |
| PerformanceView.ResolveRange | components/PerformanceView.tsx:41-59 | monthly and yearly give their bounds; custom gives its two dates, or no filter when either is missing |
| PerformanceView.FilteredBreeding | components/PerformanceView.tsx:57-64 | the records with the pairing date in range; all of them with no filter |
| PerformanceView.FilteredFish | components/PerformanceView.tsx:57-65 | the fish with a birth date in range, none without one; all of them with no filter |
| PerformanceView.BoundsInclusive | components/PerformanceView.tsx:61-64 | both bounds belong to the range and the days just outside do not |
| PerformanceView.FilteredBreedingIsFilter | components/PerformanceView.tsx:57-64 | the records in range are the records filtered by the range, also with no filter |
| PerformanceView.FilteredFishIsFilter | components/PerformanceView.tsx:57-65 | the fish in range are the fish filtered by the range, also with no filter |
| PerformanceView.BreedingChartData | components/PerformanceView.tsx:73-77 | each bar counts, over all records, the pairs paired in range with that outcome: successful, unsuccessful, and neither (ongoing) |
| PerformanceView.BreedingChartSpec | components/PerformanceView.tsx:73-77 | successful, unsuccessful and ongoing bars add up to the records in range, and over all time they equal the dashboard's counts |
| PerformanceView.FishStatsData | components/PerformanceView.tsx:79-83 | 'Fish Sold' counts the sold fish of the whole stock; 'Fry Bred' counts the bred fish and 'Fish Died' the dead fish among those born in range (all fish with no filter) |
| PerformanceView.RangeWidening | components/PerformanceView.tsx:79-83 | widening the range keeps 'Fish Sold' and never lowers fry bred or deaths |

## Left out

- Timers and effects: the one-minute interval and the re-runs on state changes. One call of `Tick` is one run of the check.
- Persistence: the IndexedDB store, loading and seeding. The session dismissal ledger is an in-memory field instead of JSON in session storage.
- The failure path of storing an activity: an activity that fails to store is not added to the feed. The model always adds it.
- Time zones. Today is local midnight while stored dates parse as UTC; the model uses whole day numbers for both. Month and year bounds of the performance screen are inputs to `ResolveRange`.
- A custom range whose dates are non-empty but unparsable is modelled as an `Unparsable` bound, which lets nothing in.
- Message texts, titles, subtitles and prices in the activity feed. Reminders keep their id, kind, target and record id; feed entries keep their kind and the pair or fish they name.
- Floating-point money and `toFixed`.
- Adding records, fish, items and diet plans. Their ids come from the clock or the store, and they are not part of this model.
- Locale collation: `localeCompare` and the default string sort are plain character order. Trimming and lower-casing cover ASCII letters and the common blank characters only.
- The species-settings form component. Its props do not match how App.tsx uses it, and it is not part of this model.
- DietPlanForm.ChangeTime: it requires an existing row. The form only calls it for rows it renders.
- Lifecycle.LogAll: it states only the twenty-entry bound. The order of the entries follows from LogActivity.
- StockLists.GroupsFor: it states only one section per header. The content of each section is stated by StockLists.GroupsForAt.
- ParentStockView.ParentGroups: it states only one section per header. The content is stated by ParentStockView.ParentScreenSpec.
- Rendering: markup, icons, styles, the bar widths, and the feedback toast.
- Fields no modelled rule reads: a fish's photo, health history, cause of death, breeding id and sale price, and an inventory item's cost and photo. They are left out of `Domain.Fish` and `Domain.InventoryItem`. Each handler copies them unchanged in the source, so "no other field changes" in the contracts covers only the fields the model keeps.
