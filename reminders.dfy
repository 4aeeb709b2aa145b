/** The reminder calculator behind the notification panel: which hatch,
    sale, stock and feeding reminders are due on a tick, how they are merged
    into the live list, and how a dismissal keeps a reminder away. */
module Reminders {

  import opened Seqs
  import opened Text
  import opened Domain

  /** The timeline of a species that has no settings of its own. */
  const DefaultTimeline := SpeciesTimeline(3, 30, 30, 90)

  /** speciesSettings[species] || the default timeline */
  function TimelineFor(settings: SpeciesSettings, species: string): SpeciesTimeline {
    if species in settings then settings[species] else DefaultTimeline
  }

  // ---------------------------------------------------------------------
  // Reminder ids

  function HatchId(recordId: nat): (r: string)
    ensures |r| > 6 && r[0] == 'h' && r[6..] == NatText(recordId)
  {
    "hatch-" + NatText(recordId)
  }

  function SaleId(recordId: nat): (r: string)
    ensures |r| > 5 && r[0] == 's' && r[1] == 'a' && r[5..] == NatText(recordId)
  {
    "sale-" + NatText(recordId)
  }

  function StockId(itemId: string): (r: string)
    ensures |r| == |itemId| + 6 && r[0] == 's' && r[1] == 't' && r[6..] == itemId
  {
    "stock-" + itemId
  }

  function DietId(planId: string, time: string): (r: string)
    ensures |r| == |planId| + |time| + 6 && r[0] == 'd'
    ensures r[5..5 + |planId|] == planId && r[|r| - |time|..] == time
  {
    "diet-" + planId + "-" + time
  }

  /** A hatch reminder names its record alone. */
  lemma HatchIdInjective(a: nat, b: nat)
    requires HatchId(a) == HatchId(b)
    ensures a == b
  {
    NatTextInjective(a, b);
  }

  /** A sale reminder names its record alone. */
  lemma SaleIdInjective(a: nat, b: nat)
    requires SaleId(a) == SaleId(b)
    ensures a == b
  {
    NatTextInjective(a, b);
  }

  /** A feeding reminder names its plan and its time alone, as long as the
      times have one length (every clock text has five characters). */
  lemma DietIdInjective(p1: string, t1: string, p2: string, t2: string)
    requires |t1| == |t2|
    requires DietId(p1, t1) == DietId(p2, t2)
    ensures p1 == p2 && t1 == t2
  {
    var d := DietId(p1, t1);
    assert d[5..5 + |p1|] == p1 && d[5..5 + |p2|] == p2;
  }

  // ---------------------------------------------------------------------
  // Due rules

  /** today >= date + days; false for a date that does not parse. */
  predicate Reached(date: Date, days: int, today: int) {
    date.On? && today >= date.day + days
  }

  predicate HatchDue(r: BreedingRecord, settings: SpeciesSettings, today: int) {
    && r.status == EggsLaid
    && r.eggsLaidDate.IsSet()
    && Reached(r.eggsLaidDate, TimelineFor(settings, r.species).incubationDays, today)
  }

  /** The statuses whose fry may become ready for sale. */
  predicate SaleStage(s: BreedingStatus) {
    s == Hatched || s == FryOut || s == Successful
  }

  predicate SaleDue(r: BreedingRecord, settings: SpeciesSettings, today: int) {
    && SaleStage(r.status)
    && r.hatchDate.IsSet()
    && Reached(r.hatchDate, TimelineFor(settings, r.species).saleReadyDays, today)
  }

  function HatchNotice(r: BreedingRecord): Notification {
    Notification(HatchId(r.id), Info, Some(BreedingDetail), Some(r.id))
  }

  function SaleNotice(r: BreedingRecord): Notification {
    Notification(SaleId(r.id), Success, Some(BreedingDetail), Some(r.id))
  }

  function StockNotice(item: InventoryItem): Notification {
    Notification(StockId(item.id), Warning, Some(Inventory), None)
  }

  function DietNotice(plan: DietPlan, time: string): Notification {
    Notification(DietId(plan.id, time), Info, Some(DietPlans), None)
  }

  /** What one breeding record contributes to a tick. */
  function RecordEvents(r: BreedingRecord, settings: SpeciesSettings, today: int, dismissed: seq<string>): seq<Notification> {
    (if HatchDue(r, settings, today) && HatchId(r.id) !in dismissed then [HatchNotice(r)] else [])
    + (if SaleDue(r, settings, today) && SaleId(r.id) !in dismissed then [SaleNotice(r)] else [])
  }

  /** What one inventory item contributes to a tick. */
  function ItemEvents(item: InventoryItem, dismissed: seq<string>): seq<Notification> {
    if item.quantity <= 0 && StockId(item.id) !in dismissed then [StockNotice(item)] else []
  }

  /** What one diet plan contributes to a tick at the given clock text. */
  function PlanEvents(plan: DietPlan, time: string, dismissed: seq<string>): (r: seq<Notification>)
    ensures |r| <= 1
  {
    if time in plan.feedingTimes && DietId(plan.id, time) !in dismissed then [DietNotice(plan, time)] else []
  }

  function RecordCandidates(rs: seq<BreedingRecord>, settings: SpeciesSettings, today: int, dismissed: seq<string>): seq<Notification> {
    if rs == [] then []
    else RecordCandidates(rs[..|rs| - 1], settings, today, dismissed) + RecordEvents(rs[|rs| - 1], settings, today, dismissed)
  }

  function ItemCandidates(items: seq<InventoryItem>, dismissed: seq<string>): seq<Notification> {
    if items == [] then []
    else ItemCandidates(items[..|items| - 1], dismissed) + ItemEvents(items[|items| - 1], dismissed)
  }

  function PlanCandidates(plans: seq<DietPlan>, time: string, dismissed: seq<string>): seq<Notification> {
    if plans == [] then []
    else PlanCandidates(plans[..|plans| - 1], time, dismissed) + PlanEvents(plans[|plans| - 1], time, dismissed)
  }

  /** The reminders one tick computes, in the order the source pushes them:
      per record hatch then sale, then stock, then feeding. */
  function Candidates(records: seq<BreedingRecord>, inventory: seq<InventoryItem>, plans: seq<DietPlan>,
                      settings: SpeciesSettings, dismissed: seq<string>, today: int, hour: nat, minute: nat): seq<Notification>
  {
    RecordCandidates(records, settings, today, dismissed)
    + ItemCandidates(inventory, dismissed)
    + PlanCandidates(plans, ClockText(hour, minute), dismissed)
  }

  // ---------------------------------------------------------------------
  // Where each candidate comes from

  lemma {:induction false} RecordCandidatesMembers(rs: seq<BreedingRecord>, settings: SpeciesSettings, today: int, dismissed: seq<string>, n: Notification)
    ensures n in RecordCandidates(rs, settings, today, dismissed) <==> exists r :: r in rs && n in RecordEvents(r, settings, today, dismissed)
  {
    if rs != [] {
      var init := rs[..|rs| - 1];
      RecordCandidatesMembers(init, settings, today, dismissed, n);
      assert rs == init + [rs[|rs| - 1]];
      assert forall r :: r in rs <==> r in init || r == rs[|rs| - 1];
    }
  }

  lemma {:induction false} ItemCandidatesMembers(items: seq<InventoryItem>, dismissed: seq<string>, n: Notification)
    ensures n in ItemCandidates(items, dismissed) <==> exists it :: it in items && n in ItemEvents(it, dismissed)
  {
    if items != [] {
      var init := items[..|items| - 1];
      ItemCandidatesMembers(init, dismissed, n);
      assert items == init + [items[|items| - 1]];
      assert forall it :: it in items <==> it in init || it == items[|items| - 1];
    }
  }

  lemma {:induction false} PlanCandidatesMembers(plans: seq<DietPlan>, time: string, dismissed: seq<string>, n: Notification)
    ensures n in PlanCandidates(plans, time, dismissed) <==> exists p :: p in plans && n in PlanEvents(p, time, dismissed)
  {
    if plans != [] {
      var init := plans[..|plans| - 1];
      PlanCandidatesMembers(init, time, dismissed, n);
      assert plans == init + [plans[|plans| - 1]];
      assert forall p :: p in plans <==> p in init || p == plans[|plans| - 1];
    }
  }

  /** The record behind a record candidate, whose hatch or sale rule fires. */
  lemma {:induction false} RecordSource(rs: seq<BreedingRecord>, settings: SpeciesSettings, today: int, dismissed: seq<string>, n: Notification)
      returns (r: BreedingRecord)
    requires n in RecordCandidates(rs, settings, today, dismissed)
    ensures r in rs && n.id !in dismissed
    ensures (n == HatchNotice(r) && HatchDue(r, settings, today)) || (n == SaleNotice(r) && SaleDue(r, settings, today))
  {
    var init := rs[..|rs| - 1];
    if n in RecordCandidates(init, settings, today, dismissed) {
      r := RecordSource(init, settings, today, dismissed, n);
      assert r == rs[IndexOf(init, r)];
    } else {
      r := rs[|rs| - 1];
    }
  }

  /** The item behind a stock candidate, which is out of stock. */
  lemma {:induction false} ItemSource(items: seq<InventoryItem>, dismissed: seq<string>, n: Notification)
      returns (it: InventoryItem)
    requires n in ItemCandidates(items, dismissed)
    ensures it in items && it.quantity <= 0 && n == StockNotice(it) && n.id !in dismissed
  {
    var init := items[..|items| - 1];
    if n in ItemCandidates(init, dismissed) {
      it := ItemSource(init, dismissed, n);
      assert it == items[IndexOf(init, it)];
    } else {
      it := items[|items| - 1];
    }
  }

  /** The plan behind a feeding candidate, which lists the clock text. */
  lemma {:induction false} PlanSource(plans: seq<DietPlan>, time: string, dismissed: seq<string>, n: Notification)
      returns (p: DietPlan)
    requires n in PlanCandidates(plans, time, dismissed)
    ensures p in plans && time in p.feedingTimes && n == DietNotice(p, time) && n.id !in dismissed
  {
    var init := plans[..|plans| - 1];
    if n in PlanCandidates(init, time, dismissed) {
      p := PlanSource(init, time, dismissed, n);
      assert p == plans[IndexOf(init, p)];
    } else {
      p := plans[|plans| - 1];
    }
  }

  lemma {:induction false} RecordCandidatePrefix(rs: seq<BreedingRecord>, settings: SpeciesSettings, today: int, dismissed: seq<string>)
    ensures forall n :: n in RecordCandidates(rs, settings, today, dismissed) ==> |n.id| > 1 && (n.id[0] == 'h' || n.id[1] == 'a')
  {
    if rs != [] {
      RecordCandidatePrefix(rs[..|rs| - 1], settings, today, dismissed);
    }
  }

  lemma {:induction false} ItemCandidatePrefix(items: seq<InventoryItem>, dismissed: seq<string>)
    ensures forall n :: n in ItemCandidates(items, dismissed) ==> |n.id| > 1 && n.id[0] == 's' && n.id[1] == 't'
  {
    if items != [] {
      ItemCandidatePrefix(items[..|items| - 1], dismissed);
    }
  }

  lemma {:induction false} PlanCandidatePrefix(plans: seq<DietPlan>, time: string, dismissed: seq<string>)
    ensures forall n :: n in PlanCandidates(plans, time, dismissed) ==> |n.id| > 0 && n.id[0] == 'd'
  {
    if plans != [] {
      PlanCandidatePrefix(plans[..|plans| - 1], time, dismissed);
    }
  }

  /** A hatch reminder for record k is raised exactly when a record with id k
      is at 'Eggs Laid' with a set lay date whose incubation period (from the
      species timeline or the default) has run out, and the reminder was not
      dismissed; it is an info reminder leading to that record's detail view. */
  lemma HatchReminderIff(records: seq<BreedingRecord>, inventory: seq<InventoryItem>, plans: seq<DietPlan>,
                         settings: SpeciesSettings, dismissed: seq<string>, today: int, hour: nat, minute: nat, k: nat)
    ensures (exists n :: n in Candidates(records, inventory, plans, settings, dismissed, today, hour, minute) && n.id == HatchId(k))
            <==> (exists r :: r in records && r.id == k && HatchDue(r, settings, today)) && HatchId(k) !in dismissed
    ensures forall n :: n in Candidates(records, inventory, plans, settings, dismissed, today, hour, minute) && n.id == HatchId(k) ==>
              n.severity == Info && n.target == Some(BreedingDetail) && n.recordId == Some(k)
  {
    var c := Candidates(records, inventory, plans, settings, dismissed, today, hour, minute);
    ItemCandidatePrefix(inventory, dismissed);
    PlanCandidatePrefix(plans, ClockText(hour, minute), dismissed);
    forall n | n in c && n.id == HatchId(k)
      ensures HatchId(k) !in dismissed && exists r :: r in records && r.id == k && HatchDue(r, settings, today)
      ensures n.severity == Info && n.target == Some(BreedingDetail) && n.recordId == Some(k)
    {
      assert n in RecordCandidates(records, settings, today, dismissed);
      var r := RecordSource(records, settings, today, dismissed, n);
      assert n == HatchNotice(r);
      HatchIdInjective(r.id, k);
    }
    if r :| r in records && r.id == k && HatchDue(r, settings, today) {
      if HatchId(k) !in dismissed {
        assert HatchNotice(r) in RecordEvents(r, settings, today, dismissed);
        RecordCandidatesMembers(records, settings, today, dismissed, HatchNotice(r));
        assert HatchNotice(r) in c;
      }
    }
  }

  /** A sale reminder for record k is raised exactly when a record with id k
      is at 'Hatched', 'Fry Out' or 'Successful' (so never 'Unsuccessful') with
      a set hatch date whose sale-ready period has run out, and the reminder
      was not dismissed. */
  lemma SaleReminderIff(records: seq<BreedingRecord>, inventory: seq<InventoryItem>, plans: seq<DietPlan>,
                        settings: SpeciesSettings, dismissed: seq<string>, today: int, hour: nat, minute: nat, k: nat)
    ensures (exists n :: n in Candidates(records, inventory, plans, settings, dismissed, today, hour, minute) && n.id == SaleId(k))
            <==> (exists r :: r in records && r.id == k && SaleDue(r, settings, today)) && SaleId(k) !in dismissed
    ensures forall n :: n in Candidates(records, inventory, plans, settings, dismissed, today, hour, minute) && n.id == SaleId(k) ==>
              n.severity == Success && n.target == Some(BreedingDetail) && n.recordId == Some(k)
  {
    var c := Candidates(records, inventory, plans, settings, dismissed, today, hour, minute);
    ItemCandidatePrefix(inventory, dismissed);
    PlanCandidatePrefix(plans, ClockText(hour, minute), dismissed);
    forall n | n in c && n.id == SaleId(k)
      ensures SaleId(k) !in dismissed && exists r :: r in records && r.id == k && SaleDue(r, settings, today)
      ensures n.severity == Success && n.target == Some(BreedingDetail) && n.recordId == Some(k)
    {
      assert n in RecordCandidates(records, settings, today, dismissed);
      var r := RecordSource(records, settings, today, dismissed, n);
      assert n == SaleNotice(r);
      SaleIdInjective(r.id, k);
    }
    if r :| r in records && r.id == k && SaleDue(r, settings, today) {
      if SaleId(k) !in dismissed {
        assert SaleNotice(r) in RecordEvents(r, settings, today, dismissed);
        RecordCandidatesMembers(records, settings, today, dismissed, SaleNotice(r));
        assert SaleNotice(r) in c;
      }
    }
  }

  /** An out-of-stock reminder for item x is raised exactly when an item with
      id x has quantity zero or less and the reminder was not dismissed. */
  lemma StockReminderIff(records: seq<BreedingRecord>, inventory: seq<InventoryItem>, plans: seq<DietPlan>,
                         settings: SpeciesSettings, dismissed: seq<string>, today: int, hour: nat, minute: nat, x: string)
    ensures (exists n :: n in Candidates(records, inventory, plans, settings, dismissed, today, hour, minute) && n.id == StockId(x))
            <==> (exists it :: it in inventory && it.id == x && it.quantity <= 0) && StockId(x) !in dismissed
    ensures forall n :: n in Candidates(records, inventory, plans, settings, dismissed, today, hour, minute) && n.id == StockId(x) ==>
              n.severity == Warning && n.target == Some(Inventory) && n.recordId == None
  {
    var c := Candidates(records, inventory, plans, settings, dismissed, today, hour, minute);
    RecordCandidatePrefix(records, settings, today, dismissed);
    PlanCandidatePrefix(plans, ClockText(hour, minute), dismissed);
    forall n | n in c && n.id == StockId(x)
      ensures StockId(x) !in dismissed && exists it :: it in inventory && it.id == x && it.quantity <= 0
      ensures n.severity == Warning && n.target == Some(Inventory) && n.recordId == None
    {
      assert n in ItemCandidates(inventory, dismissed);
      var it := ItemSource(inventory, dismissed, n);
      assert it.id == StockId(it.id)[6..];
    }
    if it :| it in inventory && it.id == x && it.quantity <= 0 {
      if StockId(x) !in dismissed {
        assert StockNotice(it) in ItemEvents(it, dismissed);
        ItemCandidatesMembers(inventory, dismissed, StockNotice(it));
        assert StockNotice(it) in c;
      }
    }
  }

  /** A feeding reminder for plan pid at the current clock text is raised
      exactly when a plan with id pid lists that clock text among its feeding
      times and the reminder was not dismissed; a feeding reminder for any
      other five-character time is never raised on this tick. */
  lemma DietReminderIff(records: seq<BreedingRecord>, inventory: seq<InventoryItem>, plans: seq<DietPlan>,
                        settings: SpeciesSettings, dismissed: seq<string>, today: int, hour: nat, minute: nat,
                        pid: string, time: string)
    requires hour < 24 && minute < 60 && |time| == 5
    ensures (exists n :: n in Candidates(records, inventory, plans, settings, dismissed, today, hour, minute) && n.id == DietId(pid, time))
            <==> time == ClockText(hour, minute)
                 && (exists p :: p in plans && p.id == pid && time in p.feedingTimes)
                 && DietId(pid, time) !in dismissed
  {
    var now := ClockText(hour, minute);
    var c := Candidates(records, inventory, plans, settings, dismissed, today, hour, minute);
    RecordCandidatePrefix(records, settings, today, dismissed);
    ItemCandidatePrefix(inventory, dismissed);
    forall n | n in c && n.id == DietId(pid, time)
      ensures time == now && DietId(pid, time) !in dismissed && exists p :: p in plans && p.id == pid && time in p.feedingTimes
    {
      assert n in PlanCandidates(plans, now, dismissed);
      var p := PlanSource(plans, now, dismissed, n);
      DietIdInjective(p.id, now, pid, time);
    }
    if p :| p in plans && p.id == pid && time in p.feedingTimes {
      if time == now && DietId(pid, time) !in dismissed {
        assert DietNotice(p, now) in PlanEvents(p, now, dismissed);
        PlanCandidatesMembers(plans, now, dismissed, DietNotice(p, now));
        assert DietNotice(p, now) in c;
      }
    }
  }

  /** A tick raises at most one feeding reminder per plan. */
  lemma {:induction false} PlanCandidatesAtMostOnePerPlan(plans: seq<DietPlan>, time: string, dismissed: seq<string>)
    ensures |PlanCandidates(plans, time, dismissed)| <= |plans|
  {
    if plans != [] {
      PlanCandidatesAtMostOnePerPlan(plans[..|plans| - 1], time, dismissed);
    }
  }

  /** With incubation 3 (the default timeline), eggs laid on day 10 give no
      hatch reminder on day 12 and one on day 13. */
  lemma HatchThresholdExample(r: BreedingRecord)
    requires r.status == EggsLaid && r.eggsLaidDate == On(10)
    ensures !HatchDue(r, map[], 12)
    ensures HatchDue(r, map[], 13)
  {
  }

  // ---------------------------------------------------------------------
  // Merging into the live list

  function IdSet(ns: seq<Notification>): set<string> {
    set n | n in ns :: n.id
  }

  /** The live list followed by the candidates whose id is not already live. */
  function Merge(prev: seq<Notification>, incoming: seq<Notification>): (r: seq<Notification>)
    ensures |r| >= |prev| && r[..|prev|] == prev
    ensures forall n :: n in r[|prev|..] <==> n in incoming && n.id !in IdSet(prev)
    ensures r[|prev|..] == Filter(incoming, (n: Notification) => n.id !in IdSet(prev))
    ensures |r| == |prev| + Count(incoming, (n: Notification) => n.id !in IdSet(prev))
  {
    FilterMembers(incoming, (n: Notification) => n.id !in IdSet(prev));
    var r := prev + Filter(incoming, (n: Notification) => n.id !in IdSet(prev));
    assert r[|prev|..] == Filter(incoming, (n: Notification) => n.id !in IdSet(prev));
    r
  }

  /** Merging the same candidates a second time adds nothing. */
  lemma MergeIdempotent(prev: seq<Notification>, incoming: seq<Notification>)
    ensures Merge(Merge(prev, incoming), incoming) == Merge(prev, incoming)
  {
    var m := Merge(prev, incoming);
    forall n | n in incoming ensures n.id in IdSet(m) {
      if n.id in IdSet(prev) {
        var w :| w in prev && w.id == n.id;
        assert w == m[..|prev|][IndexOf(prev, w)];
      } else {
        assert n in m[|prev|..];
      }
    }
    FilterNone(incoming, (n: Notification) => n.id !in IdSet(m));
  }


  /** An id absent from the live list and from the candidates stays absent. */
  lemma MergeKeepsOut(prev: seq<Notification>, incoming: seq<Notification>, id: string)
    requires id !in IdSet(prev) && id !in IdSet(incoming)
    ensures id !in IdSet(Merge(prev, incoming))
  {
    var m := Merge(prev, incoming);
    forall n | n in m ensures n.id != id {
      var i := IndexOf(m, n);
      if i < |prev| {
        assert n == m[..|prev|][i];
      } else {
        assert n == m[|prev|..][i - |prev|];
      }
    }
  }

  // ---------------------------------------------------------------------
  // Dismissal

  /** The ledger after dismissing id: the id is added unless already there. */
  function RecordDismissal(ledger: seq<string>, id: string): (r: seq<string>)
    ensures forall x :: x in r <==> x in ledger || x == id
    ensures NoDup(ledger) ==> NoDup(r)
  {
    if id in ledger then ledger else ledger + [id]
  }

  /** Dismissing twice leaves the ledger as dismissing once. */
  lemma DismissIdempotent(ledger: seq<string>, id: string)
    ensures RecordDismissal(RecordDismissal(ledger, id), id) == RecordDismissal(ledger, id)
  {
  }

  /** The live list without the reminders carrying the given id. */
  function WithoutId(live: seq<Notification>, id: string): (r: seq<Notification>)
    ensures forall n :: n in r <==> n in live && n.id != id
  {
    FilterMembers(live, (n: Notification) => n.id != id);
    Filter(live, (n: Notification) => n.id != id)
  }

  /** Removing an id works piece by piece, so the remaining entries keep their order. */
  lemma WithoutIdAppend(a: seq<Notification>, b: seq<Notification>, id: string)
    ensures WithoutId(a + b, id) == WithoutId(a, id) + WithoutId(b, id)
  {
    FilterAppend(a, b, (n: Notification) => n.id != id);
  }

  /** Removing an id no entry carries changes nothing. */
  lemma WithoutIdAbsent(live: seq<Notification>, id: string)
    requires id !in IdSet(live)
    ensures WithoutId(live, id) == live
  {
    FilterAll(live, (n: Notification) => n.id != id);
  }

  /** No candidate of a tick carries an id from the dismissal ledger. */
  lemma CandidatesAvoidLedger(records: seq<BreedingRecord>, inventory: seq<InventoryItem>, plans: seq<DietPlan>,
                              settings: SpeciesSettings, dismissed: seq<string>, today: int, hour: nat, minute: nat)
    ensures forall id :: id in dismissed ==> id !in IdSet(Candidates(records, inventory, plans, settings, dismissed, today, hour, minute))
  {
    var c := Candidates(records, inventory, plans, settings, dismissed, today, hour, minute);
    forall n | n in c ensures n.id !in dismissed {
      if n in RecordCandidates(records, settings, today, dismissed) {
        var r := RecordSource(records, settings, today, dismissed, n);
      } else if n in ItemCandidates(inventory, dismissed) {
        var it := ItemSource(inventory, dismissed, n);
      } else {
        var p := PlanSource(plans, ClockText(hour, minute), dismissed, n);
      }
    }
  }

  /** Once dismissed, an id that is not live stays off the live list through
      any later tick. */
  lemma DismissedStaysAway(live: seq<Notification>, records: seq<BreedingRecord>, inventory: seq<InventoryItem>,
                           plans: seq<DietPlan>, settings: SpeciesSettings, dismissed: seq<string>,
                           today: int, hour: nat, minute: nat, id: string)
    requires id in dismissed && id !in IdSet(live)
    ensures id !in IdSet(Merge(live, Candidates(records, inventory, plans, settings, dismissed, today, hour, minute)))
  {
    CandidatesAvoidLedger(records, inventory, plans, settings, dismissed, today, hour, minute);
    MergeKeepsOut(live, Candidates(records, inventory, plans, settings, dismissed, today, hour, minute), id);
  }
}
