/** The diet-plan form: its list of feeding times and what a submission sends. */
module DietPlanForm {

  import opened Seqs
  import opened Domain

  /** A new plan starts with one feeding time. */
  const InitialTimes: seq<string> := ["09:00"]

  /** handleTimeChange(index, value); the form only offers existing rows. */
  function ChangeTime(times: seq<string>, index: nat, value: string): (r: seq<string>)
    requires index < |times|
    ensures |r| == |times| && r[index] == value
    ensures forall i :: 0 <= i < |times| && i != index ==> r[i] == times[i]
  {
    times[index := value]
  }

  /** addTimeField: a new, empty row at the end. */
  function AddTime(times: seq<string>): (r: seq<string>)
    ensures |r| == |times| + 1 && r[..|times|] == times && r[|times|] == ""
  {
    times + [""]
  }

  /** removeTimeField(index): the row at index goes, but never the last row
      left, and an index that names no row removes nothing. */
  function RemoveTime(times: seq<string>, index: int): (r: seq<string>)
    ensures |times| <= 1 ==> r == times
    ensures |times| > 1 && 0 <= index < |times| ==> r == times[..index] + times[index + 1..]
    ensures (index < 0 || index >= |times|) ==> r == times
  {
    if |times| > 1 && 0 <= index < |times| then times[..index] + times[index + 1..] else times
  }

  /** One action on the feeding-time rows. */
  datatype TimeEdit = Change(row: nat, value: string) | Add | Remove(at: int)

  function ApplyEdit(times: seq<string>, e: TimeEdit): seq<string> {
    match e
    case Change(i, v) => if i < |times| then ChangeTime(times, i, v) else times
    case Add => AddTime(times)
    case Remove(i) => RemoveTime(times, i)
  }

  function ApplyEdits(times: seq<string>, edits: seq<TimeEdit>): seq<string>
    decreases |edits|
  {
    if edits == [] then times else ApplyEdits(ApplyEdit(times, edits[0]), edits[1..])
  }

  /** However the rows are edited, a list with a row keeps at least one, so a
      new plan's form always shows a feeding time to fill in. */
  lemma {:induction false} EditsKeepARow(times: seq<string>, edits: seq<TimeEdit>)
    requires |times| >= 1
    ensures |ApplyEdits(times, edits)| >= 1
    decreases |edits|
  {
    if edits != [] {
      EditsKeepARow(ApplyEdit(times, edits[0]), edits[1..]);
    }
  }

  /** What handleSubmit sends; `id` is present when an existing plan is edited. */
  datatype PlanDraft = PlanDraft(
    id: Option<string>,
    name: string,
    species: string,
    food: string,
    target: FeedingTarget,
    feedingTimes: seq<string>,
    timesPerDay: nat,
    isTemporary: bool)

  predicate HasBlankTime(times: seq<string>) {
    exists t :: t in times && t == ""
  }

  function NonBlank(t: string): bool { t != "" }

  /** handleSubmit: refused when the name, species or food is empty or some
      feeding time is blank; otherwise a permanent plan with the non-blank
      times and their number as times per day. */
  function SubmitPlan(editing: Option<string>, name: string, species: string, food: string,
                      target: FeedingTarget, times: seq<string>): (r: Option<PlanDraft>)
    ensures r.None? <==> name == "" || species == "" || food == "" || HasBlankTime(times)
    ensures r.Some? ==> r.value == PlanDraft(editing, name, species, food, target, times, |times|, false)
  {
    if name == "" || species == "" || food == "" || HasBlankTime(times) then None
    else
      FilterAll(times, NonBlank);
      var kept := Filter(times, NonBlank);
      Some(PlanDraft(editing, name, species, food, target, kept, |kept|, false))
  }

  /** A plan submitted from a form whose rows started non-empty has at least
      one feeding time, and its count of times per day matches its list. */
  lemma SubmittedPlanHasATime(editing: Option<string>, name: string, species: string, food: string,
                              target: FeedingTarget, start: seq<string>, edits: seq<TimeEdit>)
    requires |start| >= 1
    requires SubmitPlan(editing, name, species, food, target, ApplyEdits(start, edits)).Some?
    ensures var p := SubmitPlan(editing, name, species, food, target, ApplyEdits(start, edits)).value;
            p.timesPerDay == |p.feedingTimes| >= 1
  {
    EditsKeepARow(start, edits);
  }
}
