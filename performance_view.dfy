/** The performance screen: the date range, the breeding outcome chart and
    the fish statistics. */
module PerformanceView {

  import opened Seqs
  import opened Domain
  import opened DashboardStats

  /** The range buttons; a custom range carries the two date inputs. */
  datatype RangeFilter = Monthly | Yearly | Custom(start: Date, end: Date)

  /** The days a range admits: every day, or an inclusive pair of bounds. */
  datatype Range = AllTime | Between(lo: Date, hi: Date)

  /** The bounds of a filter. The first and last day of the current month and
      of the current year come from the clock, so they are parameters here. A
      custom range with either input empty admits every day. */
  function ResolveRange(filter: RangeFilter, monthFirst: int, monthLast: int, yearFirst: int, yearLast: int): (r: Range)
    ensures filter.Monthly? ==> r == Between(On(monthFirst), On(monthLast))
    ensures filter.Yearly? ==> r == Between(On(yearFirst), On(yearLast))
    ensures filter.Custom? ==> (r == AllTime <==> !filter.start.IsSet() || !filter.end.IsSet())
    ensures filter.Custom? && r.Between? ==> r == Between(filter.start, filter.end)
  {
    match filter
    case Monthly => Between(On(monthFirst), On(monthLast))
    case Yearly => Between(On(yearFirst), On(yearLast))
    case Custom(s, e) => if s.IsSet() && e.IsSet() then Between(s, e) else AllTime
  }

  /** A date lies in the range when it falls on or after the first day and on
      or before the last day; a date or bound that does not parse is never in
      range, since every comparison with it is false. */
  predicate InRange(d: Date, range: Range) {
    match range
    case AllTime => true
    case Between(lo, hi) => d.On? && lo.On? && hi.On? && lo.day <= d.day <= hi.day
  }

  predicate RecordInRange(range: Range, r: BreedingRecord) { InRange(r.pairingDate, range) }

  /** The fish filter also needs a date of birth. */
  predicate FishInRange(range: Range, f: Fish) { range.AllTime? || (f.dob.IsSet() && InRange(f.dob, range)) }

  function FilteredBreeding(records: seq<BreedingRecord>, range: Range): (r: seq<BreedingRecord>)
    ensures forall b :: b in r <==> b in records && InRange(b.pairingDate, range)
    ensures range.AllTime? ==> r == records
  {
    FilterMembers(records, b => RecordInRange(range, b));
    if range.AllTime? then records else Filter(records, b => RecordInRange(range, b))
  }

  function FilteredFish(stock: seq<Fish>, range: Range): (r: seq<Fish>)
    ensures forall f :: f in r <==> f in stock && (range.AllTime? || (f.dob.On? && InRange(f.dob, range)))
    ensures range.AllTime? ==> r == stock
  {
    FilterMembers(stock, f => FishInRange(range, f));
    if range.AllTime? then stock else Filter(stock, f => FishInRange(range, f))
  }

  /** The bounds are inclusive: a record paired on the first or on the last
      day of the range is counted. */
  lemma BoundsInclusive(lo: int, hi: int, d: int)
    requires lo <= d <= hi
    ensures InRange(On(d), Between(On(lo), On(hi)))
    ensures !InRange(On(lo - 1), Between(On(lo), On(hi))) && !InRange(On(hi + 1), Between(On(lo), On(hi)))
  {
  }

  predicate IsFinishedRecord(r: BreedingRecord) { r.status == Successful || r.status == Unsuccessful }
  predicate NotFinished(r: BreedingRecord) { !IsFinishedRecord(r) }
  predicate IsBredFish(f: Fish) { f.origin == Bred }
  predicate IsSold(f: Fish) { f.status == Sold }
  predicate IsDead(f: Fish) { f.status == Dead }

  /** The pairs each bar of the breeding chart counts. */
  predicate SuccessfulInRange(range: Range, r: BreedingRecord) { RecordInRange(range, r) && IsSuccessful(r) }
  predicate UnsuccessfulInRange(range: Range, r: BreedingRecord) { RecordInRange(range, r) && IsUnsuccessful(r) }
  predicate OngoingInRange(range: Range, r: BreedingRecord) { RecordInRange(range, r) && NotFinished(r) }

  /** The fish the fry and death bars count. */
  predicate BredInRange(range: Range, f: Fish) { FishInRange(range, f) && IsBredFish(f) }
  predicate DiedInRange(range: Range, f: Fish) { FishInRange(range, f) && IsDead(f) }

  /** The breeding list in range is the list filtered by the range, also
      when the range admits every day. */
  lemma FilteredBreedingIsFilter(records: seq<BreedingRecord>, range: Range)
    ensures FilteredBreeding(records, range) == Filter(records, b => RecordInRange(range, b))
  {
    if range.AllTime? {
      FilterAll(records, b => RecordInRange(range, b));
    }
  }

  lemma FilteredFishIsFilter(stock: seq<Fish>, range: Range)
    ensures FilteredFish(stock, range) == Filter(stock, f => FishInRange(range, f))
  {
    if range.AllTime? {
      FilterAll(stock, f => FishInRange(range, f));
    }
  }

  /** The breeding chart: successful, unsuccessful and ongoing pairs. */
  datatype BreedingChart = BreedingChart(successful: nat, unsuccessful: nat, ongoing: nat)

  /** Each bar counts, over all records, the pairs of its outcome whose
      pairing date is in range. */
  function BreedingChartData(records: seq<BreedingRecord>, range: Range): (c: BreedingChart)
    ensures c.successful == Count(records, b => SuccessfulInRange(range, b))
    ensures c.unsuccessful == Count(records, b => UnsuccessfulInRange(range, b))
    ensures c.ongoing == Count(records, b => OngoingInRange(range, b))
  {
    var rs := FilteredBreeding(records, range);
    FilteredBreedingIsFilter(records, range);
    CountOfFilter(records, b => RecordInRange(range, b), IsSuccessful, b => SuccessfulInRange(range, b));
    CountOfFilter(records, b => RecordInRange(range, b), IsUnsuccessful, b => UnsuccessfulInRange(range, b));
    CountOfFilter(records, b => RecordInRange(range, b), NotFinished, b => OngoingInRange(range, b));
    BreedingChart(Count(rs, IsSuccessful), Count(rs, IsUnsuccessful), Count(rs, NotFinished))
  }

  /** The three bars add up to the pairs in range; over all time they are
      the dashboard's successful, unsuccessful and ongoing cards. */
  lemma BreedingChartSpec(records: seq<BreedingRecord>, stock: seq<Fish>, range: Range)
    ensures var c := BreedingChartData(records, range);
            c.successful + c.unsuccessful + c.ongoing == |FilteredBreeding(records, range)|
    ensures range.AllTime? ==>
              var c := BreedingChartData(records, range);
              var s := Summarize(records, stock);
              c.successful == s.successful && c.unsuccessful == s.unsuccessful && c.ongoing == s.ongoing
  {
    var rs := FilteredBreeding(records, range);
    CountThreeWays(rs, IsSuccessful, IsUnsuccessful, NotFinished);
    FilterExt(records, NotFinished, IsOngoing);
  }

  /** The fish bars: fry bred and deaths among the fish born in range, and
      sales over the whole stock. */
  datatype FishStats = FishStats(fryBred: nat, sold: nat, died: nat)

  function FishStatsData(stock: seq<Fish>, range: Range): (r: FishStats)
    ensures r.sold == Count(stock, IsSold)
    ensures r.fryBred == Count(stock, f => BredInRange(range, f))
    ensures r.died == Count(stock, f => DiedInRange(range, f))
    ensures r.fryBred <= |FilteredFish(stock, range)| && r.died <= |FilteredFish(stock, range)|
  {
    var fs := FilteredFish(stock, range);
    FilteredFishIsFilter(stock, range);
    CountOfFilter(stock, f => FishInRange(range, f), IsBredFish, f => BredInRange(range, f));
    CountOfFilter(stock, f => FishInRange(range, f), IsDead, f => DiedInRange(range, f));
    FishStats(Count(fs, IsBredFish), Count(stock, IsSold), Count(fs, IsDead))
  }

  /** The sales bar ignores the range, and a wider range never shows fewer
      fry or deaths. */
  lemma {:induction false} RangeWidening(stock: seq<Fish>, lo1: int, hi1: int, lo2: int, hi2: int)
    requires lo2 <= lo1 && hi1 <= hi2
    ensures FishStatsData(stock, Between(On(lo1), On(hi1))).sold == FishStatsData(stock, Between(On(lo2), On(hi2))).sold
    ensures FishStatsData(stock, Between(On(lo1), On(hi1))).fryBred <= FishStatsData(stock, Between(On(lo2), On(hi2))).fryBred
    ensures FishStatsData(stock, Between(On(lo1), On(hi1))).died <= FishStatsData(stock, Between(On(lo2), On(hi2))).died
  {
    var narrow := Between(On(lo1), On(hi1));
    var wide := Between(On(lo2), On(hi2));
    CountFilteredMono(stock, f => FishInRange(narrow, f), f => FishInRange(wide, f), IsBredFish);
    CountFilteredMono(stock, f => FishInRange(narrow, f), f => FishInRange(wide, f), IsDead);
  }
}
