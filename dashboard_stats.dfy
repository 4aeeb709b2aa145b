/** The dashboard's summary cards and the age shown beside each activity. */
module DashboardStats {

  import opened Seqs
  import opened Domain

  /** 'Paired', 'Eggs Laid', 'Hatched' or 'Fry Out' */
  predicate IsOngoing(r: BreedingRecord) {
    r.status == Paired || r.status == EggsLaid || r.status == Hatched || r.status == FryOut
  }

  /** 'Eggs Laid', 'Hatched', 'Fry Out' or 'Successful' */
  predicate ReachedEggs(r: BreedingRecord) {
    r.status == EggsLaid || r.status == Hatched || r.status == FryOut || r.status == Successful
  }

  /** 'Fry Out' or 'Successful' */
  predicate ReachedFryOut(r: BreedingRecord) {
    r.status == FryOut || r.status == Successful
  }

  predicate IsSuccessful(r: BreedingRecord) { r.status == Successful }
  predicate IsUnsuccessful(r: BreedingRecord) { r.status == Unsuccessful }

  /** The six numbers on the dashboard, in card order ("Total Breedings"
      shows the ongoing count). */
  datatype Summary = Summary(ongoing: nat, eggsLaid: nat, fryOut: nat, parentFish: nat, successful: nat, unsuccessful: nat)

  predicate HasBreedingStatus(st: BreedingStatus, r: BreedingRecord) { r.status == st }

  /** The number of pairs currently at status st. */
  function StatusCount(records: seq<BreedingRecord>, st: BreedingStatus): nat {
    Count(records, r => HasBreedingStatus(st, r))
  }

  /** Each card's number as a sum of pairs per current status: a card counts
      the pairs whose status is one of the statuses it lists. */
  lemma {:induction false} OngoingByStatus(records: seq<BreedingRecord>)
    ensures Count(records, IsOngoing)
            == StatusCount(records, Paired) + StatusCount(records, EggsLaid) + StatusCount(records, Hatched) + StatusCount(records, FryOut)
  {
    if records != [] {
      OngoingByStatus(records[1..]);
    }
  }

  lemma {:induction false} EggsLaidByStatus(records: seq<BreedingRecord>)
    ensures Count(records, ReachedEggs)
            == StatusCount(records, EggsLaid) + StatusCount(records, Hatched) + StatusCount(records, FryOut) + StatusCount(records, Successful)
  {
    if records != [] {
      EggsLaidByStatus(records[1..]);
    }
  }

  lemma {:induction false} FryOutByStatus(records: seq<BreedingRecord>)
    ensures Count(records, ReachedFryOut) == StatusCount(records, FryOut) + StatusCount(records, Successful)
  {
    if records != [] {
      FryOutByStatus(records[1..]);
    }
  }

  /** The dashboard's numbers: the ongoing, eggs-laid and fry-out cards count
      the pairs at the statuses each lists, the outcome cards the pairs with
      that outcome, and the parent card the active fish. */
  function Summarize(records: seq<BreedingRecord>, stock: seq<Fish>): (s: Summary)
    ensures s.ongoing
            == StatusCount(records, Paired) + StatusCount(records, EggsLaid) + StatusCount(records, Hatched) + StatusCount(records, FryOut)
    ensures s.eggsLaid
            == StatusCount(records, EggsLaid) + StatusCount(records, Hatched) + StatusCount(records, FryOut) + StatusCount(records, Successful)
    ensures s.fryOut == StatusCount(records, FryOut) + StatusCount(records, Successful)
    ensures s.successful == StatusCount(records, Successful)
    ensures s.unsuccessful == StatusCount(records, Unsuccessful)
    ensures s.parentFish == Count(stock, IsActiveFish)
  {
    OngoingByStatus(records);
    EggsLaidByStatus(records);
    FryOutByStatus(records);
    FilterExt(records, IsSuccessful, r => HasBreedingStatus(Successful, r));
    FilterExt(records, IsUnsuccessful, r => HasBreedingStatus(Unsuccessful, r));
    Summary(
      Count(records, IsOngoing),
      Count(records, ReachedEggs),
      Count(records, ReachedFryOut),
      Count(stock, IsActiveFish),
      Count(records, IsSuccessful),
      Count(records, IsUnsuccessful))
  }

  /** Every record is ongoing, successful or unsuccessful, so those three
      cards add up to the number of records; a pair counted at 'Fry Out' was
      also counted at 'Eggs Laid', and so was every successful pair. */
  lemma SummaryConsistent(records: seq<BreedingRecord>, stock: seq<Fish>)
    ensures var s := Summarize(records, stock);
            && s.ongoing + s.successful + s.unsuccessful == |records|
            && s.successful <= s.fryOut <= s.eggsLaid <= |records|
            && s.parentFish <= |stock|
  {
    CountThreeWays(records, IsOngoing, IsSuccessful, IsUnsuccessful);
    CountMono(records, IsSuccessful, ReachedFryOut);
    CountMono(records, ReachedFryOut, ReachedEggs);
  }

  // ---------------------------------------------------------------------
  // Relative time

  /** The text formatTimeAgo returns, by bucket. */
  datatype Ago = JustNow | MinutesAgo(m: int) | HoursAgo(h: int) | DaysAgo(d: int) | MonthsAgo(mo: int) | YearsAgo(y: int)

  const Second := 1000
  const Minute := 60 * Second
  const Hour := 60 * Minute
  const Day := 24 * Hour
  const Month := 30 * Day
  const Year := 12 * Month

  /** formatTimeAgo(timestamp) at the instant now (both in milliseconds): each
      unit is the floor of the previous one divided by its size. */
  function FormatTimeAgo(now: int, timestamp: int): (r: Ago)
    ensures r == JustNow <==> now - timestamp < Minute
    ensures r.MinutesAgo? ==> Minute <= now - timestamp < Hour && r.m * Minute <= now - timestamp < (r.m + 1) * Minute
    ensures r.HoursAgo? ==> Hour <= now - timestamp < Day && r.h * Hour <= now - timestamp < (r.h + 1) * Hour
    ensures r.DaysAgo? ==> Day <= now - timestamp < Month && r.d * Day <= now - timestamp < (r.d + 1) * Day
    ensures r.MonthsAgo? ==> Month <= now - timestamp < Year && r.mo * Month <= now - timestamp < (r.mo + 1) * Month
    ensures r.YearsAgo? ==> Year <= now - timestamp && r.y * Year <= now - timestamp < (r.y + 1) * Year
  {
    var elapsed := now - timestamp;
    var seconds := elapsed / 1000;
    if seconds < 60 then JustNow
    else
      var minutes := seconds / 60;
      if minutes < 60 then MinutesAgo(minutes)
      else
        var hours := minutes / 60;
        if hours < 24 then HoursAgo(hours)
        else
          var days := hours / 24;
          if days < 30 then DaysAgo(days)
          else
            var months := days / 30;
            if months < 12 then MonthsAgo(months)
            else
              YearsAgo(months / 12)
  }

  /** The order of the buckets, youngest first. */
  function Rank(a: Ago): nat {
    match a
    case JustNow => 0
    case MinutesAgo(_) => 1
    case HoursAgo(_) => 2
    case DaysAgo(_) => 3
    case MonthsAgo(_) => 4
    case YearsAgo(_) => 5
  }

  /** An older activity never shows a younger bucket than a newer one. */
  lemma FormatTimeAgoMonotone(now: int, older: int, newer: int)
    requires older <= newer
    ensures Rank(FormatTimeAgo(now, newer)) <= Rank(FormatTimeAgo(now, older))
  {
  }
}
