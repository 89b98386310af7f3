/** The client's own streak recomputation from a list of ride dates
    (`calculateStreak` in src/utils/streakLogic.js). */
module ClientStreak {
  import opened Common
  import opened Days

  /** `{ streak, riskLevel, lastRideDate, daysMissed }`. */
  datatype StreakStatus = StreakStatus(streak: nat, risk: Risk, lastRideDate: Option<int>, daysMissed: nat)

  /** The answer for a missing or empty list. */
  const NoRides := StreakStatus(0, Safe, None, 0)

  /** The risk this scheme assigns to a given number of days since the last
      ride: lost after 3, danger at 3, warning at 2, safe otherwise. */
  function RiskAfter(daysSince: nat): (r: Risk)
    ensures r == Safe <==> daysSince <= 1
    ensures r == Warning <==> daysSince == 2
    ensures r == Danger <==> daysSince == 3
    ensures r == Lost <==> daysSince > 3
  {
    if daysSince > 3 then Lost
    else if daysSince == 3 then Danger
    else if daysSince == 2 then Warning
    else Safe
  }

  /** Each of the first `k` days is at most 3 days from the day before it in `u`. */
  predicate LinkedUpTo(u: seq<int>, k: nat)
    requires k <= |u|
  {
    forall j :: 1 <= j < k ==> Abs(u[j - 1] - u[j]) <= 3
  }

  /** `k` is the length of the unbroken chain at the head of `u`: the first `k`
      days are linked and the next day, if any, is more than 3 days away. */
  predicate ChainEndsAt(u: seq<int>, k: nat) {
    && 1 <= k <= |u|
    && LinkedUpTo(u, k)
    && (k < |u| ==> Abs(u[k - 1] - u[k]) > 3)
  }

  /** A list of days has one chain length, so the streak is determined by the
      set of distinct days alone. */
  lemma ChainLengthUnique(u: seq<int>, k1: nat, k2: nat)
    requires ChainEndsAt(u, k1) && ChainEndsAt(u, k2)
    ensures k1 == k2
  {
  }

  /** The distinct days of a list, newest first. */
  function DistinctNewestFirst(dates: seq<int>): (u: seq<int>)
    ensures |u| <= |dates|
    ensures forall d :: d in u <==> d in dates
    ensures StrictlyDescending(u)
  {
    var days := set d | d in dates;
    DistinctCount(dates);
    NewestFirst(days)
  }

  /** Reordering or repeating ride dates does not change the listing the
      streak is computed from. */
  lemma SameDaysSameListing(a: seq<int>, b: seq<int>)
    requires forall d :: d in a <==> d in b
    ensures DistinctNewestFirst(a) == DistinctNewestFirst(b)
  {
    var sa, sb := set d | d in a, set d | d in b;
    assert forall d :: d in sa <==> d in sb;
    assert sa == sb;
  }

  lemma {:induction false} DistinctCount(dates: seq<int>)
    ensures |set d | d in dates| <= |dates|
  {
    if dates != [] {
      var rest := dates[1..];
      DistinctCount(rest);
      assert (set d | d in dates) == (set d | d in rest) + {dates[0]};
    }
  }

  /** The head of the listing is the latest ride date. */
  lemma LatestDateFirst(dates: seq<int>)
    requires dates != []
    ensures var u := DistinctNewestFirst(dates);
      |u| > 0 && u[0] in dates && forall d :: d in dates ==> d <= u[0]
  {
    var u := DistinctNewestFirst(dates);
    assert dates[0] in u;
    forall d | d in dates ensures d <= u[0] {
      assert d in u;
      var k :| 0 <= k < |u| && u[k] == d;
      assert k == 0 || u[0] > u[k];
    }
  }

  /** The loop of `calculateStreak`: walking from the newest date, count the
      dates whose gap to the previous one is at most 3, stopping at the first
      larger gap. */
  method CountChain(uniqueDates: seq<int>) returns (currentStreak: nat)
    requires |uniqueDates| >= 1
    ensures ChainEndsAt(uniqueDates, currentStreak)
  {
    currentStreak := 1;
    var currentRefDate := uniqueDates[0];
    for i := 1 to |uniqueDates|
      invariant currentStreak == i
      invariant currentRefDate == uniqueDates[i - 1]
      invariant LinkedUpTo(uniqueDates, i)
    {
      var prevDate := uniqueDates[i];
      var gapDays := Abs(currentRefDate - prevDate);
      if gapDays <= 3 {
        currentStreak := currentStreak + 1;
        currentRefDate := prevDate;
      } else {
        break;
      }
    }
  }

  /** `calculateStreak(rideDates)`, with `today` as a day number. */
  method CalculateStreak(rideDates: Option<seq<int>>, today: int) returns (r: StreakStatus)
    ensures rideDates.None? || rideDates.value == [] ==> r == NoRides
    ensures rideDates.Some? && rideDates.value != [] ==>
      var u := DistinctNewestFirst(rideDates.value);
      && |u| > 0
      && r.lastRideDate == Some(u[0])
      && r.daysMissed == Abs(today - u[0])
      && r.risk == RiskAfter(r.daysMissed)
      && (r.daysMissed > 3 ==> r.streak == 0)
      && (r.daysMissed <= 3 ==> ChainEndsAt(u, r.streak))
    ensures r.lastRideDate.Some? ==>
      && rideDates.Some?
      && r.lastRideDate.value in rideDates.value
      && forall d :: d in rideDates.value ==> d <= r.lastRideDate.value
  {
    if rideDates.None? || |rideDates.value| == 0 {
      return NoRides;
    }
    var dates := rideDates.value;
    var uniqueDates := DistinctNewestFirst(dates);
    LatestDateFirst(dates);

    var lastRideDate := uniqueDates[0];
    var diffDays := Abs(today - lastRideDate);

    if diffDays > 3 {
      return StreakStatus(0, Lost, Some(lastRideDate), diffDays);
    }

    var currentStreak := CountChain(uniqueDates);
    var riskLevel := Safe;
    if diffDays == 3 {
      riskLevel := Danger;
    } else if diffDays == 2 {
      riskLevel := Warning;
    }
    r := StreakStatus(currentStreak, riskLevel, Some(lastRideDate), diffDays);
  }
}
