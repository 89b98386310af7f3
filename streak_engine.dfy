/** The server's ride ledger for one user: the `pedais` rows as a map from
    calendar day to ride entry (the `(usuario_id, data_pedal)` uniqueness is the
    map's key), the `ofensivas` row, `addRide`, and the `getHistory` and
    `getDashboard` queries. */
module StreakEngine {
  import opened Common
  import opened Days

  /** One `pedais` row of this user, without its key. */
  datatype RideEntry = RideEntry(distanceKm: real, durationSec: real, durationMin: int)

  /** A `pedais` row as the queries return it. */
  datatype DatedRide = DatedRide(day: int, entry: RideEntry)

  /** The `ofensivas` row: `ofensiva_atual`, `ofensiva_recorde`, `ultimo_pedal`. */
  datatype StreakRow = StreakRow(current: int, record: int, lastRide: Option<int>)

  /** The row inserted when a user registers, or when `addRide` finds none. */
  const FreshRow := StreakRow(0, 0, None)

  /** The request body of `POST /rides`: `distancia_km`, `duracao_min`,
      `duracao_seg`, and `data_pedal` already read as a day (None when falsy). */
  datatype RidePayload = RidePayload(distanceKm: JsValue, durationMin: JsValue, durationSec: JsValue, date: Option<int>)

  /** The JSON answer of `addRide`. */
  datatype AddRideReply = AddRideReply(streak: int, record: int)

  /** The `streak` object of the dashboard: the row plus `km_total` and `tempo_total`. */
  datatype StreakSummary = StreakSummary(current: int, record: int, lastRide: Option<int>, kmTotal: real, secondsTotal: real)

  datatype DashboardReply = DashboardReply(streak: StreakSummary, recentRides: seq<DatedRide>)

  // ---------------------------------------------------------------------------
  // Sanitising the payload

  /** The day a ride is filed under: `data_pedal`, or today when it is missing. */
  function RideDay(p: RidePayload, today: int): (d: int)
    ensures p.date.Some? ==> d == p.date.value
    ensures p.date.None? ==> d == today
  {
    p.date.GetOr(today)
  }

  /** The row `addRide` writes: a bad distance becomes 0; the duration is the
      rounded `duracao_seg`, else `duracao_min` minutes, else one minute; the
      minutes column is the number of started minutes. */
  function SanitizedEntry(p: RidePayload): (e: RideEntry)
    ensures IsNumber(p.distanceKm) ==> e.distanceKm == p.distanceKm.v
    ensures !IsNumber(p.distanceKm) ==> e.distanceKm == 0.0
    ensures IsNumber(p.durationSec) ==> e.durationSec == Round(p.durationSec.v) as real
    ensures !IsNumber(p.durationSec) && IsNumber(p.durationMin) ==> e.durationSec == p.durationMin.v * 60.0
    ensures !IsNumber(p.durationSec) && !IsNumber(p.durationMin) ==> e.durationSec == 60.0
    ensures (e.durationMin - 1) as real * 60.0 < e.durationSec <= e.durationMin as real * 60.0
  {
    var km := if IsNumber(p.distanceKm) then p.distanceKm.v else 0.0;
    var sec := if IsNumber(p.durationSec) then Round(p.durationSec.v) as real
               else if IsNumber(p.durationMin) then p.durationMin.v * 60.0
               else 60.0;
    RideEntry(km, sec, Ceil(sec / 60.0))
  }

  // ---------------------------------------------------------------------------
  // The streak rule

  /** The streak after a ride on a day not yet in the ledger. The gap is the
      absolute distance in days to `ultimo_pedal`; a gap of 0 (which a
      consistent ledger never presents) matches none of the source's branches. */
  function NextStreak(row: StreakRow, day: int): (n: int)
    ensures n == 1 || n == row.current || n == row.current + 1
    ensures row.lastRide.None? ==> n == 1
    ensures row.current >= 1 ==> n >= 1
  {
    match row.lastRide
    case None => 1
    case Some(last) =>
      var gap := Abs(day - last);
      if gap == 1 then row.current + 1
      else if gap == 2 || gap == 3 then row.current
      else if gap >= 4 then 1
      else row.current
  }

  /** The `ofensivas` row after a ride on a new day: the streak follows the gap
      rule, the record is the larger of the old record and the new streak, and
      `ultimo_pedal` becomes the ride's day, even when that day is earlier. */
  function Advance(row: StreakRow, day: int): (r: StreakRow)
    ensures r.current == NextStreak(row, day)
    ensures r.lastRide == Some(day)
    ensures r.record >= r.current && r.record >= row.record
    ensures r.record == row.record || r.record == r.current
  {
    var s := NextStreak(row, day);
    StreakRow(s, if s > row.record then s else row.record, Some(day))
  }

  lemma FirstRideStartsStreak(row: StreakRow, day: int)
    requires row.lastRide.None?
    ensures Advance(row, day).current == 1
    ensures Advance(FreshRow, day) == StreakRow(1, 1, Some(day))
  {
  }

  lemma ConsecutiveDayExtends(row: StreakRow, day: int)
    requires row.lastRide.Some? && Abs(day - row.lastRide.value) == 1
    ensures Advance(row, day).current == row.current + 1
  {
  }

  lemma GraceGapKeeps(row: StreakRow, day: int)
    requires row.lastRide.Some? && 2 <= Abs(day - row.lastRide.value) <= 3
    ensures Advance(row, day).current == row.current
  {
  }

  lemma LongGapRestartsAtOne(row: StreakRow, day: int)
    requires row.lastRide.Some? && Abs(day - row.lastRide.value) >= 4
    ensures Advance(row, day).current == 1
  {
  }

  /** A back-dated ride is judged like a ride the same number of days ahead,
      and still becomes `ultimo_pedal`. */
  lemma BackdatedRideMirrorsGap(row: StreakRow, k: int)
    requires row.lastRide.Some?
    ensures NextStreak(row, row.lastRide.value - k) == NextStreak(row, row.lastRide.value + k)
    ensures Advance(row, row.lastRide.value - k).lastRide == Some(row.lastRide.value - k)
  {
  }

  /** Rides on days 0, 2 and 3 of a fresh row: 1, then a grace gap keeps 1,
      then a consecutive day gives 2. */
  lemma GraceThenConsecutiveScenario()
    ensures Advance(FreshRow, 0) == StreakRow(1, 1, Some(0))
    ensures Advance(Advance(FreshRow, 0), 2) == StreakRow(1, 1, Some(2))
    ensures Advance(Advance(Advance(FreshRow, 0), 2), 3) == StreakRow(2, 2, Some(3))
  {
  }

  /** What every `ofensivas` row of a ledger satisfies: the record is at least
      the streak, `ultimo_pedal` is missing exactly when no ride was ever
      recorded (and then the row is 0/0), a user with one has a streak of at
      least 1, and `ultimo_pedal` is a day with a ride. */
  ghost predicate Consistent(row: StreakRow, rides: map<int, RideEntry>) {
    && 0 <= row.current <= row.record
    && (row.lastRide.None? ==> row.current == 0 && row.record == 0 && rides == map[])
    && (row.lastRide.Some? ==> row.current >= 1 && row.lastRide.value in rides)
  }

  /** In a consistent ledger `ultimo_pedal` is missing exactly when the user
      has no rides. */
  lemma NoLastRideIffNoRides(row: StreakRow, rides: map<int, RideEntry>)
    requires Consistent(row, rides)
    ensures row.lastRide.None? <==> rides == map[]
  {
    if row.lastRide.Some? {
      assert row.lastRide.value in rides;
    }
  }

  /** A ride on a day not in the ledger is never at gap 0 from `ultimo_pedal`. */
  lemma NewDayHasPositiveGap(row: StreakRow, rides: map<int, RideEntry>, day: int)
    requires Consistent(row, rides) && day !in rides && row.lastRide.Some?
    ensures Abs(day - row.lastRide.value) >= 1
  {
  }

  /** One user's rows. `AddRide` is the body of the `addRide` transaction. */
  class RideLedger {
    var rides: map<int, RideEntry>
    var row: Option<StreakRow>

    /** Every row is consistent, and only `addRide` stores rides, which
        always leaves a row behind. */
    ghost predicate Valid()
      reads this
    {
      && (row.Some? ==> Consistent(row.value, rides))
      && (rides != map[] ==> row.Some?)
    }

    /** A user with no rides; `registered` says whether the `ofensivas` row
        exists (registration creates it). */
    constructor (registered: bool)
      ensures Valid()
      ensures rides == map[]
      ensures row == if registered then Some(FreshRow) else None
    {
      rides := map[];
      row := if registered then Some(FreshRow) else None;
    }

    /** Upserts the day's row; creates a missing `ofensivas` row as 0/0; on a new
        day applies `Advance`; on an existing day leaves the row alone; answers
        with the stored streak and record. */
    method AddRide(p: RidePayload, today: int) returns (reply: AddRideReply)
      requires Valid()
      modifies this
      ensures Valid()
      ensures rides == old(rides)[RideDay(p, today) := SanitizedEntry(p)]
      ensures RideDay(p, today) in old(rides) ==> row == Some(old(row).GetOr(FreshRow))
      ensures RideDay(p, today) !in old(rides) ==> row == Some(Advance(old(row).GetOr(FreshRow), RideDay(p, today)))
      ensures reply == AddRideReply(row.value.current, row.value.record)
    {
      var day := RideDay(p, today);
      var entry := SanitizedEntry(p);
      var isUpdate := day in rides;
      rides := rides[day := entry];

      if row.None? {
        row := Some(FreshRow);
      }
      var stored := row.value;
      var newStreak := stored.current;
      var newRecord := stored.record;

      if !isUpdate {
        match stored.lastRide {
          case Some(last) =>
            var diffDays := Abs(day - last);
            if diffDays == 1 {
              newStreak := newStreak + 1;
            } else if diffDays == 2 || diffDays == 3 {
            } else if diffDays >= 4 {
              newStreak := 1;
            }
          case None =>
            newStreak := 1;
        }
        if newStreak > stored.record {
          newRecord := newStreak;
        }
        row := Some(StreakRow(newStreak, newRecord, Some(day)));
      }

      reply := AddRideReply(newStreak, newRecord);
    }
  }

  // ---------------------------------------------------------------------------
  // Read-only queries

  function RidesOn(rides: map<int, RideEntry>, days: seq<int>): (r: seq<DatedRide>)
    requires forall i :: 0 <= i < |days| ==> days[i] in rides
    ensures |r| == |days|
    ensures forall i :: 0 <= i < |r| ==> r[i] == DatedRide(days[i], rides[days[i]])
  {
    if days == [] then [] else [DatedRide(days[0], rides[days[0]])] + RidesOn(rides, days[1..])
  }

  /** Every day of a newest-first listing of the ledger's days has a ride. */
  lemma ListedDaysHaveRides(rides: map<int, RideEntry>, days: seq<int>)
    requires days == NewestFirst(rides.Keys)
    ensures forall i :: 0 <= i < |days| ==> days[i] in rides
  {
    forall i | 0 <= i < |days|
      ensures days[i] in rides
    {
      assert days[i] in days;
    }
  }

  /** `getHistory`: the user's rows, listed by the newest-first listing of
      their days. */
  function HistoryOf(rides: map<int, RideEntry>): (h: seq<DatedRide>)
    ensures DaysOf(h) == NewestFirst(rides.Keys)
    ensures forall i :: 0 <= i < |h| ==> h[i].day in rides && h[i].entry == rides[h[i].day]
  {
    var days := NewestFirst(rides.Keys);
    ListedDaysHaveRides(rides, days);
    var h := RidesOn(rides, days);
    assert DaysOf(h) == days;
    h
  }

  /** The days of a list of rides, in order. */
  function DaysOf(rs: seq<DatedRide>): (ds: seq<int>)
    ensures |ds| == |rs| && forall i :: 0 <= i < |rs| ==> ds[i] == rs[i].day
  {
    seq(|rs|, i requires 0 <= i < |rs| => rs[i].day)
  }

  /** `getHistory` lists every row of the user exactly once, newest day first. */
  lemma HistoryListsEachRideOnce(rides: map<int, RideEntry>)
    ensures |HistoryOf(rides)| == |rides|
    ensures forall d :: d in rides <==> d in DaysOf(HistoryOf(rides))
    ensures forall i, j :: 0 <= i < j < |HistoryOf(rides)| ==> HistoryOf(rides)[i].day > HistoryOf(rides)[j].day
  {
    var h := HistoryOf(rides);
    var days := DaysOf(h);
    assert |days| == |rides.Keys|;
    assert forall i :: 0 <= i < |h| ==> h[i].day == days[i];
  }

  function Min(a: int, b: int): int {
    if a <= b then a else b
  }

  function TotalKm(rs: seq<DatedRide>): (t: real)
    ensures (forall i :: 0 <= i < |rs| ==> rs[i].entry.distanceKm >= 0.0) ==> t >= 0.0
    ensures |rs| == 1 ==> t == rs[0].entry.distanceKm
  {
    if rs == [] then 0.0 else rs[0].entry.distanceKm + TotalKm(rs[1..])
  }

  function TotalSeconds(rs: seq<DatedRide>): (t: real)
    ensures (forall i :: 0 <= i < |rs| ==> rs[i].entry.durationSec >= 0.0) ==> t >= 0.0
    ensures |rs| == 1 ==> t == rs[0].entry.durationSec
  {
    if rs == [] then 0.0 else rs[0].entry.durationSec + TotalSeconds(rs[1..])
  }

  /** The totals are sums: the totals of two runs of rides add up. */
  lemma {:induction false} TotalsSplit(a: seq<DatedRide>, b: seq<DatedRide>)
    ensures TotalKm(a + b) == TotalKm(a) + TotalKm(b)
    ensures TotalSeconds(a + b) == TotalSeconds(a) + TotalSeconds(b)
    decreases |a|
  {
    if a != [] {
      TotalsSplit(a[1..], b);
      assert (a + b)[1..] == a[1..] + b;
    } else {
      assert a + b == b;
    }
  }

  /** The rides the dashboard totals cover: the `n` latest (all when fewer). */
  function Window(rides: map<int, RideEntry>, n: nat): (w: seq<DatedRide>)
    ensures |w| == Min(n, |rides|)
    ensures w == HistoryOf(rides)[..|w|]
  {
    HistoryOf(rides)[..Min(n, |rides|)]
  }

  /** `getDashboard`: the streak row with distance and seconds summed over the
      `ofensiva_atual` latest rides, and the (at most) 7 latest rides; all
      zeros when the user has no `ofensivas` row. The streak is the query's
      `LIMIT`, which PostgreSQL refuses when negative. */
  function DashboardOf(rides: map<int, RideEntry>, row: Option<StreakRow>): (d: DashboardReply)
    requires row.Some? ==> row.value.current >= 0
    ensures |d.recentRides| == Min(7, |rides|) && d.recentRides == HistoryOf(rides)[..|d.recentRides|]
    ensures row.None? ==> d.streak == StreakSummary(0, 0, None, 0.0, 0.0)
    ensures row.Some? ==>
      && d.streak.current == row.value.current
      && d.streak.record == row.value.record
      && d.streak.lastRide == row.value.lastRide
      && d.streak.kmTotal == TotalKm(Window(rides, row.value.current))
      && d.streak.secondsTotal == TotalSeconds(Window(rides, row.value.current))
  {
    var recent := Window(rides, 7);
    match row
    case None => DashboardReply(StreakSummary(0, 0, None, 0.0, 0.0), recent)
    case Some(r) =>
      var w := Window(rides, r.current);
      DashboardReply(StreakSummary(r.current, r.record, r.lastRide, TotalKm(w), TotalSeconds(w)), recent)
  }

  lemma WindowDays(rides: map<int, RideEntry>, n: nat)
    ensures DaysOf(Window(rides, n)) == NewestFirst(rides.Keys)[..Min(n, |rides|)]
  {
    var h := HistoryOf(rides);
    var w := Window(rides, n);
    assert forall j :: 0 <= j < |w| ==> w[j] == h[j];
  }

  /** The totals window holds the latest rides: a ride outside it is older than
      every ride inside it. */
  lemma WindowHoldsLatestRides(rides: map<int, RideEntry>, n: nat, d: int, i: nat)
    requires i < |Window(rides, n)|
    requires d in rides && d !in DaysOf(Window(rides, n))
    ensures d < Window(rides, n)[i].day
  {
    var k := Min(n, |rides|);
    var w := Window(rides, n);
    var ds := NewestFirst(rides.Keys);
    WindowDays(rides, n);
    assert DaysOf(w) == ds[..k];
    assert w[i].day == ds[..k][i] == ds[i];
    PrefixHoldsLatest(rides.Keys, k, d, i);
  }

  /** A window of one ride is the latest ride. */
  lemma WindowOfOne(rides: map<int, RideEntry>)
    requires rides.Keys != {}
    ensures Window(rides, 1) == [DatedRide(Latest(rides.Keys), rides[Latest(rides.Keys)])]
  {
    var w := Window(rides, 1);
    var latest := Latest(rides.Keys);
    WindowDays(rides, 1);
    assert |w| == 1 && w[0].day == NewestFirst(rides.Keys)[0] == latest;
    assert w[0].entry == rides[latest];
  }

  /** Once the streak has restarted at 1, the totals are exactly the latest ride. */
  lemma RestartedStreakTotalsLatestRide(rides: map<int, RideEntry>, row: StreakRow)
    requires Consistent(row, rides) && row.current == 1
    ensures var d := DashboardOf(rides, Some(row));
      var latest := Latest(rides.Keys);
      d.streak.kmTotal == rides[latest].distanceKm && d.streak.secondsTotal == rides[latest].durationSec
  {
    assert row.lastRide.value in rides.Keys;
    WindowOfOne(rides);
  }
}
