/** The client's ride context (src/context/RideContext.js): the risk and
    streak shown on the dashboard, the payload of the one-click ride, and the
    state `fetchDashboard`, `addRide` and `loadHistory` keep. */
module RideContext {
  import opened Common
  import opened StreakEngine
  import ClientStreak

  /** The `streakData` state. */
  datatype StreakData = StreakData(streak: int, record: int, risk: Risk, daysMissed: nat, lastRideDate: Option<int>)

  const InitialStreakData := StreakData(0, 0, Safe, 0, None)

  /** What `GET /rides/dashboard` answers, as the client reads it: either part
      may be missing. */
  datatype DashboardPayload = DashboardPayload(streak: Option<StreakSummary>, recentRides: Option<seq<DatedRide>>)

  /** The dashboard's risk for a gap in days: lost from 4, danger from 2, safe
      below. */
  function DashboardRisk(gap: nat): (r: Risk)
    ensures r != Warning
    ensures r == Safe <==> gap <= 1
    ensures r == Danger <==> 2 <= gap <= 3
    ensures r == Lost <==> gap >= 4
  {
    if gap >= 4 then Lost else if gap >= 2 then Danger else Safe
  }

  /** The derivation inside `fetchDashboard`, with `today` as a day number. */
  function DeriveStreakData(streak: Option<StreakSummary>, today: int): (d: StreakData)
    ensures d.record == (if streak.Some? then streak.value.record else 0)
    ensures d.lastRideDate == (if streak.Some? then streak.value.lastRide else None)
    ensures streak.None? || streak.value.lastRide.None? ==>
      && d.risk == Safe
      && d.daysMissed == 0
      && d.streak == (if streak.Some? then streak.value.current else 0)
    ensures streak.Some? && streak.value.lastRide.Some? ==>
      && d.daysMissed == Abs(today - streak.value.lastRide.value)
      && d.risk == DashboardRisk(d.daysMissed)
      && d.streak == (if d.risk == Lost then 0 else streak.value.current)
  {
    var current := if streak.Some? then streak.value.current else 0;
    var record := if streak.Some? then streak.value.record else 0;
    var last := if streak.Some? then streak.value.lastRide else None;
    match last
    case None => StreakData(current, record, Safe, 0, last)
    case Some(l) =>
      var diffDays := Abs(today - l);
      if diffDays >= 4 then StreakData(0, record, Lost, diffDays, last)
      else if diffDays >= 2 then StreakData(current, record, Danger, diffDays, last)
      else StreakData(current, record, Safe, diffDays, last)
  }

  /** The two risk schemes agree on every gap except 2 days, where the
      dashboard already says danger and the list-based scheme says warning. */
  lemma RiskSchemesDifferOnlyAtTwoDays(gap: nat)
    ensures DashboardRisk(gap) == ClientStreak.RiskAfter(gap) <==> gap != 2
    ensures gap == 2 ==> DashboardRisk(gap) == Danger && ClientStreak.RiskAfter(gap) == Warning
  {
  }

  /** Under both schemes the risk never eases as the gap grows. */
  lemma RiskNeverEasesWithTime(gap1: nat, gap2: nat)
    requires gap1 <= gap2
    ensures Severity(DashboardRisk(gap1)) <= Severity(DashboardRisk(gap2))
    ensures Severity(ClientStreak.RiskAfter(gap1)) <= Severity(ClientStreak.RiskAfter(gap2))
  {
  }

  /** A summary more than three days old is shown as a lost streak of 0,
      with its record kept. */
  lemma OldSummaryShownLost(s: StreakSummary, today: int)
    requires s.lastRide.Some? && Abs(today - s.lastRide.value) >= 4
    ensures var shown := DeriveStreakData(Some(s), today);
      shown.streak == 0 && shown.risk == Lost && shown.record == s.record
  {
  }

  /** The dashboard shows a lost streak as 0 while the server row may still
      hold the old value: the reset happens on the next ride. */
  lemma LostStreakShownAsZero(row: StreakRow, rides: map<int, RideEntry>, today: int)
    requires row.current >= 0 && row.lastRide.Some? && Abs(today - row.lastRide.value) >= 4
    ensures var shown := DeriveStreakData(Some(DashboardOf(rides, Some(row)).streak), today);
      shown.streak == 0 && shown.risk == Lost && shown.record == row.record
    ensures Advance(row, today).current == 1
  {
    LongGapRestartsAtOne(row, today);
    var s := DashboardOf(rides, Some(row)).streak;
    assert s.lastRide == row.lastRide && s.record == row.record;
    OldSummaryShownLost(s, today);
  }

  /** The body `addRide` posts: a falsy distance becomes 10 and a falsy
      duration 30, sent as minutes, dated today. */
  function ClientPayload(distancia: JsValue, duracao: JsValue, today: int): (p: RidePayload)
    ensures Truthy(distancia) ==> p.distanceKm == distancia
    ensures !Truthy(distancia) ==> p.distanceKm == Num(10.0)
    ensures Truthy(duracao) ==> p.durationMin == duracao
    ensures !Truthy(duracao) ==> p.durationMin == Num(30.0)
    ensures p.durationSec == Absent && p.date == Some(today)
  {
    RidePayload(
      if Truthy(distancia) then distancia else Num(10.0),
      if Truthy(duracao) then duracao else Num(30.0),
      Absent,
      Some(today))
  }

  /** The one-click ride (no values) is stored as 10 km, 1800 s, 30 min today. */
  lemma OneClickRideStored(today: int)
    ensures var p := ClientPayload(Absent, Absent, today);
      RideDay(p, today) == today && SanitizedEntry(p) == RideEntry(10.0, 1800.0, 30)
  {
  }

  /** A duration the client sends is read by the server as minutes: `m`
      minutes are stored as `60 m` seconds and (for whole m) `m` minutes. */
  lemma ClientMinutesStoredAsSeconds(distancia: JsValue, m: real, today: int)
    requires m != 0.0
    ensures SanitizedEntry(ClientPayload(distancia, Num(m), today)).durationSec == m * 60.0
    ensures m == m.Floor as real ==> SanitizedEntry(ClientPayload(distancia, Num(m), today)).durationMin == m.Floor
  {
  }

  class RideProvider {
    var signedIn: bool
    var streakData: StreakData
    var rides: seq<DatedRide>
    var loading: bool

    constructor (signedIn: bool)
      ensures this.signedIn == signedIn
      ensures streakData == InitialStreakData && rides == [] && !loading
    {
      this.signedIn := signedIn;
      streakData := InitialStreakData;
      rides := [];
      loading := false;
    }

    /** `fetchDashboard`: nothing without a token; on an answer, the derived
        streak data and the recent rides; on a failure, the old state; loading
        is off at the end either way. */
    method FetchDashboard(reply: Option<DashboardPayload>, today: int)
      modifies this
      ensures signedIn == old(signedIn)
      ensures !signedIn ==> streakData == old(streakData) && rides == old(rides) && loading == old(loading)
      ensures signedIn ==> !loading
      ensures signedIn && reply.None? ==> streakData == old(streakData) && rides == old(rides)
      ensures signedIn && reply.Some? ==>
        && streakData == DeriveStreakData(reply.value.streak, today)
        && rides == reply.value.recentRides.GetOr([])
    {
      if !signedIn {
        return;
      }
      loading := true;
      match reply {
        case Some(payload) =>
          streakData := DeriveStreakData(payload.streak, today);
          rides := payload.recentRides.GetOr([]);
        case None =>
      }
      loading := false;
    }

    /** `addRide`: posts `ClientPayload`; when the post succeeds, refreshes the
        dashboard with `refresh` (a failed refresh, or no token, keeps the old
        data); when it fails, changes nothing and reports the failure. */
    method AddRide(distancia: JsValue, duracao: JsValue, today: int, posted: bool, refresh: Option<DashboardPayload>)
      returns (sent: RidePayload, ok: bool)
      modifies this
      ensures sent == ClientPayload(distancia, duracao, today)
      ensures ok == posted
      ensures signedIn == old(signedIn)
      ensures !posted ==> streakData == old(streakData) && rides == old(rides) && loading == old(loading)
      ensures posted && !signedIn ==> streakData == old(streakData) && rides == old(rides) && loading == old(loading)
      ensures posted && signedIn ==> !loading
      ensures posted && signedIn && refresh.None? ==> streakData == old(streakData) && rides == old(rides)
      ensures posted && signedIn && refresh.Some? ==>
        && streakData == DeriveStreakData(refresh.value.streak, today)
        && rides == refresh.value.recentRides.GetOr([])
    {
      sent := ClientPayload(distancia, duracao, today);
      ok := posted;
      if posted {
        FetchDashboard(refresh, today);
      }
    }

    /** `loadHistory`: the server's list, or an empty list on failure. */
    method LoadHistory(reply: Option<seq<DatedRide>>) returns (history: seq<DatedRide>)
      ensures reply.None? ==> history == []
      ensures reply.Some? ==> history == reply.value
    {
      history := reply.GetOr([]);
    }
  }
}
