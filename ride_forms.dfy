/** The two manual ride-entry forms: the modal on the home screen
    (src/components/RideModal.js) and the full-screen form
    (src/screens/ManualRideScreen.js). Both check their two text fields the
    same way before submitting. `parseFloat` and `parseInt` are parameters
    returning `None` for NaN; the submit call's outcome is a parameter too:
    `None` for success, `Some(msg)` for a failure carrying the server's `msg`
    (itself optional). */
module RideForms {
  import opened Common
  import opened StreakEngine

  const FillBoth := "Preencha distância e tempo"
  const BadDistance := "Digite uma distância válida"
  const BadDuration := "Digite um tempo válido"
  const SubmitFailed := "Erro ao registrar pedal"

  /** The outcome of the checks: an error message, or the parsed values. */
  datatype Verdict = Rejected(message: string) | Accepted(distanceKm: real, durationMin: int)

  /** What was handed to `onSubmit` / `addRide`. */
  datatype Submission = Submission(distanceKm: real, durationMin: int)

  /** The text parses to a positive number. */
  predicate PositiveReal(x: Option<real>) {
    x.Some? && x.value > 0.0
  }

  predicate PositiveInt(x: Option<int>) {
    x.Some? && x.value > 0
  }

  /** The checks of `handleSubmit`: both fields filled, then the distance,
      then the duration; the first failing check names the message. */
  function ValidateRide(distance: string, duration: string,
                        parseFloat: string -> Option<real>, parseInt: string -> Option<int>): (v: Verdict)
    ensures v.Accepted? <==>
      distance != "" && duration != "" && PositiveReal(parseFloat(distance)) && PositiveInt(parseInt(duration))
    ensures v.Accepted? ==>
      && v.distanceKm == parseFloat(distance).value && v.distanceKm > 0.0
      && v.durationMin == parseInt(duration).value && v.durationMin > 0
    ensures v == Rejected(FillBoth) <==> distance == "" || duration == ""
    ensures v == Rejected(BadDistance) <==>
      distance != "" && duration != "" && !PositiveReal(parseFloat(distance))
    ensures v == Rejected(BadDuration) <==>
      distance != "" && duration != "" && PositiveReal(parseFloat(distance)) && !PositiveInt(parseInt(duration))
  {
    if distance == "" || duration == "" then Rejected(FillBoth)
    else
      var distanceNum := parseFloat(distance);
      var durationNum := parseInt(duration);
      if !PositiveReal(distanceNum) then Rejected(BadDistance)
      else if !PositiveInt(durationNum) then Rejected(BadDuration)
      else Accepted(distanceNum.value, durationNum.value)
  }

  /** The distance is judged before the duration: when both are bad, the
      distance's message is shown. */
  lemma DistanceJudgedFirst(distance: string, duration: string,
                            parseFloat: string -> Option<real>, parseInt: string -> Option<int>)
    requires distance != "" && duration != ""
    requires !PositiveReal(parseFloat(distance)) && !PositiveInt(parseInt(duration))
    ensures ValidateRide(distance, duration, parseFloat, parseInt) == Rejected(BadDistance)
  {
  }

  /** `error.response?.data?.msg || 'Erro ao registrar pedal'`: some message
      is always shown. */
  function ServerErrorText(msg: Option<string>): (t: string)
    ensures t != ""
    ensures msg.Some? && msg.value != "" ==> t == msg.value
    ensures msg.None? || msg.value == "" ==> t == SubmitFailed
  {
    if msg.Some? && msg.value != "" then msg.value else SubmitFailed
  }

  /** `res.data.find(ride => date === today)`: the position of the first ride
      dated `today`, if any. */
  function FirstRideOn(rides: seq<DatedRide>, today: int): (i: Option<nat>)
    ensures i.Some? ==> i.value < |rides| && rides[i.value].day == today
    ensures i.Some? ==> forall j :: 0 <= j < i.value ==> rides[j].day != today
    ensures i.None? <==> forall j :: 0 <= j < |rides| ==> rides[j].day != today
  {
    if rides == [] then None
    else if rides[0].day == today then Some(0)
    else
      var rest := FirstRideOn(rides[1..], today);
      if rest.Some? then Some(rest.value + 1) else None
  }

  /** The history never holds two rides on one day, so the one found is the
      day's only ride. */
  lemma {:induction false} FoundRideIsTheDaysRide(rides: map<int, RideEntry>, today: int)
    ensures var h := HistoryOf(rides);
      var i := FirstRideOn(h, today);
      && (i.Some? <==> today in rides)
      && (i.Some? ==> h[i.value].entry == rides[today])
  {
    var h := HistoryOf(rides);
    HistoryListsEachRideOnce(rides);
    var i := FirstRideOn(h, today);
    if today in rides {
      assert today in DaysOf(h);
      var k :| 0 <= k < |h| && DaysOf(h)[k] == today;
      assert h[k].day == today;
    }
  }

  /** The modal's state. */
  class RideModal {
    var distance: string
    var duration: string
    var loading: bool
    var fetchingData: bool
    var errorMessage: string

    constructor ()
      ensures distance == "" && duration == "" && !loading && !fetchingData && errorMessage == ""
    {
      distance, duration, loading, fetchingData, errorMessage := "", "", false, false, "";
    }

    /** `fetchTodayRide` on opening: the fields are prefilled from the first
        ride dated today, cleared when there is none, and left alone when the
        request fails (`rides` is `None`). Nothing happens when not visible. */
    method FetchTodayRide(visible: bool, rides: Option<seq<DatedRide>>, today: int,
                          showReal: real -> string, showInt: int -> string)
      modifies this
      ensures !visible ==> distance == old(distance) && duration == old(duration) && fetchingData == old(fetchingData)
      ensures visible ==> !fetchingData
      ensures visible && rides.None? ==> distance == old(distance) && duration == old(duration)
      ensures visible && rides.Some? ==>
        var i := FirstRideOn(rides.value, today);
        && (i.Some? ==>
              distance == showReal(rides.value[i.value].entry.distanceKm)
              && duration == showInt(rides.value[i.value].entry.durationMin))
        && (i.None? ==> distance == "" && duration == "")
      ensures loading == old(loading) && errorMessage == old(errorMessage)
    {
      if !visible {
        return;
      }
      fetchingData := true;
      if rides.Some? {
        var todayRide := FirstRideOn(rides.value, today);
        if todayRide.Some? {
          var ride := rides.value[todayRide.value];
          distance := showReal(ride.entry.distanceKm);
          duration := showInt(ride.entry.durationMin);
        } else {
          distance := "";
          duration := "";
        }
      }
      fetchingData := false;
    }

    /** `handleSubmit`. `sent` is what `onSubmit` received; `closed` tells
        whether `onClose` ran. */
    method HandleSubmit(parseFloat: string -> Option<real>, parseInt: string -> Option<int>,
                        failure: Option<Option<string>>)
      returns (sent: Option<Submission>, closed: bool)
      modifies this
      ensures var v := ValidateRide(old(distance), old(duration), parseFloat, parseInt);
        && (v.Rejected? ==>
              sent.None? && !closed && errorMessage == v.message
              && distance == old(distance) && duration == old(duration) && loading == old(loading))
        && (v.Accepted? ==> sent == Some(Submission(v.distanceKm, v.durationMin)) && !loading)
        && (v.Accepted? && failure.None? ==> closed && distance == "" && duration == "" && errorMessage == "")
        && (v.Accepted? && failure.Some? ==>
              !closed && errorMessage == ServerErrorText(failure.value)
              && distance == old(distance) && duration == old(duration))
      ensures fetchingData == old(fetchingData)
    {
      var v := ValidateRide(distance, duration, parseFloat, parseInt);
      if v.Rejected? {
        errorMessage := v.message;
        return None, false;
      }
      errorMessage := "";
      loading := true;
      sent := Some(Submission(v.distanceKm, v.durationMin));
      if failure.None? {
        distance := "";
        duration := "";
        errorMessage := "";
        closed := true;
      } else {
        errorMessage := ServerErrorText(failure.value);
        closed := false;
      }
      loading := false;
    }

    /** `handleClose`: both fields and the error are cleared before closing. */
    method HandleClose()
      modifies this
      ensures distance == "" && duration == "" && errorMessage == ""
      ensures loading == old(loading) && fetchingData == old(fetchingData)
    {
      distance := "";
      duration := "";
      errorMessage := "";
    }
  }

  /** The full-screen form's state. */
  class ManualRideForm {
    var distance: string
    var duration: string
    var loading: bool
    var errorMessage: string

    constructor ()
      ensures distance == "" && duration == "" && !loading && errorMessage == ""
    {
      distance, duration, loading, errorMessage := "", "", false, "";
    }

    /** `handleSubmit`. `sent` is what `addRide` received; `alerted` tells
        whether the success alert was shown. On success the button stays
        disabled (loading is not reset); only a failure re-enables it. */
    method HandleSubmit(parseFloat: string -> Option<real>, parseInt: string -> Option<int>,
                        failure: Option<Option<string>>)
      returns (sent: Option<Submission>, alerted: bool)
      modifies this
      ensures var v := ValidateRide(distance, duration, parseFloat, parseInt);
        && (v.Rejected? ==> sent.None? && !alerted && errorMessage == v.message && loading == old(loading))
        && (v.Accepted? ==> sent == Some(Submission(v.distanceKm, v.durationMin)))
        && (v.Accepted? && failure.None? ==> alerted && loading && errorMessage == "")
        && (v.Accepted? && failure.Some? ==> !alerted && !loading && errorMessage == ServerErrorText(failure.value))
      ensures distance == old(distance) && duration == old(duration)
    {
      var v := ValidateRide(distance, duration, parseFloat, parseInt);
      if v.Rejected? {
        errorMessage := v.message;
        return None, false;
      }
      errorMessage := "";
      loading := true;
      sent := Some(Submission(v.distanceKm, v.durationMin));
      if failure.None? {
        alerted := true;
      } else {
        errorMessage := ServerErrorText(failure.value);
        loading := false;
        alerted := false;
      }
    }
  }
}
