/** The live-ride panel (src/components/ActiveRideModal.js): what it shows
    while recording, and the choices its stop button offers. The choice the
    rider taps is an input; `stopLiveRide(save)` is reported by the argument
    it would receive. `toFixed(2)` of the live distance is a parameter. */
module ActiveRide {
  import opened Common
  import opened DurationFormat

  datatype StopChoice = KeepRiding | Discard | Save

  /** An `Alert.alert(title, message, buttons)`. */
  datatype StopDialog = StopDialog(title: string, message: string, choices: seq<StopChoice>)

  /** The two stat boxes of the panel. */
  datatype Panel = Panel(distanceText: string, durationText: string)

  /** An alert with a title and a message. */
  datatype Notice = Notice(title: string, message: string)

  /** `handleStop`: a ride with no distance can only be continued or
      discarded; any other ride can also be saved. */
  function StopDialogFor(distance: real): (d: StopDialog)
    ensures |d.choices| >= 2 && d.choices[0] == KeepRiding && d.choices[1] == Discard
    ensures Save in d.choices <==> distance != 0.0
    ensures forall i, j :: 0 <= i < j < |d.choices| ==> d.choices[i] != d.choices[j]
  {
    if distance == 0.0 then
      StopDialog("Pedal Zerado", "Você não percorreu nenhuma distância. Deseja descartar?", [KeepRiding, Discard])
    else
      StopDialog("Finalizar Pedal", "O que deseja fazer com esta atividade?", [KeepRiding, Discard, Save])
  }

  /** The argument of `stopLiveRide` behind each button; "Continuar" only
      closes the alert. */
  function StopArgument(c: StopChoice): (save: Option<bool>)
    ensures save == Some(true) <==> c == Save
    ensures save == Some(false) <==> c == Discard
    ensures save.None? <==> c == KeepRiding
  {
    match c
    case KeepRiding => None
    case Discard => Some(false)
    case Save => Some(true)
  }

  /** A ride is kept only through the save button, which is offered only
      when the ride has a distance; discarding is always possible. */
  lemma OnlyRidesWithDistanceAreSaved(distance: real, c: StopChoice)
    requires c in StopDialogFor(distance).choices
    ensures StopArgument(c) == Some(true) ==> distance != 0.0
    ensures Discard in StopDialogFor(distance).choices
  {
  }

  /** The alert after the save button: success with the saved distance text,
      or the failure message when `stopLiveRide(true)` throws (`None`). */
  function SaveNotice(savedDistance: Option<string>): (n: Notice)
    ensures savedDistance.Some? ==> n == Notice("Sucesso", "Pedal de " + savedDistance.value + "km salvo!")
    ensures savedDistance.None? ==> n == Notice("Erro", "Falha ao salvar o pedal.")
  {
    match savedDistance
    case Some(km) => Notice("Sucesso", "Pedal de " + km + "km salvo!")
    case None => Notice("Erro", "Falha ao salvar o pedal.")
  }

  /** What the component renders: nothing unless recording; otherwise the
      live distance to two decimals and the live duration as `HH:MM:SS`. */
  function Render(isRecording: bool, distance: real, durationSec: real, fixed2: real -> string): (p: Option<Panel>)
    ensures p.Some? <==> isRecording
    ensures p.Some? ==> p.value.distanceText == fixed2(distance) && p.value.durationText == FormatClock(durationSec)
  {
    if !isRecording then None else Some(Panel(fixed2(distance), FormatClock(durationSec)))
  }

  /** The duration box shows the live seconds read back as whole seconds. */
  lemma PanelDurationReadsBack(distance: real, durationSec: real, fixed2: real -> string)
    requires durationSec >= 0.0
    ensures var c := Fields(durationSec);
      && Render(true, distance, durationSec, fixed2).value.durationText
           == PadStart2(Digits(c.h)) + ":" + PadStart2(Digits(c.m)) + ":" + PadStart2(Digits(c.s))
      && c.h * 3600 + c.m * 60 + c.s == durationSec.Floor
      && 0 <= c.m < 60 && 0 <= c.s < 60
  {
    FormatClockReadsBack(durationSec);
  }
}
