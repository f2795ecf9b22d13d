/**
 * The submit-validation rule of `App._newWorkOut` (js/script.js): the two
 * local helpers `checkInputs` and `allPositive`, and the guard each workout
 * type applies before a record is built.
 */
module Validation {
  import opened JsNumbers
  import opened Workouts

  /** `checkInputs(...inputs)`: every input passes `Number.isFinite`. */
  function CheckInputs(inputs: seq<JsNumber>): (ok: bool)
    ensures ok <==> forall i :: 0 <= i < |inputs| ==> IsFinite(inputs[i])
  {
    if inputs == [] then true
    else IsFinite(inputs[0]) && CheckInputs(inputs[1..])
  }

  /** `allPositive(...inputs)`: no input satisfies `inp < 0`. */
  function AllPositive(inputs: seq<JsNumber>): (ok: bool)
    ensures ok <==> forall i :: 0 <= i < |inputs| ==> !IsNegative(inputs[i])
  {
    if inputs == [] then true
    else !IsNegative(inputs[0]) && AllPositive(inputs[1..])
  }

  /**
   * The guard of the running branch: the record is built when it holds,
   * which is exactly when all three numbers are finite and positive.
   */
  function RunningInputsAccepted(distance: JsNumber, duration: JsNumber, cadence: JsNumber): (ok: bool)
    ensures ok <==> IsPositiveFinite(distance) && IsPositiveFinite(duration) && IsPositiveFinite(cadence)
  {
    var all := [distance, duration, cadence];
    assert all[0] == distance && all[1] == duration && all[2] == cadence;
    !(!CheckInputs(all)
      || !AllPositive(all)
      || !Truthy(distance)
      || !Truthy(duration)
      || !Truthy(cadence))
  }

  /**
   * The guard of the cycling branch: the sign of `elevGain` is not checked,
   * so it holds exactly when distance and duration are finite and positive
   * and the elevation gain is finite and non-zero.
   */
  function CyclingInputsAccepted(distance: JsNumber, duration: JsNumber, elevGain: JsNumber): (ok: bool)
    ensures ok <==> IsPositiveFinite(distance) && IsPositiveFinite(duration)
                    && elevGain.Finite? && elevGain.value != 0.0
  {
    var all := [distance, duration, elevGain];
    assert all[0] == distance && all[1] == duration && all[2] == elevGain;
    var signed := [distance, duration];
    assert signed[0] == distance && signed[1] == duration;
    !(!CheckInputs(all)
      || !AllPositive(signed)
      || !Truthy(distance)
      || !Truthy(duration)
      || !Truthy(elevGain))
  }

  /** The guard of the branch the form's type selects. */
  function InputsAccepted(kind: Kind, distance: JsNumber, duration: JsNumber,
                          cadence: JsNumber, elevGain: JsNumber): (ok: bool)
    ensures ok ==> IsPositiveFinite(distance) && IsPositiveFinite(duration)
    ensures ok ==> (kind == Running ==> IsPositiveFinite(cadence))
                   && (kind == Cycling ==> elevGain.Finite?)
  {
    match kind
    case Running => RunningInputsAccepted(distance, duration, cadence)
    case Cycling => CyclingInputsAccepted(distance, duration, elevGain)
  }

  /**
   * The asymmetry between the two guards: a negative third value is refused
   * as a cadence and accepted as an elevation gain.
   */
  lemma NegativeThirdValue(distance: real, duration: real, third: real)
    requires distance > 0.0 && duration > 0.0 && third < 0.0
    ensures CyclingInputsAccepted(Finite(distance), Finite(duration), Finite(third))
    ensures !RunningInputsAccepted(Finite(distance), Finite(duration), Finite(third))
  {
  }
}
