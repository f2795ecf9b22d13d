/**
 * The `App` controller of js/script.js, reduced to the state its handlers
 * change: the session's workout list (`#workoutsArr`), the last map click
 * (`#mapEvent`) and the value last written under the storage key
 * 'workouts'. Map, DOM and storage calls are not modelled; the clock reads
 * and the parsed form numbers are parameters.
 */
module Mapty {
  import opened Options
  import opened JsNumbers
  import opened Workouts
  import opened Validation

  /** What one submit of the workout form does. */
  datatype Submission =
    | NoPendingClick           // `this.#mapEvent.latlng` throws: the map was never clicked
    | Rejected                 // the type's guard failed: `return alert(...)`
    | Created(workout: Workout)

  /**
   * The decision `_newWorkOut` takes, from the pending click, the selected
   * type, the parsed form numbers and the clock. The click is read before the
   * inputs are validated.
   */
  function Submit(click: Option<Coords>, kind: Kind, distance: JsNumber, duration: JsNumber,
                  cadence: JsNumber, elevGain: JsNumber, now: nat, date: CalendarDate): (r: Submission)
    ensures r.NoPendingClick? <==> click.None?
    ensures r.Created? <==> click.Some? && InputsAccepted(kind, distance, duration, cadence, elevGain)
    ensures r.Created? ==>
      && r.workout.TypeOf() == kind
      && r.workout.coords == click.value
      && r.workout.id == WorkoutId(now)
      && r.workout.date == date
      && r.workout.description == Description(kind, date)
      && distance == Finite(r.workout.distance)
      && duration == Finite(r.workout.duration)
      && (kind == Running ==> cadence == Finite(r.workout.cadence))
      && (kind == Cycling ==> elevGain == Finite(r.workout.elevGain))
      && (kind == Running ==> r.workout.pace == CalcPace(r.workout.distance, r.workout.duration))
      && (kind == Cycling ==> r.workout.speed == CalcSpeed(r.workout.distance, r.workout.duration))
  {
    if click.None? then NoPendingClick
    else if !InputsAccepted(kind, distance, duration, cadence, elevGain) then Rejected
    else
      match kind
      case Running =>
        Created(NewRunning(click.value, distance.value, duration.value, cadence.value, now, date))
      case Cycling =>
        Created(NewCycling(click.value, distance.value, duration.value, elevGain.value, now, date))
  }

  /** `#workoutsArr.find(work => work.id === id)`: the first workout with that id. */
  function FindById(ws: seq<Workout>, id: string): (r: Option<Workout>)
    ensures r.None? <==> forall i :: 0 <= i < |ws| ==> ws[i].id != id
    ensures r.Some? ==> exists i :: 0 <= i < |ws| && ws[i] == r.value && ws[i].id == id
                                    && forall j :: 0 <= j < i ==> ws[j].id != id
  {
    if ws == [] then None
    else if ws[0].id == id then Some(ws[0])
    else
      var r := FindById(ws[1..], id);
      if r.Some? then
        var i :| 0 <= i < |ws[1..]| && ws[1..][i] == r.value && ws[1..][i].id == id
                 && forall j :: 0 <= j < i ==> ws[1..][j].id != id;
        assert ws[i + 1] == r.value && forall j :: 0 <= j < i + 1 ==> ws[j].id != id;
        r
      else
        r
  }

  /**
   * Given a pending click, a submission creates a record exactly when the
   * selected type's numbers pass: all three finite and positive for a run;
   * distance and duration finite and positive and the elevation gain finite
   * and non-zero, of either sign, for a ride.
   */
  lemma SubmitAcceptsExactly(click: Coords, kind: Kind, distance: JsNumber, duration: JsNumber,
                             cadence: JsNumber, elevGain: JsNumber, now: nat, date: CalendarDate)
    ensures Submit(Some(click), kind, distance, duration, cadence, elevGain, now, date).Created?
        <==> IsPositiveFinite(distance) && IsPositiveFinite(duration)
             && (kind == Running ==> IsPositiveFinite(cadence))
             && (kind == Cycling ==> elevGain.Finite? && elevGain.value != 0.0)
  {
  }

  /** A 5 km run of 25 minutes at cadence 180 has a pace of 5 min/km. */
  lemma SubmitExample(now: nat, date: CalendarDate)
    ensures var r := Submit(Some(Coords(51.5, -0.12)), Running, Finite(5.0), Finite(25.0),
                            Finite(180.0), NaN, now, date);
      r.Created? && r.workout.pace == 5.0 && r.workout.coords == Coords(51.5, -0.12)
  {
  }

  /** Appending a record does not change what an earlier match finds. */
  lemma {:induction false} FindAfterAppend(ws: seq<Workout>, w: Workout, id: string)
    ensures FindById(ws + [w], id) ==
      if FindById(ws, id).Some? then FindById(ws, id)
      else if w.id == id then Some(w) else None
  {
    if ws == [] {
      assert ws + [w] == [w];
      assert [w][1..] == [];
    } else {
      assert (ws + [w])[1..] == ws[1..] + [w];
      FindAfterAppend(ws[1..], w, id);
    }
  }

  /** A newly created record is what a click on its list item finds, when its id is new. */
  lemma NewestIsFound(ws: seq<Workout>, w: Workout)
    requires forall i :: 0 <= i < |ws| ==> ws[i].id != w.id
    ensures FindById(ws + [w], w.id) == Some(w)
  {
    FindAfterAppend(ws, w, w.id);
  }

  /** Where a click on the workout list sends the map. */
  datatype MarkerMove =
    | Ignored                  // the click is not inside a workout item
    | PanTo(coords: Coords)    // `setView` on the matching workout's coordinates
    | UnknownId                // no workout has the item's id: reading `.coords` throws

  class App {
    var workouts: seq<Workout>
    var mapEvent: Option<Coords>
    var stored: Option<seq<Workout>>

    /** The storage key holds the session list, or is absent while the list is empty. */
    ghost predicate InSync()
      reads this
    {
      stored == Some(workouts) || (stored.None? && workouts == [])
    }

    /** `new App()`: `_getLocalStorage` adopts the saved list when there is one. */
    constructor (saved: Option<seq<Workout>>)
      ensures workouts == (if saved.Some? then saved.value else [])
      ensures stored == saved && mapEvent == None
      ensures InSync()
    {
      workouts := if saved.Some? then saved.value else [];
      stored := saved;
      mapEvent := None;
    }

    /** `_showForm`: remembers the clicked point for the next submit. */
    method ShowForm(click: Coords)
      modifies this`mapEvent
      ensures mapEvent == Some(click)
      ensures workouts == old(workouts) && stored == old(stored)
    {
      mapEvent := Some(click);
    }

    /**
     * `_newWorkOut`: on an accepted submission one record is appended and the
     * whole list is written to storage; otherwise nothing changes.
     */
    method NewWorkout(kind: Kind, distance: JsNumber, duration: JsNumber, cadence: JsNumber,
                      elevGain: JsNumber, now: nat, date: CalendarDate) returns (r: Submission)
      modifies this`workouts, this`stored
      ensures r == Submit(mapEvent, kind, distance, duration, cadence, elevGain, now, date)
      ensures r.Created? ==> workouts == old(workouts) + [r.workout] && stored == Some(workouts)
      ensures !r.Created? ==> workouts == old(workouts) && stored == old(stored)
      ensures old(InSync()) ==> InSync()
    {
      r := Submit(mapEvent, kind, distance, duration, cadence, elevGain, now, date);
      if !r.Created? {
        return;
      }
      workouts := workouts + [r.workout];
      stored := Some(workouts);
    }

    /** `_moveToMarker`: `item` is the `data-id` of the clicked workout item, if any. */
    method MoveToMarker(item: Option<string>) returns (move: MarkerMove)
      ensures item.None? <==> move.Ignored?
      ensures item.Some? ==>
        (move.UnknownId? <==> forall i :: 0 <= i < |workouts| ==> workouts[i].id != item.value)
      ensures move.PanTo? ==>
        exists i :: 0 <= i < |workouts| && workouts[i].id == item.value
                    && move.coords == workouts[i].coords
                    && forall j :: 0 <= j < i ==> workouts[j].id != item.value
    {
      if item.None? {
        return Ignored;
      }
      var found := FindById(workouts, item.value);
      if found.None? {
        return UnknownId;
      }
      move := PanTo(found.value.coords);
    }
  }

  /** A session as the page drives it: click, a refused submit, an accepted one, a list click. */
  method Session(click: Coords, now: nat, date: CalendarDate)
  {
    var app := new App(None);
    app.ShowForm(click);
    SubmitAcceptsExactly(click, Running, Finite(0.0), Finite(25.0), Finite(180.0), NaN, now, date);
    var refused := app.NewWorkout(Running, Finite(0.0), Finite(25.0), Finite(180.0), NaN, now, date);
    assert !refused.Created? && app.workouts == [] && app.stored == None;
    SubmitAcceptsExactly(click, Cycling, Finite(20.0), Finite(60.0), NaN, Finite(-30.0), now, date);
    var made := app.NewWorkout(Cycling, Finite(20.0), Finite(60.0), NaN, Finite(-30.0), now, date);
    assert made.Created? && app.workouts == [] + [made.workout] && app.stored == Some(app.workouts);
    NewestIsFound([], made.workout);
    var move := app.MoveToMarker(Some(made.workout.id));
    assert move == PanTo(click);
  }
}
