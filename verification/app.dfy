/** The workout list of the `App` class in script.js and its storage slot: the data path
    of `_newWorkout`, the lookup of `_moveToPopup`, and `_setLocaleStorage` /
    `_getLocaleStorage`.

    The storage slot stands for the "workouts" key of `localStorage` together with the
    JSON text in it: `None` is a missing key (`getItem` gives `null`, which `JSON.parse`
    turns into `null`), `Some(ws)` is a stored list. */
module App {
  import opened Options
  import opened Numbers
  import opened Workouts

  /** What `_newWorkout` reads from the form: the selected type and the numbers `+value`
      makes of the four inputs (an empty input reads as 0). */
  datatype Form = Form(kind: Kind, distance: Num, duration: Num, cadence: Num, elevGain: Num)

  /** One submission: the form, the coordinates of the last map click, and the moment
      the workout object would be created. */
  datatype Submission = Submission(form: Form, coords: Coords, moment: Moment)

  /** `#workouts` and the storage slot. */
  datatype State = State(workouts: seq<Workout>, slot: Option<seq<Workout>>)

  /** The three numbers checked for the selected type: distance, duration, and the
      cadence of a run or the elevation gain of a ride. */
  function Checked(f: Form): seq<Num> {
    [f.distance, f.duration, if f.kind == Running then f.cadence else f.elevGain]
  }

  /** The early-return test of `_newWorkout`: both `validInputs` and `allPositive` must
      hold of the checked numbers. Every one of them must be finite and strictly
      positive, so a zero cadence or a zero elevation gain is refused just like a zero
      distance. The input of the type not selected plays no part. */
  predicate Accepts(f: Form)
    ensures Accepts(f) <==>
      && PositiveFinite(f.distance)
      && PositiveFinite(f.duration)
      && (f.kind == Running ==> PositiveFinite(f.cadence))
      && (f.kind == Cycling ==> PositiveFinite(f.elevGain))
  {
    GateOfThree(f.distance, f.duration, Checked(f)[2]);
    ValidInputs(Checked(f)) && AllPositive(Checked(f))
  }

  /** `new Running(...)` or `new Cycling(...)` for the selected type. */
  function Build(s: Submission): (w: Workout)
    requires Accepts(s.form)
    ensures WellFormed(w)
    ensures w.Type() == s.form.kind
    ensures w.coords == s.coords && w.moment == s.moment
    ensures w.distance == s.form.distance.value && w.duration == s.form.duration.value
    ensures w.Type() == Running ==> w.detail.cadence == s.form.cadence.value
    ensures w.Type() == Cycling ==> w.detail.elevGain == s.form.elevGain.value
  {
    var f := s.form;
    if f.kind == Running then
      NewRunning(s.coords, f.distance.value, f.duration.value, f.cadence.value, s.moment)
    else
      NewCycling(s.coords, f.distance.value, f.duration.value, f.elevGain.value, s.moment)
  }

  /** `_setLocaleStorage`: the whole list is written to the slot. */
  function Save(st: State): (r: State)
    ensures r.workouts == st.workouts
    ensures r.slot.Some? && r.slot.value == st.workouts
  {
    st.(slot := Some(st.workouts))
  }

  /** `_getLocaleStorage`: a missing slot leaves the list as it is; a stored list, even
      an empty one, replaces it. The slot itself is not changed. */
  function Load(st: State): (r: State)
    ensures r.slot == st.slot
    ensures st.slot.None? ==> r.workouts == st.workouts
    ensures st.slot.Some? ==> r.workouts == st.slot.value
  {
    match st.slot
    case None => st
    case Some(stored) => st.(workouts := stored)
  }

  /** The `App` constructor's part in the list: it starts empty and is then loaded from
      the slot. */
  function Start(slot: Option<seq<Workout>>): (r: State)
    ensures r.slot == slot
    ensures r.workouts == slot.GetOr([])
  {
    Load(State([], slot))
  }

  /** `_newWorkout`: a refused form returns before anything is touched; an accepted
      one appends exactly one new workout at the end of the list and saves the list. */
  function NewWorkout(st: State, s: Submission): (r: State)
    ensures !Accepts(s.form) ==> r == st
    ensures Accepts(s.form) ==>
      && |r.workouts| == |st.workouts| + 1
      && r.workouts[..|st.workouts|] == st.workouts
      && r.workouts[|st.workouts|] == Build(s)
      && r.slot == Some(r.workouts)
  {
    if !Accepts(s.form) then st
    else Save(st.(workouts := st.workouts + [Build(s)]))
  }

  /** `#workouts.find(work => work.id === id)`: the first workout in list order with the
      given id, or nothing when no id matches. */
  function Find(ws: seq<Workout>, id: string): (r: Option<Workout>)
    ensures r.None? <==> forall i | 0 <= i < |ws| :: ws[i].id != id
    ensures r.Some? ==> exists i | 0 <= i < |ws| :: ws[i] == r.value && FirstWithId(ws, id, i)
  {
    if |ws| == 0 then None
    else if ws[0].id == id then
      assert FirstWithId(ws, id, 0);
      Some(ws[0])
    else
      var r := Find(ws[1..], id);
      assert r.Some? ==> exists i | 0 <= i < |ws| :: ws[i] == r.value && FirstWithId(ws, id, i) by {
        if r.Some? {
          var i :| 0 <= i < |ws[1..]| && ws[1..][i] == r.value && FirstWithId(ws[1..], id, i);
          assert FirstWithId(ws, id, i + 1);
        }
      }
      r
  }

  /** `ws[i]` is the earliest workout in `ws` whose id is `id`. */
  ghost predicate FirstWithId(ws: seq<Workout>, id: string, i: int) {
    && 0 <= i < |ws|
    && ws[i].id == id
    && forall j | 0 <= j < i :: ws[j].id != id
  }

  /** Appending a workout does not change what a lookup already finds; a lookup that
      found nothing before finds the new workout exactly when its id matches. */
  lemma {:induction false} FindAfterAppend(ws: seq<Workout>, w: Workout, id: string)
    ensures Find(ws + [w], id) ==
      if Find(ws, id).Some? then Find(ws, id)
      else if w.id == id then Some(w)
      else None
  {
    if |ws| > 0 {
      assert (ws + [w])[1..] == ws[1..] + [w];
      FindAfterAppend(ws[1..], w, id);
    }
  }

  /** After an accepted submission whose id no earlier workout carries, clicking the new
      list item finds the new workout. */
  lemma FindNewWorkout(st: State, s: Submission)
    requires Accepts(s.form)
    requires forall i | 0 <= i < |st.workouts| :: st.workouts[i].id != Build(s).id
    ensures Find(NewWorkout(st, s).workouts, Build(s).id) == Some(Build(s))
  {
  }

  /** Ids repeat every 10^10 milliseconds, so a workout created that long after another
      is shadowed by it: clicking the newer one's list item finds the older one. */
  lemma FindAfterIdRepeat(st: State, s1: Submission, s2: Submission)
    requires Accepts(s1.form) && Accepts(s2.form)
    requires s1.moment.millis >= 1_000_000_000
    requires s2.moment.millis == s1.moment.millis + IdPeriod
    requires forall i | 0 <= i < |st.workouts| :: st.workouts[i].id != Build(s1).id
    ensures Build(s2).id == Build(s1).id
    ensures Find(NewWorkout(NewWorkout(st, s1), s2).workouts, Build(s2).id) == Some(Build(s1))
  {
    IdRepeats(s1.moment.millis);
    var mid := NewWorkout(st, s1);
    FindAfterAppend(st.workouts, Build(s1), Build(s1).id);
    FindAfterAppend(mid.workouts, Build(s2), Build(s1).id);
  }

  /** Every workout in the list and in the slot is well formed. */
  ghost predicate Valid(st: State) {
    && (forall i | 0 <= i < |st.workouts| :: WellFormed(st.workouts[i]))
    && (st.slot.Some? ==> forall i | 0 <= i < |st.slot.value| :: WellFormed(st.slot.value[i]))
  }

  lemma ValidPreserved(st: State, s: Submission)
    requires Valid(st)
    ensures Valid(Save(st)) && Valid(Load(st)) && Valid(NewWorkout(st, s))
  {
  }

  /** A reload at this point would show the list as it is now. */
  predicate Durable(st: State) {
    Start(st.slot).workouts == st.workouts
  }

  /** Right after start-up, and after every save, a reload shows the current list. */
  lemma DurableAfterStartAndSave(slot: Option<seq<Workout>>, st: State)
    ensures Durable(Start(slot))
    ensures Durable(Save(st))
  {
  }

  lemma DurablePreserved(st: State, s: Submission)
    requires Durable(st)
    ensures Durable(NewWorkout(st, s))
  {
  }

  /** The submissions of a session, in order. */
  function SubmitAll(st: State, subs: seq<Submission>): State
    decreases |subs|
  {
    if |subs| == 0 then st else SubmitAll(NewWorkout(st, subs[0]), subs[1..])
  }

  /** The workouts the accepted submissions create, in submission order. */
  function Accepted(subs: seq<Submission>): seq<Workout> {
    if |subs| == 0 then []
    else (if Accepts(subs[0].form) then [Build(subs[0])] else []) + Accepted(subs[1..])
  }

  /** A session appends the workouts of its accepted submissions, in order, to the list
      it started with. */
  lemma {:induction false} SubmitAllAppends(st: State, subs: seq<Submission>)
    ensures SubmitAll(st, subs).workouts == st.workouts + Accepted(subs)
    decreases |subs|
  {
    if |subs| > 0 {
      var next := NewWorkout(st, subs[0]);
      var head := if Accepts(subs[0].form) then [Build(subs[0])] else [];
      assert next.workouts == st.workouts + head;
      SubmitAllAppends(next, subs[1..]);
      assert Accepted(subs) == head + Accepted(subs[1..]);
    }
  }

  /** A session keeps the slot in step with the list: if a reload would show the list
      before it, a reload shows the list after it. */
  lemma {:induction false} SubmitAllDurable(st: State, subs: seq<Submission>)
    requires Durable(st)
    ensures Durable(SubmitAll(st, subs))
    decreases |subs|
  {
    if |subs| > 0 {
      DurablePreserved(st, subs[0]);
      SubmitAllDurable(NewWorkout(st, subs[0]), subs[1..]);
    }
  }

  /** Across a reload: start from the slot, submit a session's forms, reload, and the
      list is the stored history followed by the accepted workouts. */
  lemma SessionSurvivesReload(slot: Option<seq<Workout>>, subs: seq<Submission>)
    ensures Start(SubmitAll(Start(slot), subs).slot).workouts == slot.GetOr([]) + Accepted(subs)
  {
    SubmitAllAppends(Start(slot), subs);
    DurableAfterStartAndSave(slot, Start(slot));
    SubmitAllDurable(Start(slot), subs);
  }
}
