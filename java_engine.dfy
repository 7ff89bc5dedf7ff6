/** The console edition of the engine (Consequence.java): a `GameState`
    object whose fields the `NarrativeEngine` updates in place, a scene table
    filled by `put`, an ending list searched in order, and the console loop
    that reads one line per turn. Console input is a sequence of already
    classified lines; nothing is printed. */
module JavaEngine {
  import opened Story

  const TheEnd: string := "THE_END"
  const StartScene: string := "intro"
  const FallbackId: string := "ending_lone_survivor"

  datatype Choice = Choice(
    id: string,
    deltaMorality: int,
    deltaTrauma: int,
    deltaStress: int,
    goToSceneId: string,
    afterEffect: seq<FlagOp>)

  /** A scene; the empty `onEnter` sequence stands for a null hook (every
      scene of the console edition is built without one). */
  datatype Scene = Scene(id: string, onEnter: seq<FlagOp>, choices: seq<Choice>)

  /** The fields of a `GameState`, as one value. */
  datatype View = View(
    day: int,
    hour: int,
    morality: int,
    trauma: int,
    stress: int,
    currentSceneId: string,
    flags: set<string>)

  /** The field initialisers of `GameState`. */
  function FreshView(): (v: View)
    ensures v.day == 0 && v.hour == 8 && v.morality == 0 && v.trauma == 10 && v.stress == 10
    ensures v.currentSceneId == StartScene && v.flags == {}
  {
    View(0, 8, 0, 10, 10, StartScene, {})
  }

  /** Stats in range, hour of day in [0, 24), no negative day. */
  predicate Valid(v: View)
  {
    StatsInRange(v.morality, v.trauma, v.stress) && 0 <= v.hour < 24 && 0 <= v.day
  }

  class GameState {
    var day: int
    var hour: int
    var morality: int
    var trauma: int
    var stress: int
    var currentSceneId: string
    var flags: set<string>

    constructor ()
      ensures Fields() == FreshView()
    {
      day, hour := 0, 8;
      morality, trauma, stress := 0, 10, 10;
      currentSceneId := StartScene;
      flags := {};
    }

    function Fields(): View
      reads this
    {
      View(day, hour, morality, trauma, stress, currentSceneId, flags)
    }
  }

  // ---------------------------------------------------------------------
  // One choice, as functions of the state's fields
  // ---------------------------------------------------------------------

  /** The fields after `applyEffects(choice)`: a zero delta is skipped, any
      other is added and clamped. */
  function WithEffects(v: View, c: Choice): (r: View)
    ensures r.day == v.day && r.hour == v.hour && r.currentSceneId == v.currentSceneId && r.flags == v.flags
    ensures StatsInRange(v.morality, v.trauma, v.stress) ==> StatsInRange(r.morality, r.trauma, r.stress)
  {
    v.(morality := Nudge(v.morality, c.deltaMorality, MoralityMin, MoralityMax),
       trauma := Nudge(v.trauma, c.deltaTrauma, GaugeMin, GaugeMax),
       stress := Nudge(v.stress, c.deltaStress, GaugeMin, GaugeMax))
  }

  /** The fields after `advanceTime(hours)`: `Math.max(0, hours)` hours. */
  function WithClock(v: View, hours: int): (r: View)
    ensures r.day * 24 + r.hour == v.day * 24 + v.hour + (if hours > 0 then hours else 0)
    ensures 0 <= v.hour ==> 0 <= r.hour < 24
    ensures hours <= 0 && v.hour < 24 ==> r == v
    ensures r == v.(day := r.day, hour := r.hour)
  {
    var (d, h) := Rolled(v.day, v.hour + (if hours > 0 then hours else 0));
    v.(day := d, hour := h)
  }

  /** The fields after `goTo(sceneId)`: the id always becomes current; a
      known scene's `onEnter` runs; a missing one is tolerated silently. */
  function WithGoTo(scenes: map<string, Scene>, v: View, sceneId: string): (r: View)
    ensures r.currentSceneId == sceneId && v.flags <= r.flags
    ensures sceneId !in scenes ==> r.flags == v.flags
    ensures r.day == v.day && r.hour == v.hour
    ensures r.morality == v.morality && r.trauma == v.trauma && r.stress == v.stress
  {
    HookOnlyAdds(v.flags, if sceneId in scenes then scenes[sceneId].onEnter else []);
    v.(currentSceneId := sceneId,
       flags := if sceneId in scenes then ApplyHook(v.flags, scenes[sceneId].onEnter) else v.flags)
  }

  /** The fields after `selectChoice(choice)`: effects, after-hook, one
      hour, then `goTo`. */
  function AfterChoice(scenes: map<string, Scene>, v: View, c: Choice): (r: View)
    ensures r.day * 24 + r.hour == v.day * 24 + v.hour + 1
    ensures r.currentSceneId == c.goToSceneId && v.flags <= r.flags
  {
    HookOnlyAdds(v.flags, c.afterEffect);
    var affected := WithEffects(v, c);
    WithGoTo(scenes, WithClock(affected.(flags := ApplyHook(affected.flags, c.afterEffect)), 1), c.goToSceneId)
  }

  // ---------------------------------------------------------------------
  // Endings
  // ---------------------------------------------------------------------

  /** `buildEndings()` order. */
  const JavaEndings: seq<Ending> := [Bloomborne, Tyrant, Manipulator, Ghost, Saint, LoneSurvivor]

  /** `pickEnding()` tries the endings in the order `buildEndings()` adds them. */
  lemma JavaEndingsOrder()
    ensures Ids(JavaEndings) == ["ending_bloomborne", "ending_tyrant", "ending_manipulator",
                                 "ending_ghost", "ending_saint", "ending_lone_survivor"]
  {
  }

  /** `endings.stream().filter(e -> e.id.equals(id)).findFirst()` */
  function FindById(endings: seq<Ending>, id: string): (r: Option<nat>)
    ensures r.Some? ==> r.value < |endings| && endings[r.value].id == id
    ensures r.Some? ==> forall j :: 0 <= j < r.value ==> endings[j].id != id
    ensures r.None? ==> forall j :: 0 <= j < |endings| ==> endings[j].id != id
    decreases |endings|
  {
    if endings == [] then None
    else if endings[0].id == id then Some(0)
    else match FindById(endings[1..], id)
      case None => None
      case Some(i) => Some(i + 1)
  }

  /** The ending `pickEnding()` returns when no criteria hold: the first
      `ending_lone_survivor`, else the last ending. */
  function Fallback(endings: seq<Ending>): (e: Ending)
    requires |endings| > 0
    ensures e in endings
  {
    match FindById(endings, FallbackId)
    case Some(i) => endings[i]
    case None => endings[|endings| - 1]
  }

  /** `pickEnding()` on an ending list: the first whose criteria hold, else
      the fallback. An empty list makes `endings.get(-1)` throw, so the list
      must be non-empty. */
  function Resolve(endings: seq<Ending>, v: View): (e: Ending)
    requires |endings| > 0
    ensures e in endings
  {
    match FirstMatchIndex(endings, v.morality, v.trauma, v.flags)
    case Some(i) => endings[i]
    case None => Fallback(endings)
  }

  // ---------------------------------------------------------------------
  // The scene table
  // ---------------------------------------------------------------------

  /** The table `buildScenes()` fills with one `put` per scene: a later
      scene with the same id replaces an earlier one. */
  function SceneTable(defs: seq<Scene>): (table: map<string, Scene>)
    ensures forall id :: id in table ==> table[id].id == id
    ensures forall i :: 0 <= i < |defs| ==> defs[i].id in table
    ensures forall id :: id in table ==> exists i :: 0 <= i < |defs| && defs[i] == table[id]
    decreases |defs|
  {
    if defs == [] then map[]
    else
      var last := defs[|defs| - 1];
      var before := SceneTable(defs[..|defs| - 1]);
      assert forall i :: 0 <= i < |defs| - 1 ==> defs[..|defs| - 1][i] == defs[i];
      before[last.id := last]
  }

  // ---------------------------------------------------------------------
  // The console loop
  // ---------------------------------------------------------------------

  /** One line of console input, as `run()` classifies it. */
  datatype Input = Quit | Number(n: int) | NotANumber

  datatype RunOutcome =
    | Ended(ending: Ending, missingScene: bool)  // an ending is rendered
    | Exited                                   // "q"
    | InputExhausted                           // `nextLine()` finds no line and throws

  /** `run()` from its loop head, as a function of the fields and the lines
      still to be read: the final fields and how the loop ended. */
  function RunFrom(scenes: map<string, Scene>, endings: seq<Ending>, v: View, inputs: seq<Input>): (r: (View, RunOutcome))
    requires |endings| > 0
    ensures r.1.Ended? ==> r.1.ending in endings
    decreases |inputs|
  {
    if v.currentSceneId !in scenes then (v, Ended(Resolve(endings, v), true))
    else if inputs == [] then (v, InputExhausted)
    else
      var offered := FirstFour(scenes[v.currentSceneId].choices);
      match inputs[0]
      case Quit => (v, Exited)
      case NotANumber => RunFrom(scenes, endings, v, inputs[1..])
      case Number(n) =>
        if n - 1 < 0 || n - 1 >= |offered| then RunFrom(scenes, endings, v, inputs[1..])
        else
          var next := AfterChoice(scenes, v, offered[n - 1]);
          if next.currentSceneId == TheEnd then (next, Ended(Resolve(endings, next), false))
          else RunFrom(scenes, endings, next, inputs[1..])
  }

  class NarrativeEngine {
    const idToScene: map<string, Scene>
    const endings: seq<Ending>
    const state: GameState

    ghost predicate Built()
      reads this
    {
      endings == JavaEndings
    }

    /** `new NarrativeEngine()`: `buildEndings()`, then one `put` per scene. */
    constructor (defs: seq<Scene>)
      ensures Built() && fresh(state)
      ensures idToScene == SceneTable(defs)
      ensures state.Fields() == FreshView()
    {
      endings := JavaEndings;
      var table: map<string, Scene> := map[];
      var i := 0;
      while i < |defs|
        invariant 0 <= i <= |defs|
        invariant table == SceneTable(defs[..i])
      {
        assert defs[..i + 1][..i] == defs[..i];
        table := table[defs[i].id := defs[i]];
        i := i + 1;
      }
      assert defs[..i] == defs;
      idToScene := table;
      state := new GameState();
    }

    method ApplyEffects(c: Choice)
      modifies state
      ensures state.Fields() == WithEffects(old(state.Fields()), c)
    {
      if c.deltaMorality != 0 { state.morality := Clamp(state.morality + c.deltaMorality, MoralityMin, MoralityMax); }
      if c.deltaTrauma != 0 { state.trauma := Clamp(state.trauma + c.deltaTrauma, GaugeMin, GaugeMax); }
      if c.deltaStress != 0 { state.stress := Clamp(state.stress + c.deltaStress, GaugeMin, GaugeMax); }
    }

    method AdvanceTime(hours: int)
      modifies state
      ensures state.Fields() == WithClock(old(state.Fields()), hours)
    {
      var total := state.hour + (if hours > 0 then hours else 0);
      ghost var d0, t0 := state.day, total;
      while total >= 24
        invariant state.Fields() == old(state.Fields()).(day := state.day)
        invariant state.day * 24 + total == d0 * 24 + t0
        invariant t0 >= 24 ==> total >= 0
        invariant t0 < 24 ==> total == t0 && state.day == d0
        decreases total
      {
        total := total - 24;
        state.day := state.day + 1;
      }
      state.hour := total;
    }

    method GoTo(sceneId: string)
      modifies state
      ensures state.Fields() == WithGoTo(idToScene, old(state.Fields()), sceneId)
    {
      state.currentSceneId := sceneId;
      if sceneId in idToScene && idToScene[sceneId].onEnter != [] {
        state.flags := ApplyHook(state.flags, idToScene[sceneId].onEnter);
      }
    }

    method SelectChoice(c: Choice)
      modifies state
      ensures state.Fields() == AfterChoice(idToScene, old(state.Fields()), c)
    {
      ApplyEffects(c);
      if c.afterEffect != [] {
        state.flags := ApplyHook(state.flags, c.afterEffect);
      }
      AdvanceTime(1);
      GoTo(c.goToSceneId);
    }

    /** The first ending in list order whose criteria hold, else the
        fallback. */
    method PickEnding() returns (e: Ending)
      requires |endings| > 0
      ensures e == Resolve(endings, state.Fields())
      ensures Holds(e.criteria, state.morality, state.trauma, state.flags) || e == Fallback(endings)
    {
      var i := 0;
      while i < |endings|
        invariant 0 <= i <= |endings|
        invariant forall j :: 0 <= j < i ==> !Holds(endings[j].criteria, state.morality, state.trauma, state.flags)
      {
        if Holds(endings[i].criteria, state.morality, state.trauma, state.flags) {
          FirstMatchIndexIs(endings, state.morality, state.trauma, state.flags, i);
          return endings[i];
        }
        i := i + 1;
      }
      var lone := FindById(endings, FallbackId);
      e := if lone.Some? then endings[lone.value] else endings[|endings| - 1];
    }

    /** `run()`: `goTo("intro")`, then one turn per input line until an
        ending, "q", or the end of input. */
    method Run(inputs: seq<Input>) returns (outcome: RunOutcome)
      requires Built()
      modifies state
      ensures (state.Fields(), outcome) == RunFrom(idToScene, endings, WithGoTo(idToScene, old(state.Fields()), StartScene), inputs)
    {
      GoTo(StartScene);
      var rest := inputs;
      while true
        invariant |rest| <= |inputs|
        invariant RunFrom(idToScene, endings, state.Fields(), rest) ==
                  RunFrom(idToScene, endings, WithGoTo(idToScene, old(state.Fields()), StartScene), inputs)
        decreases |rest|
      {
        if state.currentSceneId !in idToScene {
          var e := PickEnding();
          return Ended(e, true);
        }
        var scene := idToScene[state.currentSceneId];
        var choices := FirstFour(scene.choices);
        if rest == [] {
          return InputExhausted;
        }
        var input := rest[0];
        rest := rest[1..];
        match input {
          case Quit =>
            return Exited;
          case NotANumber =>
            continue;
          case Number(n) =>
            var idx := n - 1;
            if idx < 0 || idx >= |choices| {
              continue;
            }
            SelectChoice(choices[idx]);
            if state.currentSceneId == TheEnd {
              var e := PickEnding();
              return Ended(e, false);
            }
        }
      }
    }
  }

  // ---------------------------------------------------------------------
  // What the console edition guarantees
  // ---------------------------------------------------------------------

  /** One choice keeps the stats in range and the clock proper. */
  lemma ChoiceKeepsValid(scenes: map<string, Scene>, v: View, c: Choice)
    requires Valid(v)
    ensures Valid(AfterChoice(scenes, v, c))
  {
  }

  /** A zero delta leaves its stat alone and any other moves it to the
      clamped sum; every choice takes exactly one hour and makes its target
      current. */
  lemma ChoiceEffects(scenes: map<string, Scene>, v: View, c: Choice)
    ensures var r := AfterChoice(scenes, v, c);
      r.day * 24 + r.hour == v.day * 24 + v.hour + 1 && r.currentSceneId == c.goToSceneId
    ensures var r := AfterChoice(scenes, v, c);
      (c.deltaMorality == 0 ==> r.morality == v.morality) &&
      (c.deltaTrauma == 0 ==> r.trauma == v.trauma) &&
      (c.deltaStress == 0 ==> r.stress == v.stress)
    ensures var r := AfterChoice(scenes, v, c);
      (c.deltaMorality != 0 ==> r.morality == Clamp(v.morality + c.deltaMorality, MoralityMin, MoralityMax)) &&
      (c.deltaTrauma != 0 ==> r.trauma == Clamp(v.trauma + c.deltaTrauma, GaugeMin, GaugeMax)) &&
      (c.deltaStress != 0 ==> r.stress == Clamp(v.stress + c.deltaStress, GaugeMin, GaugeMax))
  {
  }

  /** Every turn of the console loop keeps the fields valid, whatever the
      input. */
  lemma {:induction false} RunKeepsValid(scenes: map<string, Scene>, endings: seq<Ending>, v: View, inputs: seq<Input>)
    requires |endings| > 0 && Valid(v)
    ensures Valid(RunFrom(scenes, endings, v, inputs).0)
    decreases |inputs|
  {
    if v.currentSceneId in scenes && inputs != [] {
      var offered := FirstFour(scenes[v.currentSceneId].choices);
      match inputs[0]
      case Quit =>
      case NotANumber => RunKeepsValid(scenes, endings, v, inputs[1..]);
      case Number(n) =>
        if 0 <= n - 1 < |offered| {
          ChoiceKeepsValid(scenes, v, offered[n - 1]);
          RunKeepsValid(scenes, endings, AfterChoice(scenes, v, offered[n - 1]), inputs[1..]);
        } else {
          RunKeepsValid(scenes, endings, v, inputs[1..]);
        }
    }
  }

  /** The loop only ends with an ending when the current scene is missing
      or is the terminal sentinel, and the ending is resolved against the
      final fields. */
  lemma {:induction false} RunEndsWhere(scenes: map<string, Scene>, endings: seq<Ending>, v: View, inputs: seq<Input>)
    requires |endings| > 0
    ensures var (r, outcome) := RunFrom(scenes, endings, v, inputs);
      outcome.Ended? ==>
        (outcome.ending == Resolve(endings, r) &&
         if outcome.missingScene then r.currentSceneId !in scenes else r.currentSceneId == TheEnd)
    decreases |inputs|
  {
    if v.currentSceneId in scenes && inputs != [] {
      var offered := FirstFour(scenes[v.currentSceneId].choices);
      match inputs[0]
      case Quit =>
      case NotANumber => RunEndsWhere(scenes, endings, v, inputs[1..]);
      case Number(n) =>
        if 0 <= n - 1 < |offered| {
          var next := AfterChoice(scenes, v, offered[n - 1]);
          if next.currentSceneId != TheEnd {
            RunEndsWhere(scenes, endings, next, inputs[1..]);
          }
        } else {
          RunEndsWhere(scenes, endings, v, inputs[1..]);
        }
    }
  }

  /** An index outside the offered choices (or an unparsable line) changes
      no state: the loop just reads the next line. At most four choices are
      offered, so "5" is always ignored. */
  lemma IgnoredInputs(scenes: map<string, Scene>, endings: seq<Ending>, v: View, inputs: seq<Input>)
    requires |endings| > 0 && v.currentSceneId in scenes && inputs != []
    requires inputs[0].NotANumber? ||
             (inputs[0].Number? && !(1 <= inputs[0].n <= |FirstFour(scenes[v.currentSceneId].choices)|))
    ensures RunFrom(scenes, endings, v, inputs) == RunFrom(scenes, endings, v, inputs[1..])
  {
  }

  lemma FifthChoiceIgnored(scenes: map<string, Scene>, endings: seq<Ending>, v: View, rest: seq<Input>)
    requires |endings| > 0 && v.currentSceneId in scenes
    ensures RunFrom(scenes, endings, v, [Number(5)] + rest) == RunFrom(scenes, endings, v, rest)
  {
    assert ([Number(5)] + rest)[1..] == rest;
  }

  /** `pickEnding()` returns the first ending in list order whose criteria
      hold. */
  lemma ResolveFirstMatch(endings: seq<Ending>, v: View, i: nat)
    requires i < |endings| && Holds(endings[i].criteria, v.morality, v.trauma, v.flags)
    requires forall j :: 0 <= j < i ==> !Holds(endings[j].criteria, v.morality, v.trauma, v.flags)
    ensures Resolve(endings, v) == endings[i]
  {
    FirstMatchIndexIs(endings, v.morality, v.trauma, v.flags, i);
  }

  /** With no criteria holding, `pickEnding()` returns the first
      `ending_lone_survivor` in the list, or the last ending when there is
      none. */
  lemma ResolveFallback(endings: seq<Ending>, v: View)
    requires |endings| > 0
    requires forall j :: 0 <= j < |endings| ==> !Holds(endings[j].criteria, v.morality, v.trauma, v.flags)
    ensures (exists j :: 0 <= j < |endings| && endings[j].id == FallbackId) ==> Resolve(endings, v).id == FallbackId
    ensures (forall j :: 0 <= j < |endings| ==> endings[j].id != FallbackId) ==> Resolve(endings, v) == endings[|endings| - 1]
  {
  }
}
