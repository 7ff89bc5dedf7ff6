/** The browser edition of the engine (the `ConsequenceGame` class of
    script_5MB_FIXED.js). The game object owns one state record, replaced
    wholesale on restart and load and otherwise updated field by field by
    the effect applicator, the hooks, the clock and the scene transition.
    Each method of `Game` is proved against a function of the old state;
    the lemmas below the class state what those functions guarantee. */
module JsEngine {
  import opened Story
  import opened Text

  /** The terminal sentinel a choice's `goTo` may name. */
  const TheEnd: string := "THE_END"
  const StartScene: string := "intro"

  /** The css class a log entry is tagged with. */
  datatype Category = ConsequenceNote | WorldEvent | Discovery | TraumaNote

  /** `{ t, message, cssClass }`; `t` is the opaque timestamp. */
  datatype LogEntry = LogEntry(t: int, message: string, category: Category)

  datatype State = State(
    day: int,
    hour: int,
    morality: int,
    trauma: int,
    stress: int,
    inventory: seq<string>,
    flags: set<string>,
    currentSceneId: string,
    eventLog: seq<LogEntry>)

  /** A choice's `effects` object, as `Object.entries` lists it: keys in
      insertion order with their numeric values. An object holds each key
      once, so only sequences without a repeated key stand for one; on the
      others `Delta` reads the first entry of a key. */
  type Effects = seq<(string, int)>

  datatype Choice = Choice(id: string, effects: Effects, goTo: string, after: seq<FlagOp>)

  /** A scene of `SCENES`; the empty `onEnter` sequence stands for no hook. */
  datatype Scene = Scene(choices: seq<Choice>, onEnter: seq<FlagOp>)

  /** `createInitialState()`. */
  function InitialState(): (s: State)
    ensures s.day == 0 && s.hour == 8
    ensures s.morality == 0 && s.trauma == 10 && s.stress == 10
    ensures s.inventory == [] && s.flags == {} && s.eventLog == []
    ensures s.currentSceneId == StartScene
  {
    State(0, 8, 0, 10, 10, [], {}, StartScene, [])
  }

  /** The invariant the play loop keeps: stats in range, hour of day in
      [0, 24), no negative day. */
  predicate Valid(s: State)
  {
    StatsInRange(s.morality, s.trauma, s.stress) && 0 <= s.hour < 24 && 0 <= s.day
  }

  // ---------------------------------------------------------------------
  // Effects
  // ---------------------------------------------------------------------

  /** `effects[key]` read as a number: an absent key reads as 0, which is as
      falsy as an explicit 0. */
  function Delta(effects: Effects, key: string): int
    decreases |effects|
  {
    if effects == [] then 0
    else if effects[0].0 == key then effects[0].1
    else Delta(effects[1..], key)
  }

  /** The entries with a truthy (nonzero) value, in order. */
  function NonzeroEntries(effects: Effects): (r: Effects)
    ensures |r| <= |effects|
    decreases |effects|
  {
    if effects == [] then []
    else (if effects[0].1 != 0 then [effects[0]] else []) + NonzeroEntries(effects[1..])
  }

  /** An entry is kept exactly when it is an entry with a nonzero value. */
  lemma {:induction false} NonzeroEntriesMembers(effects: Effects)
    ensures forall p :: p in NonzeroEntries(effects) <==> p in effects && p.1 != 0
    decreases |effects|
  {
    if effects != [] {
      NonzeroEntriesMembers(effects[1..]);
      assert forall p :: p in effects <==> p == effects[0] || p in effects[1..];
    }
  }

  /** `${k} ${v >= 0 ? "+" : ""}${v}` */
  function PartText(k: string, v: int): string
  {
    k + " " + (if v >= 0 then "+" else "") + IntToString(v)
  }

  /** The texts of the nonzero entries, in entry order. */
  function Parts(effects: Effects): seq<string>
    decreases |effects|
  {
    if effects == [] then []
    else (if effects[0].1 != 0 then [PartText(effects[0].0, effects[0].1)] else []) + Parts(effects[1..])
  }

  /** One step of `Parts` over a suffix. */
  lemma PartsStep(effects: Effects, i: nat)
    requires i < |effects|
    ensures Parts(effects[i..]) ==
      (if effects[i].1 != 0 then [PartText(effects[i].0, effects[i].1)] else []) + Parts(effects[i + 1..])
  {
    assert effects[i..][1..] == effects[i + 1..];
  }

  lemma ConcatAssoc<T>(a: seq<T>, b: seq<T>, c: seq<T>)
    ensures (a + b) + c == a + (b + c)
  {
  }

  /** The texts built so far followed by those of the rest are all the
      texts, one entry further on. */
  lemma PartsFrom(effects: Effects, i: nat, parts: seq<string>)
    requires i < |effects|
    requires parts + Parts(effects[i..]) == Parts(effects)
    ensures (parts + (if effects[i].1 != 0 then [PartText(effects[i].0, effects[i].1)] else [])) + Parts(effects[i + 1..]) == Parts(effects)
  {
    var here := if effects[i].1 != 0 then [PartText(effects[i].0, effects[i].1)] else [];
    PartsStep(effects, i);
    ConcatAssoc(parts, here, Parts(effects[i + 1..]));
  }

  /** The texts are those of the nonzero entries, one each, in order. */
  lemma {:induction false} PartsOfNonzero(effects: Effects)
    ensures |Parts(effects)| == |NonzeroEntries(effects)|
    ensures forall j :: 0 <= j < |Parts(effects)| ==>
      Parts(effects)[j] == PartText(NonzeroEntries(effects)[j].0, NonzeroEntries(effects)[j].1)
    decreases |effects|
  {
    if effects != [] {
      PartsOfNonzero(effects[1..]);
      if effects[0].1 != 0 {
        assert Parts(effects) == [PartText(effects[0].0, effects[0].1)] + Parts(effects[1..]);
        assert NonzeroEntries(effects) == [effects[0]] + NonzeroEntries(effects[1..]);
      } else {
        assert Parts(effects) == Parts(effects[1..]);
        assert NonzeroEntries(effects) == NonzeroEntries(effects[1..]);
      }
    }
  }

  /** `parts.join(sep)` */
  function Join(parts: seq<string>, sep: string): string
    decreases |parts|
  {
    if parts == [] then ""
    else if |parts| == 1 then parts[0]
    else parts[0] + sep + Join(parts[1..], sep)
  }

  /** The message of the "consequence" log entry for an effects object. */
  function ConsequenceMessage(effects: Effects): string
  {
    Join(Parts(effects), ", ")
  }

  /** The state after `applyEffects(effects)`. */
  function WithEffects(s: State, effects: Effects, now: int): (r: State)
    ensures r.day == s.day && r.hour == s.hour && r.inventory == s.inventory
    ensures r.flags == s.flags && r.currentSceneId == s.currentSceneId
    ensures s.eventLog <= r.eventLog && |r.eventLog| <= |s.eventLog| + 1
  {
    s.(morality := Nudge(s.morality, Delta(effects, "morality"), MoralityMin, MoralityMax),
       trauma := Nudge(s.trauma, Delta(effects, "trauma"), GaugeMin, GaugeMax),
       stress := Nudge(s.stress, Delta(effects, "stress"), GaugeMin, GaugeMax),
       eventLog := s.eventLog +
         (if NonzeroEntries(effects) != [] then [LogEntry(now, ConsequenceMessage(effects), ConsequenceNote)] else []))
  }

  // ---------------------------------------------------------------------
  // Clock
  // ---------------------------------------------------------------------

  /** `hours || 1`: a zero argument still advances one hour. */
  function HoursOrOne(hours: int): int
  {
    if hours == 0 then 1 else hours
  }

  /** The state after `advanceTime(hours)`. */
  function WithClock(s: State, hours: int): (r: State)
    ensures r.day * 24 + r.hour == s.day * 24 + s.hour + HoursOrOne(hours)
    ensures r.hour < 24 && s.day <= r.day
    ensures 0 <= r.hour <==> 0 <= s.hour + HoursOrOne(hours)
    ensures r == s.(day := r.day, hour := r.hour)
  {
    var (d, h) := Rolled(s.day, s.hour + HoursOrOne(hours));
    s.(day := d, hour := h)
  }

  // ---------------------------------------------------------------------
  // Endings and transitions
  // ---------------------------------------------------------------------

  /** `Object.values(ENDINGS)`, in declaration order. */
  const JsEndings: seq<Ending> := [Saint, Tyrant, Ghost, Manipulator, LoneSurvivor, Bloomborne]

  /** `conclude()` tries the endings in the order `ENDINGS` declares them. */
  lemma JsEndingsOrder()
    ensures Ids(JsEndings) == ["ending_saint", "ending_tyrant", "ending_ghost",
                               "ending_manipulator", "ending_lone_survivor", "ending_bloomborne"]
  {
  }

  /** The ending `conclude()` picks: the first in declaration order whose
      criteria hold, otherwise Alone On Purpose. */
  function EndingFor(s: State): (e: Ending)
    ensures e in JsEndings
    ensures e == LoneSurvivor || Holds(e.criteria, s.morality, s.trauma, s.flags)
  {
    match FirstMatchIndex(JsEndings, s.morality, s.trauma, s.flags)
    case Some(i) => JsEndings[i]
    case None => LoneSurvivor
  }

  function ReachedEntry(e: Ending, now: int): LogEntry
  {
    LogEntry(now, "Reached: " + e.title, WorldEvent)
  }

  function MissingEntry(sceneId: string, now: int): LogEntry
  {
    LogEntry(now, "Missing scene '" + sceneId + "'", WorldEvent)
  }

  /** The state after `goTo(sceneId)`. */
  function AfterGoTo(scenes: map<string, Scene>, s: State, sceneId: string, now: int): (r: State)
    ensures r.morality == s.morality && r.trauma == s.trauma && r.stress == s.stress
    ensures r.day == s.day && r.hour == s.hour && r.inventory == s.inventory
    ensures s.flags <= r.flags && s.eventLog <= r.eventLog && |r.eventLog| <= |s.eventLog| + 1
  {
    HookOnlyAdds(s.flags, if sceneId in scenes then scenes[sceneId].onEnter else []);
    if sceneId == TheEnd then
      s.(eventLog := s.eventLog + [ReachedEntry(EndingFor(s), now)])
    else if sceneId !in scenes then
      s.(currentSceneId := sceneId, eventLog := s.eventLog + [MissingEntry(sceneId, now)])
    else
      s.(currentSceneId := sceneId, flags := ApplyHook(s.flags, scenes[sceneId].onEnter))
  }

  /** The ending a `goTo(sceneId)` hands to the renderer, if any. */
  function ReachedBy(s: State, sceneId: string): Option<Ending>
  {
    if sceneId == TheEnd then Some(EndingFor(s)) else None
  }

  /** The state just before `selectChoice` calls `goTo`: effects, then the
      after-hook, then one hour. */
  function BeforeGoTo(s: State, choice: Choice, now: int): State
  {
    var affected := WithEffects(s, choice.effects, now);
    WithClock(affected.(flags := ApplyHook(affected.flags, choice.after)), 1)
  }

  /** The state after `selectChoice(choice)`. */
  function AfterChoice(scenes: map<string, Scene>, s: State, choice: Choice, now: int): (r: State)
    ensures r.day * 24 + r.hour == s.day * 24 + s.hour + 1
    ensures r.inventory == s.inventory && s.flags <= r.flags && s.eventLog <= r.eventLog
    ensures choice.goTo != TheEnd ==> r.currentSceneId == choice.goTo
  {
    HookOnlyAdds(s.flags, choice.after);
    AfterGoTo(scenes, BeforeGoTo(s, choice, now), choice.goTo, now)
  }

  /** The choices `renderScene` offers as buttons. */
  function Offered(scene: Scene): seq<Choice>
  {
    FirstFour(scene.choices)
  }

  // ---------------------------------------------------------------------
  // Save and load
  // ---------------------------------------------------------------------

  /** A parsed save: every top-level field may be present or absent. */
  datatype SavedState = SavedState(
    day: Option<int>,
    hour: Option<int>,
    morality: Option<int>,
    trauma: Option<int>,
    stress: Option<int>,
    inventory: Option<seq<string>>,
    flags: Option<set<string>>,
    currentSceneId: Option<string>,
    eventLog: Option<seq<LogEntry>>)

  /** What `localStorage.getItem` and `JSON.parse` deliver to `load()`. */
  datatype LoadInput = NoSave | Unparsable | Parsed(saved: SavedState)

  /** `Object.assign(this.createInitialState(), obj)`: each top-level field
      present in the save replaces the default wholesale; absent fields keep
      the defaults. */
  function Restore(saved: SavedState): (r: State)
    ensures saved.day.Some? ==> r.day == saved.day.value
    ensures saved.day.None? ==> r.day == InitialState().day
    ensures saved.hour.Some? ==> r.hour == saved.hour.value
    ensures saved.hour.None? ==> r.hour == InitialState().hour
    ensures saved.morality.Some? ==> r.morality == saved.morality.value
    ensures saved.morality.None? ==> r.morality == InitialState().morality
    ensures saved.trauma.Some? ==> r.trauma == saved.trauma.value
    ensures saved.trauma.None? ==> r.trauma == InitialState().trauma
    ensures saved.stress.Some? ==> r.stress == saved.stress.value
    ensures saved.stress.None? ==> r.stress == InitialState().stress
    ensures saved.inventory.Some? ==> r.inventory == saved.inventory.value
    ensures saved.inventory.None? ==> r.inventory == InitialState().inventory
    ensures saved.currentSceneId.Some? ==> r.currentSceneId == saved.currentSceneId.value
    ensures saved.currentSceneId.None? ==> r.currentSceneId == InitialState().currentSceneId
    ensures saved.flags.Some? ==> r.flags == saved.flags.value
    ensures saved.flags.None? ==> r.flags == InitialState().flags
    ensures saved.eventLog.Some? ==> r.eventLog == saved.eventLog.value
    ensures saved.eventLog.None? ==> r.eventLog == InitialState().eventLog
  {
    var init := InitialState();
    State(
      saved.day.GetOr(init.day),
      saved.hour.GetOr(init.hour),
      saved.morality.GetOr(init.morality),
      saved.trauma.GetOr(init.trauma),
      saved.stress.GetOr(init.stress),
      saved.inventory.GetOr(init.inventory),
      saved.flags.GetOr(init.flags),
      saved.currentSceneId.GetOr(init.currentSceneId),
      saved.eventLog.GetOr(init.eventLog))
  }

  /** What `JSON.stringify(this.state)` captures: every field. */
  function Snapshot(s: State): SavedState
  {
    SavedState(Some(s.day), Some(s.hour), Some(s.morality), Some(s.trauma), Some(s.stress),
               Some(s.inventory), Some(s.flags), Some(s.currentSceneId), Some(s.eventLog))
  }

  /** The scene `load()` re-enters: the saved one if it names a scene, else
      the start scene. */
  function ResumeScene(scenes: map<string, Scene>, s: State): (id: string)
    ensures id in scenes || id == StartScene
    ensures s.currentSceneId != "" && s.currentSceneId in scenes ==> id == s.currentSceneId
    ensures s.currentSceneId == "" || s.currentSceneId !in scenes ==> id == StartScene
  {
    if s.currentSceneId != "" && s.currentSceneId in scenes then s.currentSceneId else StartScene
  }

  // ---------------------------------------------------------------------
  // The game object
  // ---------------------------------------------------------------------

  /** The `parts` array `applyEffects` builds: one text per nonzero entry,
      in entry order. */
  method ConsequenceParts(effects: Effects) returns (parts: seq<string>)
    ensures parts == Parts(effects)
  {
    parts := [];
    var i := 0;
    while i < |effects|
      invariant 0 <= i <= |effects|
      invariant parts + Parts(effects[i..]) == Parts(effects)
    {
      var here := if effects[i].1 != 0 then [PartText(effects[i].0, effects[i].1)] else [];
      PartsFrom(effects, i, parts);
      parts := parts + here;
      i := i + 1;
    }
    assert parts + Parts([]) == parts;
  }

  class Game {
    const scenes: map<string, Scene>
    var state: State

    /** `new ConsequenceGame()`: a fresh state, then `goTo("intro")`. */
    constructor (scenes: map<string, Scene>, now: int)
      ensures this.scenes == scenes
      ensures state == AfterGoTo(scenes, InitialState(), StartScene, now)
    {
      this.scenes := scenes;
      state := InitialState();
      new;
      var _ := GoTo(StartScene, now);
    }

    /** `writeLog(message, cssClass)`, without the DOM half. */
    method WriteLog(message: string, category: Category, now: int)
      modifies this
      ensures state == old(state).(eventLog := old(state).eventLog + [LogEntry(now, message, category)])
    {
      state := state.(eventLog := state.eventLog + [LogEntry(now, message, category)]);
    }

    method ApplyEffects(effects: Effects, now: int)
      modifies this
      ensures state == WithEffects(old(state), effects, now)
    {
      var m, t, st := Delta(effects, "morality"), Delta(effects, "trauma"), Delta(effects, "stress");
      if m != 0 { state := state.(morality := Clamp(state.morality + m, MoralityMin, MoralityMax)); }
      if t != 0 { state := state.(trauma := Clamp(state.trauma + t, GaugeMin, GaugeMax)); }
      if st != 0 { state := state.(stress := Clamp(state.stress + st, GaugeMin, GaugeMax)); }
      assert state == old(state).(morality := Nudge(old(state).morality, m, MoralityMin, MoralityMax),
                                  trauma := Nudge(old(state).trauma, t, GaugeMin, GaugeMax),
                                  stress := Nudge(old(state).stress, st, GaugeMin, GaugeMax));
      var parts := ConsequenceParts(effects);
      PartsOfNonzero(effects);
      if |parts| > 0 {
        WriteLog(Join(parts, ", "), ConsequenceNote, now);
      }
    }

    method AdvanceTime(hours: int)
      modifies this
      ensures state == WithClock(old(state), hours)
    {
      var total := state.hour + HoursOrOne(hours);
      ghost var d0, t0 := state.day, total;
      while total >= 24
        invariant state == old(state).(day := state.day)
        invariant state.day * 24 + total == d0 * 24 + t0
        invariant t0 >= 24 ==> total >= 0
        invariant t0 < 24 ==> total == t0 && state.day == d0
        decreases total
      {
        total := total - 24;
        state := state.(day := state.day + 1);
      }
      state := state.(hour := total);
    }

    method Conclude(now: int) returns (ending: Ending)
      modifies this
      ensures ending == EndingFor(old(state))
      ensures state == old(state).(eventLog := old(state).eventLog + [ReachedEntry(ending, now)])
    {
      var found := FirstMatchIndex(JsEndings, state.morality, state.trauma, state.flags);
      ending := if found.Some? then JsEndings[found.value] else LoneSurvivor;
      WriteLog("Reached: " + ending.title, WorldEvent, now);
    }

    method GoTo(sceneId: string, now: int) returns (reached: Option<Ending>)
      modifies this
      ensures state == AfterGoTo(scenes, old(state), sceneId, now)
      ensures reached == ReachedBy(old(state), sceneId)
    {
      if sceneId == TheEnd {
        var e := Conclude(now);
        return Some(e);
      }
      state := state.(currentSceneId := sceneId);
      if sceneId !in scenes {
        WriteLog("Missing scene '" + sceneId + "'", WorldEvent, now);
        return None;
      }
      state := state.(flags := ApplyHook(state.flags, scenes[sceneId].onEnter));
      return None;
    }

    method SelectChoice(choice: Choice, now: int) returns (reached: Option<Ending>)
      modifies this
      ensures state == AfterChoice(scenes, old(state), choice, now)
      ensures reached == ReachedBy(BeforeGoTo(old(state), choice, now), choice.goTo)
    {
      ApplyEffects(choice.effects, now);
      if choice.after != [] {
        state := state.(flags := ApplyHook(state.flags, choice.after));
      }
      AdvanceTime(1);
      reached := GoTo(choice.goTo, now);
    }

    /** `save()`: the snapshot is taken before "Game saved" is logged. */
    method Save(now: int) returns (blob: SavedState)
      modifies this
      ensures blob == Snapshot(old(state))
      ensures state == old(state).(eventLog := old(state).eventLog + [LogEntry(now, "Game saved", Discovery)])
    {
      blob := Snapshot(state);
      WriteLog("Game saved", Discovery, now);
    }

    /** `load()`: a missing or unparsable save only logs a notice; a parsed
        one replaces the state, re-enters a scene and logs "Game loaded". */
    method Load(input: LoadInput, now: int)
      modifies this
      ensures input.NoSave? ==>
        state == old(state).(eventLog := old(state).eventLog + [LogEntry(now, "No save found", TraumaNote)])
      ensures input.Unparsable? ==>
        state == old(state).(eventLog := old(state).eventLog + [LogEntry(now, "Failed to load save", TraumaNote)])
      ensures input.Parsed? ==>
        var restored := Restore(input.saved);
        var entered := AfterGoTo(scenes, restored, ResumeScene(scenes, restored), now);
        state == entered.(eventLog := entered.eventLog + [LogEntry(now, "Game loaded", Discovery)])
    {
      match input
      case NoSave =>
        WriteLog("No save found", TraumaNote, now);
      case Unparsable =>
        WriteLog("Failed to load save", TraumaNote, now);
      case Parsed(saved) =>
        state := Restore(saved);
        if state.currentSceneId != "" && state.currentSceneId in scenes {
          var _ := GoTo(state.currentSceneId, now);
        } else {
          var _ := GoTo(StartScene, now);
        }
        WriteLog("Game loaded", Discovery, now);
    }

    /** `restart()`: a fresh state, `goTo("intro")`, then "New run started". */
    method Restart(now: int)
      modifies this
      ensures var entered := AfterGoTo(scenes, InitialState(), StartScene, now);
        state == entered.(eventLog := entered.eventLog + [LogEntry(now, "New run started", WorldEvent)])
    {
      state := InitialState();
      var _ := GoTo(StartScene, now);
      WriteLog("New run started", WorldEvent, now);
    }
  }

  // ---------------------------------------------------------------------
  // What the transition functions guarantee
  // ---------------------------------------------------------------------

  /** A key's delta is the value of its entry when the key occurs once. */
  lemma {:induction false} DeltaOfEntry(effects: Effects, i: nat)
    requires i < |effects|
    requires forall j :: 0 <= j < |effects| && j != i ==> effects[j].0 != effects[i].0
    ensures Delta(effects, effects[i].0) == effects[i].1
    decreases i
  {
    if i > 0 {
      forall j | 0 <= j < |effects[1..]| && j != i - 1
        ensures effects[1..][j].0 != effects[1..][i - 1].0
      {
        assert effects[1..][j] == effects[j + 1];
      }
      DeltaOfEntry(effects[1..], i - 1);
    }
  }

  lemma {:induction false} DeltaOfAbsent(effects: Effects, key: string)
    requires forall j :: 0 <= j < |effects| ==> effects[j].0 != key
    ensures Delta(effects, key) == 0
    decreases |effects|
  {
    if effects != [] {
      DeltaOfAbsent(effects[1..], key);
    }
  }

  /** Effects keep the bounded stats in range. */
  lemma EffectsKeepRange(s: State, effects: Effects, now: int)
    requires StatsInRange(s.morality, s.trauma, s.stress)
    ensures var r := WithEffects(s, effects, now);
      StatsInRange(r.morality, r.trauma, r.stress)
  {
  }

  /** An effects object whose every value is 0 changes nothing, not even the
      log. */
  lemma {:induction false} ZeroEffectsChangeNothing(s: State, effects: Effects, now: int)
    requires forall j :: 0 <= j < |effects| ==> effects[j].1 == 0
    ensures WithEffects(s, effects, now) == s
    decreases |effects|
  {
    assert Delta(effects, "morality") == 0 && Delta(effects, "trauma") == 0 && Delta(effects, "stress") == 0 by {
      ZeroDelta(effects, "morality");
      ZeroDelta(effects, "trauma");
      ZeroDelta(effects, "stress");
    }
    ZeroEntriesDropped(effects);
  }

  lemma {:induction false} ZeroEntriesDropped(effects: Effects)
    requires forall j :: 0 <= j < |effects| ==> effects[j].1 == 0
    ensures NonzeroEntries(effects) == []
    decreases |effects|
  {
    if effects != [] {
      ZeroEntriesDropped(effects[1..]);
    }
  }

  lemma {:induction false} ZeroDelta(effects: Effects, key: string)
    requires forall j :: 0 <= j < |effects| ==> effects[j].1 == 0
    ensures Delta(effects, key) == 0
    decreases |effects|
  {
    if effects != [] {
      ZeroDelta(effects[1..], key);
    }
  }

  /** `applyEffects` logs exactly one "consequence" entry when some value is
      nonzero and none otherwise; that entry's message lists every nonzero
      entry, stat or not, in order. */
  lemma ConsequenceLogged(s: State, effects: Effects, now: int)
    ensures var r := WithEffects(s, effects, now);
      (exists j :: 0 <= j < |effects| && effects[j].1 != 0) ==>
        r.eventLog == s.eventLog + [LogEntry(now, Join(Parts(effects), ", "), ConsequenceNote)]
    ensures var r := WithEffects(s, effects, now);
      (forall j :: 0 <= j < |effects| ==> effects[j].1 == 0) ==> r.eventLog == s.eventLog
  {
    if exists j :: 0 <= j < |effects| && effects[j].1 != 0 {
      var j :| 0 <= j < |effects| && effects[j].1 != 0;
      NonzeroEntriesMembers(effects);
      assert effects[j] in NonzeroEntries(effects);
    }
    if forall j :: 0 <= j < |effects| ==> effects[j].1 == 0 {
      ZeroEffectsChangeNothing(s, effects, now);
    }
  }

  /** The three bounded stats, with their effect keys and ranges. */
  datatype Stat = MoralityStat | TraumaStat | StressStat

  function StatKey(st: Stat): string
  {
    match st
    case MoralityStat => "morality"
    case TraumaStat => "trauma"
    case StressStat => "stress"
  }

  function StatOf(s: State, st: Stat): int
  {
    match st
    case MoralityStat => s.morality
    case TraumaStat => s.trauma
    case StressStat => s.stress
  }

  function StatMin(st: Stat): int
  {
    if st == MoralityStat then MoralityMin else GaugeMin
  }

  function StatMax(st: Stat): int
  {
    if st == MoralityStat then MoralityMax else GaugeMax
  }

  /** A stat whose key is listed once: a nonzero value moves it to the
      clamped sum, a zero value leaves it alone. Neither clock, flags, scene
      nor inventory changes. */
  lemma EffectsOnStats(s: State, effects: Effects, now: int, st: Stat, i: nat)
    requires i < |effects| && effects[i].0 == StatKey(st)
    requires forall j :: 0 <= j < |effects| && j != i ==> effects[j].0 != StatKey(st)
    ensures var r := WithEffects(s, effects, now);
      StatOf(r, st) == (if effects[i].1 != 0 then Clamp(StatOf(s, st) + effects[i].1, StatMin(st), StatMax(st)) else StatOf(s, st))
    ensures var r := WithEffects(s, effects, now);
      r.day == s.day && r.hour == s.hour && r.flags == s.flags && r.currentSceneId == s.currentSceneId && r.inventory == s.inventory
  {
    DeltaOfEntry(effects, i);
  }

  /** A stat whose key is not listed is left alone. */
  lemma EffectsSkipAbsentStat(s: State, effects: Effects, now: int, st: Stat)
    requires forall j :: 0 <= j < |effects| ==> effects[j].0 != StatKey(st)
    ensures StatOf(WithEffects(s, effects, now), st) == StatOf(s, st)
  {
    DeltaOfAbsent(effects, StatKey(st));
  }

  /** `goTo(THE_END)` stays on the current scene id and logs the ending;
      any other id becomes current; a missing scene is logged exactly once
      and runs no hook; an existing one runs only its `onEnter`. */
  lemma GoToCases(scenes: map<string, Scene>, s: State, sceneId: string, now: int)
    ensures var r := AfterGoTo(scenes, s, sceneId, now);
      sceneId == TheEnd ==> r.currentSceneId == s.currentSceneId && r.flags == s.flags &&
                            r.eventLog == s.eventLog + [ReachedEntry(EndingFor(s), now)]
    ensures var r := AfterGoTo(scenes, s, sceneId, now);
      sceneId != TheEnd ==> r.currentSceneId == sceneId
    ensures var r := AfterGoTo(scenes, s, sceneId, now);
      sceneId != TheEnd && sceneId !in scenes ==>
        r.flags == s.flags && r.eventLog == s.eventLog + [MissingEntry(sceneId, now)]
    ensures var r := AfterGoTo(scenes, s, sceneId, now);
      sceneId != TheEnd && sceneId in scenes ==>
        r.eventLog == s.eventLog && r.flags == ApplyHook(s.flags, scenes[sceneId].onEnter)
    ensures var r := AfterGoTo(scenes, s, sceneId, now);
      r.morality == s.morality && r.trauma == s.trauma && r.stress == s.stress &&
      r.day == s.day && r.hour == s.hour
  {
  }

  /** One choice keeps the play invariant. */
  lemma ChoiceKeepsValid(scenes: map<string, Scene>, s: State, choice: Choice, now: int)
    requires Valid(s)
    ensures Valid(AfterChoice(scenes, s, choice, now))
  {
    EffectsKeepRange(s, choice.effects, now);
  }

  /** The state after a whole sequence of choices. */
  function Play(scenes: map<string, Scene>, s: State, picks: seq<Choice>, now: int): State
    decreases |picks|
  {
    if picks == [] then s else Play(scenes, AfterChoice(scenes, s, picks[0], now), picks[1..], now)
  }

  /** For every sequence of choices, morality stays in [-100, 100], trauma
      and stress in [0, 100], the hour in [0, 24). */
  lemma {:induction false} PlayKeepsValid(scenes: map<string, Scene>, s: State, picks: seq<Choice>, now: int)
    requires Valid(s)
    ensures Valid(Play(scenes, s, picks, now))
    decreases |picks|
  {
    if picks != [] {
      ChoiceKeepsValid(scenes, s, picks[0], now);
      PlayKeepsValid(scenes, AfterChoice(scenes, s, picks[0], now), picks[1..], now);
    }
  }

  /** Every choice advances the clock by exactly one hour. */
  lemma ChoiceTakesAnHour(scenes: map<string, Scene>, s: State, choice: Choice, now: int)
    ensures var r := AfterChoice(scenes, s, choice, now);
      r.day * 24 + r.hour == s.day * 24 + s.hour + 1
  {
  }

  /** `conclude()` picks the first ending in declaration order whose criteria
      hold. */
  lemma {:induction false} EndingIsFirstMatch(s: State, i: nat)
    requires i < |JsEndings| && Holds(JsEndings[i].criteria, s.morality, s.trauma, s.flags)
    requires forall j :: 0 <= j < i ==> !Holds(JsEndings[j].criteria, s.morality, s.trauma, s.flags)
    ensures EndingFor(s) == JsEndings[i]
  {
  }

  /** With no criteria holding, the fallback is Alone On Purpose. */
  lemma EndingFallback(s: State)
    requires forall j :: 0 <= j < |JsEndings| ==> !Holds(JsEndings[j].criteria, s.morality, s.trauma, s.flags)
    ensures EndingFor(s) == LoneSurvivor
  {
  }

  /** A restored snapshot is the state it was taken of. */
  lemma RestoreSnapshot(s: State)
    ensures Restore(Snapshot(s)) == s
  {
  }

  /** A save with no fields restores the initial state. */
  lemma RestoreNothing()
    ensures Restore(SavedState(None, None, None, None, None, None, None, None, None)) == InitialState()
  {
  }

  /** Restoring is idempotent through another save. */
  lemma RestoreIdempotent(saved: SavedState)
    ensures Restore(Snapshot(Restore(saved))) == Restore(saved)
  {
  }
}
