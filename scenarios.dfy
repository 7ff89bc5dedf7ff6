/** A few scenes of both editions' tables, transcribed with their effects
    and hooks (not their prose), and the playthroughs they admit: the intro,
    a dangling target (`room_inventory` is referenced but never defined),
    and the finale whose every choice leads to `THE_END`. */
module Scenarios {
  import opened Story
  import Text
  import JsEngine
  import JavaEngine

  /** A one-digit number renders as its digit. */
  lemma DecimalDigit(d: nat)
    requires d < 10
    ensures Text.NatToString(d) == [Text.DigitChar(d)] && Text.IntToString(d) == [Text.DigitChar(d)]
  {
  }

  // ---------------------------------------------------------------------
  // Browser edition
  // ---------------------------------------------------------------------

  const HelpAlex := JsEngine.Choice("help_alex", [("morality", 6), ("stress", 4)], "alex_inside", [])
  const StaySilent := JsEngine.Choice("stay_silent", [("morality", -4), ("stress", 2)], "silence_wait", [])
  const Barricade := JsEngine.Choice("barricade", [("stress", -4)], "room_inventory", [])
  const OneMoreGood := JsEngine.Choice("one_more_good", [("morality", 2)], JsEngine.TheEnd, [])
  const ListenSong := JsEngine.Choice("listen_song", [], JsEngine.TheEnd, [PromoteBloom])

  const JsIntro := JsEngine.Scene([
    HelpAlex, StaySilent,
    JsEngine.Choice("probe", [], "interrogate_alex", []),
    JsEngine.Choice("window_escape", [("stress", 6)], "alley_drop", [])], [])

  const JsAlexInside := JsEngine.Scene([
    JsEngine.Choice("treat", [("trauma", 5)], "treat_wound", []),
    JsEngine.Choice("bind", [("morality", -2)], "bind_alex", []),
    JsEngine.Choice("exploit", [], "exploit_alex", []),
    JsEngine.Choice("mercy_kill", [("morality", -12), ("trauma", 12)], "mercy_kill_alex", [])], [SetFlag("metAlex")])

  const JsSilenceWait := JsEngine.Scene([
    JsEngine.Choice("follow", [], "stalker_tail", []),
    Barricade,
    JsEngine.Choice("call_out_late", [("morality", -1)], "room_inventory", []),
    JsEngine.Choice("window_exit", [], "alley_drop", [])], [])

  const JsFinaleBridge := JsEngine.Scene([
    JsEngine.Choice("accept_fate", [], JsEngine.TheEnd, []),
    OneMoreGood,
    JsEngine.Choice("one_more_terrible", [("morality", -4)], JsEngine.TheEnd, []),
    ListenSong], [])

  const JsScenes: map<string, JsEngine.Scene> := map[
    "intro" := JsIntro, "alex_inside" := JsAlexInside,
    "silence_wait" := JsSilenceWait, "finale_bridge" := JsFinaleBridge]

  /** Helping Alex from a fresh run: +6 morality, +4 stress, one hour, the
      `metAlex` hook, and one consequence entry listing both deltas. */
  lemma HelpAlexFromTheStart(now: int)
    ensures JsEngine.AfterChoice(JsScenes, JsEngine.InitialState(), HelpAlex, now) ==
      JsEngine.State(0, 9, 6, 10, 14, [], {"metAlex"}, "alex_inside",
                     [JsEngine.LogEntry(now, "morality +6, stress +4", JsEngine.ConsequenceNote)])
  {
    var init := JsEngine.InitialState();
    var entry := JsEngine.LogEntry(now, "morality +6, stress +4", JsEngine.ConsequenceNote);
    HelpAlexMessage();
    assert JsEngine.NonzeroEntries(HelpAlex.effects) != [] by {
      assert HelpAlex.effects[0] in JsEngine.NonzeroEntries(HelpAlex.effects);
    }
    assert JsEngine.Delta(HelpAlex.effects, "morality") == 6;
    assert JsEngine.Delta(HelpAlex.effects, "trauma") == 0;
    assert JsEngine.Delta(HelpAlex.effects, "stress") == 4;
    var affected := JsEngine.WithEffects(init, HelpAlex.effects, now);
    assert affected == init.(morality := 6, stress := 14, eventLog := [entry]);
    var before := JsEngine.BeforeGoTo(init, HelpAlex, now);
    assert before == affected.(hour := 9);
    assert JsAlexInside.onEnter[1..] == [];
    assert ApplyHook({}, JsAlexInside.onEnter) == {"metAlex"};
  }

  /** The consequence message of help_alex. */
  lemma HelpAlexMessage()
    ensures JsEngine.ConsequenceMessage(HelpAlex.effects) == "morality +6, stress +4"
  {
    assert JsEngine.Parts(HelpAlex.effects) == ["morality +6", "stress +4"] by {
      assert JsEngine.PartText("morality", 6) == "morality +6" by { DecimalDigit(6); }
      assert JsEngine.PartText("stress", 4) == "stress +4" by { DecimalDigit(4); }
      assert HelpAlex.effects[1..] == [("stress", 4)];
      assert HelpAlex.effects[1..][1..] == [];
      assert JsEngine.Parts([("stress", 4)]) == ["stress +4"];
    }
    assert JsEngine.Join(["morality +6", "stress +4"], ", ") == "morality +6" + ", " + "stress +4" by {
      assert JsEngine.Join(["stress +4"], ", ") == "stress +4";
    }
  }

  /** Barricading leads to a scene that does not exist: it becomes current
      anyway and exactly one "Missing scene" entry follows the consequence
      entry. */
  lemma BarricadeMissesAScene(s: JsEngine.State, now: int)
    requires s.currentSceneId == "silence_wait"
    ensures var r := JsEngine.AfterChoice(JsScenes, s, Barricade, now);
      r.currentSceneId == "room_inventory" &&
      r.eventLog == s.eventLog + [JsEngine.LogEntry(now, "stress -4", JsEngine.ConsequenceNote),
                                  JsEngine.MissingEntry("room_inventory", now)]
  {
    DecimalDigit(4);
    assert Barricade.effects[1..] == [];
    assert Text.IntToString(-4) == "-4";
    assert JsEngine.PartText("stress", -4) == "stress -4";
    assert JsEngine.Parts(Barricade.effects) == ["stress -4"];
  }

  /** A fresh run with no criteria met concludes alone. */
  lemma FreshRunEndsAlone()
    ensures JsEngine.EndingFor(JsEngine.InitialState()) == LoneSurvivor
  {
  }

  /** One more good deed at morality 43 crosses the Saint threshold. */
  lemma GoodDeedMakesASaint(s: JsEngine.State, now: int)
    requires s.morality == 43
    ensures JsEngine.ReachedBy(JsEngine.BeforeGoTo(s, OneMoreGood, now), OneMoreGood.goTo) == Some(Saint)
  {
  }

  /** Listening to the song with the insight already gained promotes it to
      `bloomChoice`; with no other criterion met the run ends Bloomborne. */
  lemma SongMakesBloomborne(s: JsEngine.State, now: int)
    requires BloomInsight in s.flags
    requires -45 < s.morality < 45
    requires "stalker" !in s.flags && "manipulator" !in s.flags && "loneWolf" !in s.flags
    ensures JsEngine.ReachedBy(JsEngine.BeforeGoTo(s, ListenSong, now), ListenSong.goTo) == Some(Bloomborne)
  {
    var r := JsEngine.BeforeGoTo(s, ListenSong, now);
    assert ListenSong.after[1..] == [];
    assert r.flags == s.flags + {BloomChoice};
    JsEngine.EndingIsFirstMatch(r, 5);
  }

  // ---------------------------------------------------------------------
  // Console edition
  // ---------------------------------------------------------------------

  const JavaIntro := JavaEngine.Scene("intro", [], [
    JavaEngine.Choice("help_alex", 6, 0, 4, "alex_inside", []),
    JavaEngine.Choice("stay_silent", -4, 0, 2, "silence_wait", []),
    JavaEngine.Choice("probe", 0, 0, 0, "interrogate_alex", []),
    JavaEngine.Choice("window_escape", 0, 0, 6, "alley_drop", [])])

  const JavaSilenceWait := JavaEngine.Scene("silence_wait", [], [
    JavaEngine.Choice("follow", 0, 0, 0, "stalker_tail", [SetFlag("stalker")]),
    JavaEngine.Choice("barricade", 0, 0, -4, "room_inventory", []),
    JavaEngine.Choice("late_call", -1, 0, 0, "room_inventory", []),
    JavaEngine.Choice("window_exit", 0, 0, 0, "alley_drop", [])])

  const JavaFinaleBridge := JavaEngine.Scene("finale_bridge", [], [
    JavaEngine.Choice("accept_fate", 0, 0, 0, JavaEngine.TheEnd, []),
    JavaEngine.Choice("one_more_good", 2, 0, 0, JavaEngine.TheEnd, []),
    JavaEngine.Choice("one_more_terrible", -4, 0, 0, JavaEngine.TheEnd, []),
    JavaEngine.Choice("listen_song", 0, 0, 0, JavaEngine.TheEnd, [PromoteBloom])])

  const JavaDefs: seq<JavaEngine.Scene> := [JavaIntro, JavaSilenceWait, JavaFinaleBridge]

  const JavaTable: map<string, JavaEngine.Scene> :=
    map["intro" := JavaIntro, "silence_wait" := JavaSilenceWait, "finale_bridge" := JavaFinaleBridge]

  /** The `put` loop over the transcribed scenes builds the table above,
      one scene at a time. */
  lemma JavaTableBuilt()
    ensures JavaEngine.SceneTable(JavaDefs) == JavaTable
  {
    JavaTableTwo();
    assert JavaDefs[..2] == [JavaIntro, JavaSilenceWait];
  }

  lemma JavaTableTwo()
    ensures JavaEngine.SceneTable([JavaIntro, JavaSilenceWait]) == map["intro" := JavaIntro, "silence_wait" := JavaSilenceWait]
  {
    JavaTableOne();
    assert [JavaIntro, JavaSilenceWait][..1] == [JavaIntro];
  }

  lemma JavaTableOne()
    ensures JavaEngine.SceneTable([JavaIntro]) == map["intro" := JavaIntro]
  {
    assert [JavaIntro][..0] == [];
  }

  const AfterSilence := JavaEngine.View(0, 9, -4, 10, 12, "silence_wait", {})
  const AfterBarricade := JavaEngine.View(0, 10, -4, 10, 8, "room_inventory", {})

  lemma StaySilentStep()
    ensures JavaEngine.AfterChoice(JavaTable, JavaEngine.FreshView(), JavaIntro.choices[1]) == AfterSilence
  {
  }

  lemma BarricadeStep()
    ensures JavaEngine.AfterChoice(JavaTable, AfterSilence, JavaSilenceWait.choices[1]) == AfterBarricade
  {
  }

  /** Nothing the two choices did meets a criterion: the console falls back
      to Alone On Purpose. */
  lemma AfterBarricadeEndsAlone()
    ensures JavaEngine.Resolve(JavaEngine.JavaEndings, AfterBarricade) == LoneSurvivor
  {
    JavaEngine.ResolveFallback(JavaEngine.JavaEndings, AfterBarricade);
  }

  /** The console loop, one accepted line at a time. */
  lemma FirstTurn()
    ensures JavaEngine.RunFrom(JavaTable, JavaEngine.JavaEndings, JavaEngine.FreshView(), [JavaEngine.Number(2), JavaEngine.Number(2)]) ==
            JavaEngine.RunFrom(JavaTable, JavaEngine.JavaEndings, AfterSilence, [JavaEngine.Number(2)])
  {
    StaySilentStep();
    assert [JavaEngine.Number(2), JavaEngine.Number(2)][1..] == [JavaEngine.Number(2)];
  }

  lemma SecondTurn()
    ensures JavaEngine.RunFrom(JavaTable, JavaEngine.JavaEndings, AfterSilence, [JavaEngine.Number(2)]) ==
            JavaEngine.RunFrom(JavaTable, JavaEngine.JavaEndings, AfterBarricade, [])
  {
    BarricadeStep();
    assert [JavaEngine.Number(2)][1..] == [];
  }

  lemma MissingSceneTurn()
    ensures JavaEngine.RunFrom(JavaTable, JavaEngine.JavaEndings, AfterBarricade, []) ==
            (AfterBarricade, JavaEngine.Ended(LoneSurvivor, true))
  {
    AfterBarricadeEndsAlone();
  }

  /** Staying silent and then barricading walks into the missing
      `room_inventory`: the loop stops on its next iteration and ends the run
      with the fallback ending. */
  lemma SilenceThenBarricadeEndsTheRun()
    ensures var table := JavaEngine.SceneTable(JavaDefs);
      JavaEngine.RunFrom(table, JavaEngine.JavaEndings,
                         JavaEngine.WithGoTo(table, JavaEngine.FreshView(), JavaEngine.StartScene),
                         [JavaEngine.Number(2), JavaEngine.Number(2)]) ==
      (AfterBarricade, JavaEngine.Ended(LoneSurvivor, true))
  {
    JavaTableBuilt();
    assert JavaEngine.WithGoTo(JavaTable, JavaEngine.FreshView(), JavaEngine.StartScene) == JavaEngine.FreshView();
    FirstTurn();
    SecondTurn();
    MissingSceneTurn();
  }

  // ---------------------------------------------------------------------
  // The two editions side by side
  // ---------------------------------------------------------------------

  /** Both editions declare the same six endings; only the order differs:
      the console list is the browser list taken in the order 5, 1, 3, 2, 0, 4. */
  lemma EditionsShareTheirEndings()
    ensures JavaEngine.JavaEndings == [JsEngine.JsEndings[5], JsEngine.JsEndings[1], JsEngine.JsEndings[3],
                                       JsEngine.JsEndings[2], JsEngine.JsEndings[0], JsEngine.JsEndings[4]]
    ensures JsEngine.JsEndings != JavaEngine.JavaEndings
  {
    assert JsEngine.JsEndings[0].id != JavaEngine.JavaEndings[0].id;
  }

  /** The editions order their endings differently: a state holding
      `bloomChoice` with morality at least 45 is a Saint in the browser and
      Bloomborne on the console. */
  lemma EditionsDisagreeOnBloomingSaints(s: JsEngine.State)
    requires BloomChoice in s.flags && s.morality >= 45
    ensures JsEngine.EndingFor(s) == Saint
    ensures JavaEngine.Resolve(JavaEngine.JavaEndings,
      JavaEngine.View(s.day, s.hour, s.morality, s.trauma, s.stress, s.currentSceneId, s.flags)) == Bloomborne
  {
  }
}
