/** The story-database normaliser (FINAL_STORY.js): one pass that builds a
    database of exactly 2513 scenes and exactly six endings from an ordered
    scene map. The phases run in this order: choose the start scene, detect
    the endings by naming convention, synthesise endings up to six, redirect
    self-loop choices, then trim or pad to 2513 scenes and record the total.

    The database object the source builds in place is a local value here;
    each phase is a method that takes the current scene map and returns the
    next one. JavaScript object key order is the explicit `keys` sequence. */
module Normaliser {
  import opened Story
  import opened Text

  const Target: nat := 2513
  const EndingCount: nat := 6
  const PresetStart: string := "intro"
  const EndingPrefix: string := "ending_"
  const SynthPrefix: string := "ending_synth_"
  const FillerPrefix: string := "filler_"

  /** A choice object: its text, and its `goTo` and `next` targets when they
      are present. */
  datatype NChoice = NChoice(text: string, goTo: Option<string>, next: Option<string>)

  /** A scene object. `kind` is its `type` field; `choices` is `None` when the
      field is not an array, and a falsy array element is `None`. */
  datatype NScene = NScene(text: string, kind: Option<string>, choices: Option<seq<Option<NChoice>>>)

  /** The scene created for a synthesised ending. */
  const SynthScene: NScene := NScene("The story ends.", Some("ending"), Some([]))

  /** A padding scene, with one choice that leads to `target`. */
  function Filler(target: string): NScene
  {
    NScene("...the days blur together.", None, Some([Some(NChoice("Continue", Some(target), None))]))
  }

  /** An insertion-ordered map from scene id to scene. */
  datatype SceneMap = SceneMap(keys: seq<string>, table: map<string, NScene>) {
    /** The keys are listed once each, and they are exactly the table's keys. */
    ghost predicate WellFormed()
    {
      Distinct(keys) && forall k :: k in table <==> k in keys
    }

    /** `scenes[id] = s`: a new id goes to the end of the key order, an
        existing one keeps its place. */
    function Put(id: string, s: NScene): (r: SceneMap)
      ensures WellFormed() ==> r.WellFormed()
      ensures r.table == table[id := s]
      ensures id in keys ==> r.keys == keys
      ensures id !in keys ==> r.keys == keys + [id]
    {
      SceneMap(if id in keys then keys else keys + [id], table[id := s])
    }
  }

  /** The database the normaliser returns: scenes, `meta.start`,
      `meta.endings` and `meta.total`. */
  datatype Database = Database(scenes: SceneMap, start: string, endings: seq<string>, total: int)

  lemma WellFormedSize(m: SceneMap)
    requires m.WellFormed()
    ensures |m.table| == |m.keys|
  {
    assert m.table.Keys == set x | x in m.keys;
    DistinctCardinality(m.keys);
  }

  // ---------------------------------------------------------------------
  // Start scene
  // ---------------------------------------------------------------------

  /** `meta.start`: the preset id when its scene exists, else "intro" when
      that exists, else the first key unless it is missing or the empty
      string (both falsy); otherwise the preset stays. */
  function ChooseStart(m: SceneMap, preset: string): (start: string)
    requires m.WellFormed()
    ensures preset in m.table ==> start == preset
    ensures preset !in m.table && PresetStart in m.table ==> start == PresetStart
    ensures preset !in m.table && PresetStart !in m.table && m.keys != [] && m.keys[0] != "" ==>
      start == m.keys[0]
    ensures preset !in m.table && PresetStart !in m.table && (m.keys == [] || m.keys[0] == "") ==>
      start == preset
    ensures m.keys != [] && m.keys[0] != "" ==> start in m.table
    ensures start !in m.table ==> start == preset
  {
    if preset in m.table then preset
    else if PresetStart in m.table then PresetStart
    else if m.keys != [] && m.keys[0] != "" then m.keys[0]
    else preset
  }

  // ---------------------------------------------------------------------
  // Ending detection
  // ---------------------------------------------------------------------

  /** The naming convention: the id starts with "ending_", or the scene's
      type is 'ending', or its choices are an empty array and the id matches
      /ending/i. */
  predicate IsEnding(id: string, s: NScene): (r: bool)
    ensures StartsWith(id, SynthPrefix) ==> r
    ensures r && s.choices.Some? && |s.choices.value| > 0 ==> StartsWith(id, EndingPrefix) || s.kind == Some("ending")
  {
    assert StartsWith(id, SynthPrefix) ==> id[..|EndingPrefix|] == SynthPrefix[..|EndingPrefix|];
    StartsWith(id, EndingPrefix) || s.kind == Some("ending") ||
    (s.choices.Some? && |s.choices.value| == 0 && ContainsFolded(id, "ending"))
  }

  /** The ending ids among `keys`, in key order. */
  function EndingsAmong(keys: seq<string>, table: map<string, NScene>): (ids: seq<string>)
    requires forall k :: k in keys ==> k in table
    ensures |ids| <= |keys|
    decreases |keys|
  {
    if keys == [] then []
    else (if IsEnding(keys[0], table[keys[0]]) then [keys[0]] else []) + EndingsAmong(keys[1..], table)
  }

  /** The detected ids are exactly the keys whose scenes are endings, each
      listed once when the keys are. */
  lemma {:induction false} EndingsAmongMembers(keys: seq<string>, table: map<string, NScene>)
    requires forall k :: k in keys ==> k in table
    ensures forall x :: x in EndingsAmong(keys, table) <==> x in keys && IsEnding(x, table[x])
    ensures Distinct(keys) ==> Distinct(EndingsAmong(keys, table))
    decreases |keys|
  {
    if keys != [] {
      EndingsAmongMembers(keys[1..], table);
      assert Distinct(keys) ==> keys[0] !in keys[1..];
    }
  }

  lemma EndingsAmongStep(keys: seq<string>, table: map<string, NScene>)
    requires keys != [] && forall k :: k in keys ==> k in table
    ensures EndingsAmong(keys, table) ==
      (if IsEnding(keys[0], table[keys[0]]) then [keys[0]] else []) + EndingsAmong(keys[1..], table)
  {
  }

  /** The ids collected so far followed by those of the remaining keys are
      all the ids, one key further on. */
  lemma DetectStep(keys: seq<string>, table: map<string, NScene>, i: nat, ids: seq<string>)
    requires i < |keys| && forall k :: k in keys ==> k in table
    requires ids + EndingsAmong(keys[i..], table) == EndingsAmong(keys, table)
    ensures (ids + (if IsEnding(keys[i], table[keys[i]]) then [keys[i]] else [])) + EndingsAmong(keys[i + 1..], table) ==
      EndingsAmong(keys, table)
  {
    var here := if IsEnding(keys[i], table[keys[i]]) then [keys[i]] else [];
    EndingsAmongStep(keys[i..], table);
    assert keys[i..][1..] == keys[i + 1..];
    assert (ids + here) + EndingsAmong(keys[i + 1..], table) == ids + (here + EndingsAmong(keys[i + 1..], table));
  }

  /** The `forEach` that pushes every ending id into `endingIds`. */
  method DetectEndings(m: SceneMap) returns (ids: seq<string>)
    requires m.WellFormed()
    ensures ids == EndingsAmong(m.keys, m.table)
    ensures forall x :: x in ids <==> x in m.table && IsEnding(x, m.table[x])
    ensures Distinct(ids)
  {
    ids := [];
    var i := 0;
    while i < |m.keys|
      invariant 0 <= i <= |m.keys|
      invariant ids + EndingsAmong(m.keys[i..], m.table) == EndingsAmong(m.keys, m.table)
    {
      var id := m.keys[i];
      var here := if IsEnding(id, m.table[id]) then [id] else [];
      DetectStep(m.keys, m.table, i, ids);
      ids := ids + here;
      i := i + 1;
    }
    assert ids + [] == ids;
    EndingsAmongMembers(m.keys, m.table);
  }

  // ---------------------------------------------------------------------
  // Ending synthesis
  // ---------------------------------------------------------------------

  /** `ending_synth_0`, ..., `ending_synth_{n-1}`. */
  function SynthIds(n: nat): (r: seq<string>)
    ensures |r| == n
    ensures forall j :: 0 <= j < n ==> r[j] == Tagged(SynthPrefix, j)
  {
    if n == 0 then [] else SynthIds(n - 1) + [Tagged(SynthPrefix, n - 1)]
  }

  /** `meta.endings` as the source computes it: the first six detected ids,
      or all of them followed by one synthesised id per missing slot, pushed
      whether or not that id was already listed. */
  function AsWrittenEndings(ids: seq<string>): (endings: seq<string>)
    ensures |endings| == EndingCount
  {
    if |ids| >= EndingCount then ids[..EndingCount] else ids + SynthIds(EndingCount - |ids|)
  }

  /** What holds while the synthesis loop as written runs, after `i` turns. */
  ghost predicate AsWrittenProgress(m: SceneMap, ids: seq<string>, r: SceneMap, endings: seq<string>, i: nat)
  {
    r.WellFormed() &&
    |endings| <= EndingCount && i == |endings| - |ids| && endings == ids + SynthIds(i) &&
    (forall k :: k in m.table ==> k in r.table && r.table[k] == m.table[k]) &&
    ((forall x :: x in ids ==> x in m.table && IsEnding(x, m.table[x])) ==>
      forall e :: e in endings ==> e in r.table && IsEnding(e, r.table[e])) &&
    (forall k :: k in r.table && k !in m.table ==> k in endings && StartsWith(k, SynthPrefix) && r.table[k] == SynthScene)
  }

  /** One turn of the loop as written when `synth` is missing: its scene is
      created and the id listed. */
  lemma AsWrittenCreate(m: SceneMap, ids: seq<string>, r: SceneMap, endings: seq<string>, i: nat)
    requires AsWrittenProgress(m, ids, r, endings, i) && |endings| < EndingCount
    requires Tagged(SynthPrefix, i) !in r.table
    ensures AsWrittenProgress(m, ids, r.Put(Tagged(SynthPrefix, i), SynthScene), endings + [Tagged(SynthPrefix, i)], i + 1)
  {
    var synth := Tagged(SynthPrefix, i);
    var r', endings' := r.Put(synth, SynthScene), endings + [synth];
    assert StartsWith(synth, SynthPrefix);
    assert endings' == ids + SynthIds(i + 1);
    assert forall k :: k in m.table ==> k in r'.table && r'.table[k] == m.table[k] by {
      assert synth !in m.table;
    }
    assert (forall x :: x in ids ==> x in m.table && IsEnding(x, m.table[x])) ==>
      forall e :: e in endings' ==> e in r'.table && IsEnding(e, r'.table[e]) by {
      assert IsEnding(synth, SynthScene);
    }
  }

  /** One turn of the loop as written when `synth` already exists: the id is
      listed again and no scene changes. */
  lemma AsWrittenKeep(m: SceneMap, ids: seq<string>, r: SceneMap, endings: seq<string>, i: nat)
    requires AsWrittenProgress(m, ids, r, endings, i) && |endings| < EndingCount
    requires Tagged(SynthPrefix, i) in r.table
    ensures AsWrittenProgress(m, ids, r, endings + [Tagged(SynthPrefix, i)], i + 1)
  {
    var synth := Tagged(SynthPrefix, i);
    assert StartsWith(synth, SynthPrefix);
    assert endings + [synth] == ids + SynthIds(i + 1);
    assert IsEnding(synth, r.table[synth]);
  }

  /** The synthesis loop as written: a missing `ending_synth_i` scene is
      created, and the id is pushed in either case. */
  method SynthesizeEndingsAsWritten(m: SceneMap, ids: seq<string>) returns (r: SceneMap, endings: seq<string>)
    requires m.WellFormed()
    ensures r.WellFormed()
    ensures endings == AsWrittenEndings(ids)
    ensures forall k :: k in m.table ==> k in r.table && r.table[k] == m.table[k]
    ensures (forall x :: x in ids ==> x in m.table && IsEnding(x, m.table[x])) ==>
      forall e :: e in endings ==> e in r.table && IsEnding(e, r.table[e])
    ensures forall k :: k in r.table && k !in m.table ==> k in endings && StartsWith(k, SynthPrefix) && r.table[k] == SynthScene
  {
    if |ids| >= EndingCount {
      return m, ids[..EndingCount];
    }
    r, endings := m, ids;
    var i: nat := 0;
    assert endings == ids + SynthIds(0);
    while |endings| < EndingCount
      invariant AsWrittenProgress(m, ids, r, endings, i)
      decreases EndingCount - |endings|
    {
      var synth := Tagged(SynthPrefix, i);
      if synth !in r.table {
        AsWrittenCreate(m, ids, r, endings, i);
        r := r.Put(synth, SynthScene);
      } else {
        AsWrittenKeep(m, ids, r, endings, i);
      }
      i := i + 1;
      endings := endings + [synth];
    }
  }

  /** What holds of the scene map and ending list while the corrected
      synthesis loop runs. */
  ghost predicate SynthProgress(m: SceneMap, ids: seq<string>, r: SceneMap, endings: seq<string>)
  {
    r.WellFormed() &&
    |ids| <= |endings| <= EndingCount && endings[..|ids|] == ids &&
    Distinct(endings) &&
    (forall e :: e in endings ==> e in r.table && IsEnding(e, r.table[e])) &&
    r.keys == m.keys + endings[|ids|..] &&
    (forall k :: k in m.table ==> k in r.table && r.table[k] == m.table[k]) &&
    (forall k :: k in r.table && k !in m.table ==> k in endings && StartsWith(k, SynthPrefix) && r.table[k] == SynthScene)
  }

  /** Creating a fresh synthesised scene and listing it keeps the progress
      facts. */
  lemma SynthPush(m: SceneMap, ids: seq<string>, r: SceneMap, endings: seq<string>, synth: string)
    requires SynthProgress(m, ids, r, endings) && |endings| < EndingCount
    requires synth !in r.table && StartsWith(synth, SynthPrefix)
    ensures SynthProgress(m, ids, r.Put(synth, SynthScene), endings + [synth])
  {
    var r', endings' := r.Put(synth, SynthScene), endings + [synth];
    assert endings'[..|ids|] == endings[..|ids|];
    assert endings'[|ids|..] == endings[|ids|..] + [synth];
    assert IsEnding(synth, SynthScene);
  }

  /** One turn of the corrected synthesis loop with the first `i` synthesised
      ids tried: creating and listing a missing `ending_synth_i` keeps the
      progress facts, and when the id is already taken there are more than
      `i` scenes, so the loop cannot skip forever. */
  lemma SynthStep(m: SceneMap, ids: seq<string>, r: SceneMap, endings: seq<string>, i: nat)
    requires SynthProgress(m, ids, r, endings) && |endings| < EndingCount
    requires forall j :: 0 <= j < i ==> Tagged(SynthPrefix, j) in r.table
    ensures var synth := Tagged(SynthPrefix, i);
      synth !in r.table ==>
        SynthProgress(m, ids, r.Put(synth, SynthScene), endings + [synth]) &&
        forall j :: 0 <= j < i + 1 ==> Tagged(SynthPrefix, j) in r.Put(synth, SynthScene).table
    ensures var synth := Tagged(SynthPrefix, i);
      synth in r.table ==> i < |r.table| && forall j :: 0 <= j < i + 1 ==> Tagged(SynthPrefix, j) in r.table
  {
    var synth := Tagged(SynthPrefix, i);
    assert StartsWith(synth, SynthPrefix);
    if synth !in r.table {
      SynthPush(m, ids, r, endings, synth);
    } else {
      TaggedIdsBound(SynthPrefix, i + 1, r.table.Keys);
    }
  }

  /** The synthesis loop with the push moved under the guard: an id is
      pushed only when its scene had to be created, so no id is listed
      twice. */
  method SynthesizeEndings(m: SceneMap, ids: seq<string>) returns (r: SceneMap, endings: seq<string>)
    requires m.WellFormed()
    requires Distinct(ids)
    requires forall x :: x in ids ==> x in m.table && IsEnding(x, m.table[x])
    ensures r.WellFormed()
    ensures |endings| == EndingCount && Distinct(endings)
    ensures forall e :: e in endings ==> e in r.table && IsEnding(e, r.table[e])
    ensures |ids| >= EndingCount ==> endings == ids[..EndingCount] && r == m
    ensures |ids| < EndingCount ==> endings[..|ids|] == ids && r.keys == m.keys + endings[|ids|..]
    ensures m.keys <= r.keys && |r.keys| <= |m.keys| + EndingCount
    ensures forall k :: k in m.table ==> k in r.table && r.table[k] == m.table[k]
    ensures forall k :: k in r.table && k !in m.table ==> k in endings && StartsWith(k, SynthPrefix) && r.table[k] == SynthScene
  {
    if |ids| >= EndingCount {
      return m, ids[..EndingCount];
    }
    r, endings := m, ids;
    assert endings[|ids|..] == [];
    var i: nat := 0;
    while |endings| < EndingCount
      invariant SynthProgress(m, ids, r, endings)
      invariant forall j :: 0 <= j < i ==> Tagged(SynthPrefix, j) in r.table
      decreases EndingCount - |endings|, |r.table| - i
    {
      SynthStep(m, ids, r, endings, i);
      var synth := Tagged(SynthPrefix, i);
      if synth !in r.table {
        r := r.Put(synth, SynthScene);
        endings := endings + [synth];
      }
      i := i + 1;
    }
  }

  // ---------------------------------------------------------------------
  // Self-loop rewrite
  // ---------------------------------------------------------------------

  /** One choice of scene `id`: a choice whose `goTo` or `next` names the
      scene itself is copied with `goTo` replaced by `target`. */
  function Redirected(id: string, c: NChoice, target: string): NChoice
  {
    if c.goTo == Some(id) || c.next == Some(id) then c.(goTo := Some(target)) else c
  }

  /** `choices.filter(Boolean)`. */
  function Present(cs: seq<Option<NChoice>>): (r: seq<NChoice>)
    ensures |r| <= |cs|
    ensures forall k :: 0 <= k < |cs| && cs[k].Some? ==> cs[k].value in r
    ensures forall c :: c in r ==> Some(c) in cs
    decreases |cs|
  {
    if cs == [] then []
    else (if cs[0].Some? then [cs[0].value] else []) + Present(cs[1..])
  }

  /** `choices.filter(Boolean).map(...)`: falsy entries dropped, the rest
      redirected when they loop back to the scene. */
  function RewriteChoices(id: string, cs: seq<Option<NChoice>>, target: string): (r: seq<Option<NChoice>>)
    ensures |r| <= |cs|
    ensures forall k :: 0 <= k < |r| ==> r[k].Some? && (target != id ==> r[k].value.goTo != Some(id))
    ensures forall k :: 0 <= k < |cs| && cs[k].Some? && cs[k].value.goTo != Some(id) && cs[k].value.next != Some(id) ==>
      cs[k] in r
    ensures forall k :: 0 <= k < |cs| && cs[k].Some? && (cs[k].value.goTo == Some(id) || cs[k].value.next == Some(id)) ==>
      Some(cs[k].value.(goTo := Some(target))) in r
    decreases |cs|
  {
    if cs == [] then []
    else
      var rest := RewriteChoices(id, cs[1..], target);
      assert forall k :: 0 < k < |cs| ==> cs[k] == cs[1..][k - 1];
      (if cs[0].Some? then [Some(Redirected(id, cs[0].value, target))] else []) + rest
  }

  /** No choice of scene `id` has `goTo` pointing at `id`. */
  predicate SceneLoopFree(id: string, s: NScene)
  {
    s.choices.Some? ==>
      forall k :: 0 <= k < |s.choices.value| && s.choices.value[k].Some? ==> s.choices.value[k].value.goTo != Some(id)
  }

  predicate NoSelfLoops(m: SceneMap)
  {
    forall k :: k in m.table ==> SceneLoopFree(k, m.table[k])
  }

  /** A scene after `s.choices = ...`; a scene without a choices array is
      left alone. */
  function RewriteScene(id: string, s: NScene, target: string): (r: NScene)
    ensures r.text == s.text && r.kind == s.kind && r.choices.Some? == s.choices.Some?
    ensures target != id ==> SceneLoopFree(id, r)
    ensures s.choices == Some([]) ==> r == s
    ensures IsEnding(id, s) ==> IsEnding(id, r)
  {
    match s.choices
    case None => s
    case Some(cs) => s.(choices := Some(RewriteChoices(id, cs, target)))
  }

  /** The rewrite as written: every self-loop goes to `meta.endings[0]`,
      which may be the looping scene itself. */
  function RewriteSceneAsWritten(id: string, s: NScene, endings: seq<string>): (r: NScene)
    requires |endings| > 0
    ensures r.text == s.text && r.kind == s.kind
    ensures IsEnding(id, s) ==> IsEnding(id, r)
    ensures endings[0] != id ==> r == RewriteScene(id, s, RedirectTarget(endings, id)) && SceneLoopFree(id, r)
  {
    RewriteScene(id, s, endings[0])
  }

  /** The corrected redirect target: the first ending other than the scene
      itself (the first ending when every entry is the scene). */
  function RedirectTarget(endings: seq<string>, id: string): (t: string)
    requires |endings| > 0
    ensures t in endings
    ensures endings[0] != id ==> t == endings[0]
    ensures (exists j :: 0 <= j < |endings| && endings[j] != id) ==> t != id
    decreases |endings|
  {
    if endings[0] != id || |endings| == 1 then endings[0] else RedirectTarget(endings[1..], id)
  }

  /** The loop over every scene, with the corrected target. */
  method RewriteSelfLoops(m: SceneMap, endings: seq<string>) returns (r: SceneMap)
    requires m.WellFormed() && |endings| > 0
    ensures r.WellFormed() && r.keys == m.keys
    ensures forall k :: k in r.table <==> k in m.table
    ensures forall k :: k in m.table ==> r.table[k] == RewriteScene(k, m.table[k], RedirectTarget(endings, k))
    ensures forall k :: k in m.table && IsEnding(k, m.table[k]) ==> IsEnding(k, r.table[k])
    ensures Distinct(endings) && |endings| >= 2 ==> NoSelfLoops(r)
  {
    r := m;
    var i := 0;
    while i < |m.keys|
      invariant 0 <= i <= |m.keys|
      invariant r.WellFormed() && r.keys == m.keys
      invariant forall k :: k in r.table <==> k in m.table
      invariant forall k :: k in m.table ==>
        r.table[k] == if k in m.keys[..i] then RewriteScene(k, m.table[k], RedirectTarget(endings, k)) else m.table[k]
    {
      var id := m.keys[i];
      assert m.keys[..i + 1] == m.keys[..i] + [id];
      assert id !in m.keys[..i];
      r := r.Put(id, RewriteScene(id, r.table[id], RedirectTarget(endings, id)));
      i := i + 1;
    }
    assert m.keys[..i] == m.keys;
    if Distinct(endings) && |endings| >= 2 {
      forall k | k in r.table ensures SceneLoopFree(k, r.table[k]) {
        DistinctEndingsLeaveATarget(endings, k);
      }
    }
  }

  // ---------------------------------------------------------------------
  // Trimming and padding
  // ---------------------------------------------------------------------

  /** The kept ids after visiting `cands` in order, starting from `acc`: a
      present candidate not yet kept is appended, and visiting stops once
      `cap` ids are kept. */
  function Gather(acc: seq<string>, cands: seq<string>, present: set<string>, cap: nat): seq<string>
    decreases |cands|
  {
    if cands == [] || |acc| >= cap then acc
    else Gather(if cands[0] in present && cands[0] !in acc then acc + [cands[0]] else acc, cands[1..], present, cap)
  }

  lemma {:induction false} GatherFacts(acc: seq<string>, cands: seq<string>, present: set<string>, cap: nat)
    requires Distinct(acc) && |acc| <= cap
    ensures var r := Gather(acc, cands, present, cap);
      acc <= r && Distinct(r) && |r| <= cap && |r| <= |acc| + |cands|
    ensures var r := Gather(acc, cands, present, cap);
      forall x :: x in r ==> x in acc || (x in cands && x in present)
    ensures var r := Gather(acc, cands, present, cap);
      |r| < cap || |acc| + |cands| <= cap ==> forall x :: x in cands && x in present ==> x in r
    decreases |cands|
  {
    if cands != [] && |acc| < cap {
      var next := if cands[0] in present && cands[0] !in acc then acc + [cands[0]] else acc;
      GatherFacts(next, cands[1..], present, cap);
      var r := Gather(next, cands[1..], present, cap);
      assert r == Gather(acc, cands, present, cap);
      assert acc <= next;
      forall x | x in cands && x in present && (|r| < cap || |acc| + |cands| <= cap)
        ensures x in r
      {
        if x == cands[0] {
          assert x in next;
          assert next <= r;
        } else {
          assert x in cands[1..];
        }
      }
    }
  }

  /** Visiting more distinct present candidates than the cap always reaches
      the cap. */
  lemma GatherReachesCap(acc: seq<string>, cands: seq<string>, present: set<string>, cap: nat)
    requires Distinct(acc) && |acc| <= cap
    requires Distinct(cands) && |cands| > cap
    requires forall x :: x in cands ==> x in present
    ensures |Gather(acc, cands, present, cap)| == cap
  {
    GatherFacts(acc, cands, present, cap);
    var r := Gather(acc, cands, present, cap);
    if |r| < cap {
      assert (set x | x in cands) <= (set x | x in r);
      DistinctCardinality(cands);
      DistinctCardinality(r);
      SubsetCardinality(set x | x in cands, set x | x in r);
      assert false;
    }
  }

  /** The part of `m` whose keys `sub` lists, in `sub`'s order. */
  ghost predicate SubMapOf(sub: SceneMap, m: SceneMap)
  {
    sub.WellFormed() && forall k :: k in sub.table ==> k in m.table && sub.table[k] == m.table[k]
  }

  /** One keeper copied into the trimmed map: the map stays a part of `m`
      and the keys still gather towards the same list. */
  lemma TrimKeepStep(m: SceneMap, trimmed: SceneMap, keep: seq<string>, j: nat, goal: seq<string>)
    requires SubMapOf(trimmed, m) && j < |keep| && |trimmed.keys| < Target
    requires Gather(trimmed.keys, keep[j..], m.table.Keys, Target) == goal
    ensures var k := keep[j]; var t := if k in m.table then trimmed.Put(k, m.table[k]) else trimmed;
      SubMapOf(t, m) && |t.keys| <= |trimmed.keys| + 1 &&
      Gather(t.keys, keep[j + 1..], m.table.Keys, Target) == goal
  {
    assert keep[j..][1..] == keep[j + 1..];
    assert keep[j..][0] == keep[j];
  }

  /** One scene of the key order copied into the trimmed map when not yet
      there: the same facts for the fill loop. */
  lemma TrimFillStep(m: SceneMap, trimmed: SceneMap, i: nat, goal: seq<string>)
    requires m.WellFormed() && SubMapOf(trimmed, m) && i < |m.keys| && |trimmed.keys| < Target
    requires Gather(trimmed.keys, m.keys[i..], m.table.Keys, Target) == goal
    ensures var k := m.keys[i]; var t := if k !in trimmed.table then trimmed.Put(k, m.table[k]) else trimmed;
      SubMapOf(t, m) && Gather(t.keys, m.keys[i + 1..], m.table.Keys, Target) == goal
  {
    assert m.keys[i..][1..] == m.keys[i + 1..];
    assert m.keys[i..][0] == m.keys[i];
    assert m.keys[i] in m.table;
  }

  /** What the two gathering passes leave: exactly 2513 scenes, the start
      and the endings among them when they exist, and no self-loop that `m`
      did not have. */
  lemma TrimDone(m: SceneMap, r: SceneMap, start: string, endings: seq<string>)
    requires m.WellFormed() && |m.keys| > Target && |endings| < Target
    requires SubMapOf(r, m)
    requires r.keys == Gather(Gather([], [start] + endings, m.table.Keys, Target), m.keys, m.table.Keys, Target)
    ensures |r.keys| == Target
    ensures start in m.table ==> start in r.table
    ensures forall e :: e in endings && e in m.table ==> e in r.table
    ensures NoSelfLoops(m) ==> NoSelfLoops(r)
  {
    var keep := [start] + endings;
    var present := m.table.Keys;
    var kept := Gather([], keep, present, Target);
    assert Distinct(kept) && |kept| <= Target && forall e :: e in keep && e in present ==> e in kept by {
      GatherFacts([], keep, present, Target);
    }
    assert kept <= r.keys by {
      GatherFacts(kept, m.keys, present, Target);
    }
    assert |r.keys| == Target by {
      GatherReachesCap(kept, m.keys, present, Target);
    }
    assert start in keep;
    assert forall e :: e in endings ==> e in keep;
  }

  /** The trimming branch: keepers first (the start and the endings, in
      `Set` order, when their scenes exist), then the other scenes in key
      order until 2513 are kept. */
  method Trim(m: SceneMap, start: string, endings: seq<string>) returns (r: SceneMap)
    requires m.WellFormed() && |m.keys| > Target
    requires |endings| < Target
    ensures SubMapOf(r, m) && |r.keys| == Target
    ensures r.keys == Gather(Gather([], [start] + endings, m.table.Keys, Target), m.keys, m.table.Keys, Target)
    ensures start in m.table ==> start in r.table
    ensures forall e :: e in endings && e in m.table ==> e in r.table
    ensures NoSelfLoops(m) ==> NoSelfLoops(r)
  {
    var trimmed := CopyKeepers(m, [start] + endings);
    r := FillInKeyOrder(m, trimmed);
    TrimDone(m, r, start, endings);
  }

  /** "Always include keepers first": each keeper whose scene exists is
      copied, in the keepers' order. */
  method CopyKeepers(m: SceneMap, keep: seq<string>) returns (trimmed: SceneMap)
    requires |keep| <= Target
    ensures SubMapOf(trimmed, m)
    ensures trimmed.keys == Gather([], keep, m.table.Keys, Target)
  {
    ghost var present := m.table.Keys;
    trimmed := SceneMap([], map[]);
    var j := 0;
    while j < |keep|
      invariant 0 <= j <= |keep|
      invariant SubMapOf(trimmed, m) && |trimmed.keys| <= j
      invariant Gather(trimmed.keys, keep[j..], present, Target) == Gather([], keep, present, Target)
    {
      TrimKeepStep(m, trimmed, keep, j, Gather([], keep, present, Target));
      var k := keep[j];
      if k in m.table {
        trimmed := trimmed.Put(k, m.table[k]);
      }
      j := j + 1;
    }
    assert keep[j..] == [];
  }

  /** "Fill remaining up to 2513": the scenes of `m` not yet kept, in key
      order, until 2513 are kept or the keys run out. */
  method FillInKeyOrder(m: SceneMap, kept: SceneMap) returns (trimmed: SceneMap)
    requires m.WellFormed() && SubMapOf(kept, m)
    ensures SubMapOf(trimmed, m)
    ensures trimmed.keys == Gather(kept.keys, m.keys, m.table.Keys, Target)
  {
    ghost var present := m.table.Keys;
    trimmed := kept;
    var i := 0;
    while i < |m.keys| && |trimmed.keys| < Target
      invariant 0 <= i <= |m.keys|
      invariant SubMapOf(trimmed, m)
      invariant Gather(trimmed.keys, m.keys[i..], present, Target) == Gather(kept.keys, m.keys, present, Target)
    {
      TrimFillStep(m, trimmed, i, Gather(kept.keys, m.keys, present, Target));
      var k := m.keys[i];
      if k !in trimmed.table {
        trimmed := trimmed.Put(k, m.table[k]);
      }
      i := i + 1;
    }
    assert Gather(trimmed.keys, m.keys[i..], present, Target) == trimmed.keys;
  }

  /** What holds of the scene map while the padding loop runs, having tried
      the first `i` filler ids. */
  ghost predicate PadProgress(m: SceneMap, r: SceneMap, target: string, i: nat)
  {
    r.WellFormed() && |r.keys| <= Target && m.keys <= r.keys &&
    (forall k :: k in m.table ==> k in r.table && r.table[k] == m.table[k]) &&
    (forall k :: k in r.table && k !in m.table ==> StartsWith(k, FillerPrefix) && r.table[k] == Filler(target)) &&
    (forall j :: 0 <= j < i ==> Tagged(FillerPrefix, j) in r.table)
  }

  /** One more filler id keeps the progress facts; fewer than 2513 scenes
      means fewer than 2513 ids were tried. */
  lemma PadStep(m: SceneMap, r: SceneMap, target: string, i: nat)
    requires PadProgress(m, r, target, i) && |r.keys| < Target
    ensures i < Target
    ensures var id := Tagged(FillerPrefix, i);
      PadProgress(m, if id in r.table then r else r.Put(id, Filler(target)), target, i + 1)
  {
    WellFormedSize(r);
    TaggedIdsBound(FillerPrefix, i, r.table.Keys);
    var id := Tagged(FillerPrefix, i);
    if id !in r.table {
      var r' := r.Put(id, Filler(target));
      assert r'.keys == r.keys + [id];
      assert forall j :: 0 <= j < i + 1 ==> Tagged(FillerPrefix, j) in r'.table;
    }
  }

  /** Fillers go to an existing scene other than themselves, so padding a
      map without self-loops adds none. */
  lemma PadKeepsLoopFree(m: SceneMap, r: SceneMap, target: string, i: nat)
    requires PadProgress(m, r, target, i)
    requires NoSelfLoops(m) && target in m.table
    ensures NoSelfLoops(r)
  {
    forall k | k in r.table ensures SceneLoopFree(k, r.table[k]) {
      if k !in m.table {
        assert Filler(target).choices.value[0].value.goTo == Some(target);
      }
    }
  }

  /** The padding branch: `filler_i` scenes for increasing i, skipping ids
      already taken, until there are 2513 scenes. */
  method Pad(m: SceneMap, target: string) returns (r: SceneMap)
    requires m.WellFormed() && |m.keys| < Target
    ensures r.WellFormed() && |r.keys| == Target
    ensures m.keys <= r.keys
    ensures forall k :: k in m.table ==> k in r.table && r.table[k] == m.table[k]
    ensures forall k :: k in r.table && k !in m.table ==> StartsWith(k, FillerPrefix) && r.table[k] == Filler(target)
    ensures NoSelfLoops(m) && target in m.table ==> NoSelfLoops(r)
  {
    r := m;
    var i: nat := 0;
    while |r.keys| < Target
      invariant PadProgress(m, r, target, i)
      decreases Target - i
    {
      PadStep(m, r, target, i);
      var id := Tagged(FillerPrefix, i);
      if id !in r.table {
        r := r.Put(id, Filler(target));
      }
      i := i + 1;
    }
    if NoSelfLoops(m) && target in m.table {
      PadKeepsLoopFree(m, r, target, i);
    }
  }

  /** "Cap/expand to exactly 2513 scenes": trim a larger map, pad a smaller
      one, leave one of exactly that size alone. */
  method FitToTarget(m: SceneMap, start: string, endings: seq<string>) returns (r: SceneMap)
    requires m.WellFormed() && 0 < |endings| < Target
    ensures r.WellFormed() && |r.keys| == Target
    ensures forall k :: k in r.table && k in m.table ==> r.table[k] == m.table[k]
    ensures |m.keys| <= Target ==> forall k :: k in m.table ==> k in r.table
    ensures start in m.table ==> start in r.table
    ensures forall e :: e in endings && e in m.table ==> e in r.table
    ensures NoSelfLoops(m) && endings[0] in m.table ==> NoSelfLoops(r)
    ensures forall k :: k in r.table && k !in m.table ==> StartsWith(k, FillerPrefix) && r.table[k] == Filler(endings[0])
    ensures |m.keys| <= Target ==> m.keys <= r.keys
    ensures |m.keys| > Target ==>
      r.keys == Gather(Gather([], [start] + endings, m.table.Keys, Target), m.keys, m.table.Keys, Target)
  {
    if |m.keys| > Target {
      r := Trim(m, start, endings);
    } else if |m.keys| < Target {
      r := Pad(m, endings[0]);
    } else {
      r := m;
    }
  }

  // ---------------------------------------------------------------------
  // The whole pass
  // ---------------------------------------------------------------------

  /** The ids of a key order, as a set. */
  function KeySet(keys: seq<string>): set<string>
  {
    set k | k in keys
  }

  lemma TableKeys(m: SceneMap)
    requires m.WellFormed()
    ensures m.table.Keys == KeySet(m.keys)
  {
  }

  /** The key order once the endings are fixed: the input's keys, then the
      synthesised ids in the order they were listed. */
  function RepairedKeys(input: SceneMap, endings: seq<string>): seq<string>
    requires input.WellFormed() && |endings| == EndingCount
  {
    var n := |EndingsAmong(input.keys, input.table)|;
    if n >= EndingCount then input.keys else input.keys + endings[n..]
  }

  /** Detection followed by synthesis, stated against the input. */
  method TopUpEndings(input: SceneMap) returns (m: SceneMap, endings: seq<string>)
    requires input.WellFormed()
    ensures m.WellFormed() && |m.keys| <= |input.keys| + EndingCount
    ensures |endings| == EndingCount && Distinct(endings)
    ensures m.keys == RepairedKeys(input, endings)
    ensures forall e :: e in endings ==> e in m.table && IsEnding(e, m.table[e])
    ensures var ids := EndingsAmong(input.keys, input.table);
      if |ids| >= EndingCount then endings == ids[..EndingCount] else endings[..|ids|] == ids
    ensures forall k :: k in input.table ==> k in m.table && m.table[k] == input.table[k]
    ensures forall k :: k in m.table && k !in input.table ==>
      k in endings && StartsWith(k, SynthPrefix) && m.table[k] == SynthScene
  {
    var ids := DetectEndings(input);
    m, endings := SynthesizeEndings(input, ids);
  }

  /** The phases that fix the endings: detect them, top them up to six and
      break every self-loop, keeping every input scene. */
  method Repair(input: SceneMap) returns (m: SceneMap, endings: seq<string>)
    requires input.WellFormed()
    ensures m.WellFormed() && |m.keys| <= |input.keys| + EndingCount
    ensures |endings| == EndingCount && Distinct(endings)
    ensures m.keys == RepairedKeys(input, endings)
    ensures forall e :: e in endings ==> e in m.table && IsEnding(e, m.table[e])
    ensures var ids := EndingsAmong(input.keys, input.table);
      if |ids| >= EndingCount then endings == ids[..EndingCount] else endings[..|ids|] == ids
    ensures forall k :: k in input.table ==>
      k in m.table && m.table[k] == RewriteScene(k, input.table[k], RedirectTarget(endings, k))
    ensures forall k :: k in m.table && k !in input.table ==>
      k in endings && StartsWith(k, SynthPrefix) && m.table[k] == SynthScene
    ensures NoSelfLoops(m)
  {
    var synthesized;
    synthesized, endings := TopUpEndings(input);
    m := RewriteSelfLoops(synthesized, endings);
  }

  /** The normaliser, with the two corrections of its synthesis and
      rewrite steps. */
  method Normalize(input: SceneMap) returns (db: Database)
    requires input.WellFormed()
    ensures db.scenes.WellFormed()
    ensures |db.scenes.keys| == Target && db.total == Target
    ensures |db.endings| == EndingCount && Distinct(db.endings)
    ensures forall e :: e in db.endings ==> e in db.scenes.table && IsEnding(e, db.scenes.table[e])
    ensures var ids := EndingsAmong(input.keys, input.table);
      if |ids| >= EndingCount then db.endings == ids[..EndingCount] else db.endings[..|ids|] == ids
    ensures db.start == ChooseStart(input, PresetStart)
    ensures db.start in input.table ==> db.start in db.scenes.table
    ensures |input.keys| + EndingCount <= Target ==> forall k :: k in input.table ==> k in db.scenes.table
    ensures forall k :: k in db.scenes.table && k in input.table ==>
      db.scenes.table[k] == RewriteScene(k, input.table[k], RedirectTarget(db.endings, k))
    ensures forall k :: k in db.scenes.table && k !in input.table ==>
      (k in db.endings && StartsWith(k, SynthPrefix) && db.scenes.table[k] == SynthScene) ||
      (StartsWith(k, FillerPrefix) && db.scenes.table[k] == Filler(db.endings[0]))
    ensures var keys := RepairedKeys(input, db.endings);
      |keys| <= Target ==> keys <= db.scenes.keys
    ensures var keys := RepairedKeys(input, db.endings);
      |keys| > Target ==>
        db.scenes.keys == Gather(Gather([], [db.start] + db.endings, KeySet(keys), Target), keys, KeySet(keys), Target)
    ensures NoSelfLoops(db.scenes)
  {
    var start := ChooseStart(input, PresetStart);
    var m, endings := Repair(input);
    assert endings[0] in endings;
    TableKeys(m);
    m := FitToTarget(m, start, endings);
    db := Database(m, start, endings, |m.keys|);
  }

  /** Keeping `first` before anything else puts it at the head of the
      trimmed key order. */
  lemma GatherLeadsWith(first: string, rest: seq<string>, more: seq<string>, present: set<string>, cap: nat)
    requires first in present && 0 < cap
    ensures var kept := Gather(Gather([], [first] + rest, present, cap), more, present, cap);
      |kept| > 0 && kept[0] == first
  {
    assert ([first] + rest)[1..] == rest && ([first] + rest)[0] == first;
    assert [] + [first] == [first];
    var once := Gather([first], rest, present, cap);
    assert Gather([], [first] + rest, present, cap) == once;
    GatherFacts([first], rest, present, cap);
    GatherFacts(once, more, present, cap);
  }

  /** A start scene the first run found is still the start on the output:
      either it is "intro", which survives, or it is the first input key,
      which stays first and no added scene is called "intro". */
  lemma StartSurvivesRerun(input: SceneMap, db: Database)
    requires input.WellFormed() && db.scenes.WellFormed() && |db.scenes.keys| == Target
    requires |db.endings| == EndingCount
    requires db.start == ChooseStart(input, PresetStart) && db.start in input.table
    requires db.start in db.scenes.table
    requires forall k :: k in db.scenes.table && k !in input.table ==>
      StartsWith(k, SynthPrefix) || StartsWith(k, FillerPrefix)
    requires var keys := RepairedKeys(input, db.endings);
      |keys| <= Target ==> keys <= db.scenes.keys
    requires var keys := RepairedKeys(input, db.endings);
      |keys| > Target ==>
        db.scenes.keys == Gather(Gather([], [db.start] + db.endings, KeySet(keys), Target), keys, KeySet(keys), Target)
    ensures ChooseStart(db.scenes, PresetStart) == db.start
  {
    if PresetStart !in input.table {
      assert input.keys != [] && input.keys[0] != "" && db.start == input.keys[0];
      assert PresetStart !in db.scenes.table by {
        assert !StartsWith(PresetStart, SynthPrefix) && !StartsWith(PresetStart, FillerPrefix);
      }
      var keys := RepairedKeys(input, db.endings);
      assert keys[0] == input.keys[0];
      if |keys| > Target {
        assert db.start in KeySet(keys);
        GatherLeadsWith(db.start, db.endings, keys, KeySet(keys), Target);
      }
      assert db.scenes.keys[0] == db.start;
    }
  }

  /** Normalising the normaliser's own output keeps `meta.total`, and keeps
      `meta.start` whenever the first run found a start scene. */
  method NormalizeTwice(input: SceneMap) returns (first: Database, second: Database)
    requires input.WellFormed()
    ensures first.total == Target && second.total == Target
    ensures first.start in input.table ==> second.start == first.start
  {
    first := Normalize(input);
    if first.start in input.table {
      StartSurvivesRerun(input, first);
    }
    second := Normalize(first.scenes);
  }

  /** `meta.endings` is not stable under a second run: with more than 2513
      scenes and an `intro` that is an ending but not among the first six
      detected, the first run keeps `intro` ahead of the endings, so the
      second run detects it first. */
  method NormalizeTwiceReordersEndings(input: SceneMap) returns (first: Database, second: Database)
    requires input.WellFormed() && |input.keys| > Target
    requires PresetStart in input.table && IsEnding(PresetStart, input.table[PresetStart])
    requires |EndingsAmong(input.keys, input.table)| >= EndingCount
    requires PresetStart !in EndingsAmong(input.keys, input.table)[..EndingCount]
    ensures |first.endings| == EndingCount && |second.endings| == EndingCount
    ensures first.endings[0] != PresetStart && second.endings[0] == PresetStart
  {
    first := Normalize(input);
    second := Normalize(first.scenes);
    assert first.endings[0] in EndingsAmong(input.keys, input.table)[..EndingCount];
    TableKeys(input);
    GatherLeadsWith(PresetStart, first.endings, input.keys, KeySet(input.keys), Target);
    var out := first.scenes;
    assert out.keys[0] == PresetStart;
    assert IsEnding(PresetStart, out.table[PresetStart]);
    EndingsAmongStep(out.keys, out.table);
    var again := EndingsAmong(out.keys, out.table);
    assert again[0] == PresetStart;
    if |again| < EndingCount {
      assert second.endings[..|again|][0] == second.endings[0];
    }
  }

  /** `filter(Boolean)` can turn a scene into an ending: a scene named
      "ending" whose only choice is falsy is not an ending before the
      rewrite and is one after it, so a second run detects it. */
  lemma FilterCanMakeAnEnding(target: string)
    ensures var s := NScene("", None, Some([None]));
      !IsEnding("ending", s) && IsEnding("ending", RewriteScene("ending", s, target))
  {
    assert Lower("ending") == "ending";
    assert "ending"[..6] == "ending";
  }

  // ---------------------------------------------------------------------
  // What the phases guarantee
  // ---------------------------------------------------------------------

  /** The rewrite is `filter(Boolean)` followed by a `map` of `Redirected`
      over what is left, in order. */
  lemma {:induction false} RewriteIsFilterThenMap(id: string, cs: seq<Option<NChoice>>, target: string)
    ensures |RewriteChoices(id, cs, target)| == |Present(cs)|
    ensures forall k :: 0 <= k < |Present(cs)| ==>
      RewriteChoices(id, cs, target)[k] == Some(Redirected(id, Present(cs)[k], target))
    decreases |cs|
  {
    if cs != [] {
      RewriteIsFilterThenMap(id, cs[1..], target);
      if cs[0].Some? {
        assert Present(cs) == [cs[0].value] + Present(cs[1..]);
        assert RewriteChoices(id, cs, target) == [Some(Redirected(id, cs[0].value, target))] + RewriteChoices(id, cs[1..], target);
      } else {
        assert Present(cs) == Present(cs[1..]);
        assert RewriteChoices(id, cs, target) == RewriteChoices(id, cs[1..], target);
      }
    }
  }

  /** Rewriting a second time (with the same target) changes nothing. */
  lemma {:induction false} RewriteIdempotent(id: string, cs: seq<Option<NChoice>>, target: string)
    ensures RewriteChoices(id, RewriteChoices(id, cs, target), target) == RewriteChoices(id, cs, target)
    decreases |cs|
  {
    if cs != [] {
      RewriteIdempotent(id, cs[1..], target);
      var once := RewriteChoices(id, cs, target);
      if cs[0].Some? {
        assert once[1..] == RewriteChoices(id, cs[1..], target);
      } else {
        assert once == RewriteChoices(id, cs[1..], target);
      }
    }
  }

  /** Six distinct endings always leave a redirect target other than the
      looping scene. */
  lemma DistinctEndingsLeaveATarget(endings: seq<string>, id: string)
    requires Distinct(endings) && |endings| >= 2
    ensures RedirectTarget(endings, id) != id
  {
    assert endings[0] != endings[1];
  }

  /** The scene map of the first finding: an `ending_synth_0` scene already
      exists and is the only detected ending. */
  function SynthClashExample(): SceneMap
  {
    SceneMap(["intro", "ending_synth_0"],
             map["intro" := Filler("ending_synth_0"), "ending_synth_0" := SynthScene])
  }

  /** As written, the existing `ending_synth_0` is pushed a second time, so
      `meta.endings` lists it twice and names only five distinct endings.
      The corrected synthesis never lists an id twice (its `Distinct`
      postcondition). */
  lemma SynthClashDuplicates()
    ensures SynthClashExample().WellFormed()
    ensures EndingsAmong(SynthClashExample().keys, SynthClashExample().table) == ["ending_synth_0"]
    ensures var e := AsWrittenEndings(["ending_synth_0"]);
      e[0] == e[1] == "ending_synth_0" && !Distinct(e)
  {
    var m := SynthClashExample();
    assert !StartsWith("intro", EndingPrefix);
    assert !ContainsFolded("intro", "ending");
    assert !IsEnding("intro", m.table["intro"]);
    assert IsEnding("ending_synth_0", m.table["ending_synth_0"]);
    assert m.keys[1..] == ["ending_synth_0"];
    assert m.keys[1..][1..] == [];
    assert NatToString(0) == "0";
    assert Tagged(SynthPrefix, 0) == "ending_synth_0";
    assert SynthIds(5)[0] == Tagged(SynthPrefix, 0);
  }

  /** The second finding: an ending scene whose one choice loops back to
      itself, when that scene is the first ending. */
  function SelfLoopEnding(): NScene
  {
    NScene("", Some("ending"), Some([Some(NChoice("Stay", Some("ending_stay"), None))]))
  }

  /** As written, the rewrite sends the loop to `meta.endings[0]`, which is
      the scene itself, so the self-loop survives. The corrected target
      removes it. */
  lemma SelfLoopSurvivesRewrite(endings: seq<string>)
    requires |endings| >= 2 && Distinct(endings) && endings[0] == "ending_stay"
    ensures !SceneLoopFree("ending_stay", RewriteSceneAsWritten("ending_stay", SelfLoopEnding(), endings))
    ensures SceneLoopFree("ending_stay", RewriteScene("ending_stay", SelfLoopEnding(), RedirectTarget(endings, "ending_stay")))
  {
    var cs := SelfLoopEnding().choices.value;
    assert cs[1..] == [];
    var r := RewriteSceneAsWritten("ending_stay", SelfLoopEnding(), endings);
    assert r.choices.value[0] == Some(NChoice("Stay", Some("ending_stay"), None));
    DistinctEndingsLeaveATarget(endings, "ending_stay");
  }
}
