/** What the two editions of the narrative engine share: the bounded stats
    and their clamping, the flag operations that scene hooks perform, the six
    endings with their criteria, first-match ending search, the clock's
    hour-to-day roll-over and the four-choice cap. */
module Story {

  datatype Option<T> = None | Some(value: T) {
    function GetOr(default: T): T {
      match this
      case Some(v) => v
      case None => default
    }
  }

  // ---------------------------------------------------------------------
  // Bounded stats
  // ---------------------------------------------------------------------

  const MoralityMin: int := -100
  const MoralityMax: int := 100
  const GaugeMin: int := 0     // trauma and stress share the range 0..100
  const GaugeMax: int := 100

  /** `Math.max(min, Math.min(max, value))`: the value forced into [min, max];
      a value already in range is returned unchanged. */
  function Clamp(value: int, min: int, max: int): (r: int)
    ensures min <= max ==> min <= r <= max
    ensures min <= value <= max ==> r == value
    ensures min <= max && value < min ==> r == min
    ensures min <= max && max < value ==> r == max
  {
    var upper := if max < value then max else value;
    if min < upper then upper else min
  }

  /** morality in [-100, 100], trauma and stress in [0, 100]. */
  predicate StatsInRange(morality: int, trauma: int, stress: int)
  {
    MoralityMin <= morality <= MoralityMax &&
    GaugeMin <= trauma <= GaugeMax &&
    GaugeMin <= stress <= GaugeMax
  }

  /** One clamped stat update: a zero delta leaves the stat alone, any other
      delta moves it to the clamped sum. */
  function Nudge(stat: int, delta: int, min: int, max: int): (r: int)
    ensures delta == 0 ==> r == stat
    ensures min <= max && delta != 0 ==> min <= r <= max
    ensures min <= stat <= max ==> min <= r <= max
    ensures min <= stat + delta <= max ==> r == stat + delta
  {
    if delta != 0 then Clamp(stat + delta, min, max) else stat
  }

  // ---------------------------------------------------------------------
  // Hooks: a choice's `after` and a scene's `onEnter`
  // ---------------------------------------------------------------------

  /** The state mutations the scene hooks of both editions perform: set one
      flag, or set bloomChoice when bloomInsight is set and bloomChoice is not
      (the `listen_song` choice of the finale). */
  datatype FlagOp = SetFlag(name: string) | PromoteBloom

  const BloomChoice: string := "bloomChoice"
  const BloomInsight: string := "bloomInsight"

  function ApplyOp(flags: set<string>, op: FlagOp): (r: set<string>)
    ensures flags <= r
    ensures op.SetFlag? ==> op.name in r && r - {op.name} <= flags
    ensures op.PromoteBloom? ==> r == if BloomInsight in flags then flags + {BloomChoice} else flags
  {
    match op
    case SetFlag(f) => flags + {f}
    case PromoteBloom => if BloomChoice !in flags && BloomInsight in flags then flags + {BloomChoice} else flags
  }

  /** A hook is a sequence of flag operations run in order; the empty
      sequence stands for an absent hook. */
  function ApplyHook(flags: set<string>, ops: seq<FlagOp>): set<string>
    decreases |ops|
  {
    if ops == [] then flags else ApplyHook(ApplyOp(flags, ops[0]), ops[1..])
  }

  /** Every flag a hook may set. */
  function MaySet(ops: seq<FlagOp>): set<string>
  {
    (set i | 0 <= i < |ops| && ops[i].SetFlag? :: ops[i].name) +
    (if exists i :: 0 <= i < |ops| && ops[i].PromoteBloom? then {BloomChoice} else {})
  }

  /** Hooks only ever add flags, and only the flags they name. */
  lemma {:induction false} HookOnlyAdds(flags: set<string>, ops: seq<FlagOp>)
    ensures flags <= ApplyHook(flags, ops)
    ensures ApplyHook(flags, ops) <= flags + MaySet(ops)
    decreases |ops|
  {
    if ops != [] {
      var next := ApplyOp(flags, ops[0]);
      HookOnlyAdds(next, ops[1..]);
      assert next <= flags + MaySet(ops) by {
        if ops[0].PromoteBloom? {
          assert exists i :: 0 <= i < |ops| && ops[i].PromoteBloom? by { assert ops[0].PromoteBloom?; }
        } else {
          assert ops[0].name in MaySet(ops);
        }
      }
      assert MaySet(ops[1..]) <= MaySet(ops) by {
        forall f | f in MaySet(ops[1..]) ensures f in MaySet(ops) {
          if f in (set i | 0 <= i < |ops[1..]| && ops[1..][i].SetFlag? :: ops[1..][i].name) {
            var i :| 0 <= i < |ops[1..]| && ops[1..][i].SetFlag? && ops[1..][i].name == f;
            assert ops[i + 1].SetFlag? && ops[i + 1].name == f;
          } else {
            var i :| 0 <= i < |ops[1..]| && ops[1..][i].PromoteBloom?;
            assert ops[i + 1].PromoteBloom?;
          }
        }
      }
    }
  }

  // ---------------------------------------------------------------------
  // Endings
  // ---------------------------------------------------------------------

  /** The three shapes of ending criteria found in both editions. */
  datatype Criterion =
    | MoralityAtLeast(bound: int)                            // morality >= bound
    | MoralityAtMostTraumaBelow(moralityMax: int, traumaBound: int) // morality <= m && trauma < t
    | HasFlag(flag: string)                                  // the flag is set

  datatype Ending = Ending(id: string, title: string, criteria: Criterion)

  predicate Holds(c: Criterion, morality: int, trauma: int, flags: set<string>)
  {
    match c
    case MoralityAtLeast(b) => morality >= b
    case MoralityAtMostTraumaBelow(m, t) => morality <= m && trauma < t
    case HasFlag(f) => f in flags
  }

  const Saint := Ending("ending_saint", "Saint of Ashes", MoralityAtLeast(45))
  const Tyrant := Ending("ending_tyrant", "Tyrant of the Block", MoralityAtMostTraumaBelow(-45, 80))
  const Ghost := Ending("ending_ghost", "The Ghost in the Vents", HasFlag("stalker"))
  const Manipulator := Ending("ending_manipulator", "Smiling Knives", HasFlag("manipulator"))
  const LoneSurvivor := Ending("ending_lone_survivor", "Alone On Purpose", HasFlag("loneWolf"))
  const Bloomborne := Ending("ending_bloomborne", "Bloomborne", HasFlag(BloomChoice))

  /** The ids of a list of endings, in list order. */
  function Ids(endings: seq<Ending>): (r: seq<string>)
    ensures |r| == |endings|
    ensures forall i :: 0 <= i < |endings| ==> r[i] == endings[i].id
    decreases |endings|
  {
    if endings == [] then [] else [endings[0].id] + Ids(endings[1..])
  }

  /** What each of the six endings asks of the player, by its id. */
  lemma EndingCriteria(morality: int, trauma: int, flags: set<string>)
    ensures Saint.id == "ending_saint" && (Holds(Saint.criteria, morality, trauma, flags) <==> morality >= 45)
    ensures Tyrant.id == "ending_tyrant" &&
      (Holds(Tyrant.criteria, morality, trauma, flags) <==> morality <= -45 && trauma < 80)
    ensures Ghost.id == "ending_ghost" && (Holds(Ghost.criteria, morality, trauma, flags) <==> "stalker" in flags)
    ensures Manipulator.id == "ending_manipulator" &&
      (Holds(Manipulator.criteria, morality, trauma, flags) <==> "manipulator" in flags)
    ensures LoneSurvivor.id == "ending_lone_survivor" &&
      (Holds(LoneSurvivor.criteria, morality, trauma, flags) <==> "loneWolf" in flags)
    ensures Bloomborne.id == "ending_bloomborne" &&
      (Holds(Bloomborne.criteria, morality, trauma, flags) <==> "bloomChoice" in flags)
  {
  }

  /** Index of the first ending whose criteria hold, if any. */
  function FirstMatchIndex(endings: seq<Ending>, morality: int, trauma: int, flags: set<string>): (r: Option<nat>)
    ensures r.Some? ==> r.value < |endings| && Holds(endings[r.value].criteria, morality, trauma, flags)
    ensures r.Some? ==> forall j :: 0 <= j < r.value ==> !Holds(endings[j].criteria, morality, trauma, flags)
    ensures r.None? ==> forall j :: 0 <= j < |endings| ==> !Holds(endings[j].criteria, morality, trauma, flags)
    decreases |endings|
  {
    if endings == [] then None
    else if Holds(endings[0].criteria, morality, trauma, flags) then Some(0)
    else match FirstMatchIndex(endings[1..], morality, trauma, flags)
      case None => None
      case Some(i) => Some(i + 1)
  }

  /** The first ending whose criteria hold is the one FirstMatchIndex finds. */
  lemma FirstMatchIndexIs(endings: seq<Ending>, morality: int, trauma: int, flags: set<string>, i: nat)
    requires i < |endings| && Holds(endings[i].criteria, morality, trauma, flags)
    requires forall j :: 0 <= j < i ==> !Holds(endings[j].criteria, morality, trauma, flags)
    ensures FirstMatchIndex(endings, morality, trauma, flags) == Some(i)
  {
  }

  // ---------------------------------------------------------------------
  // Clock
  // ---------------------------------------------------------------------

  /** Where `while (total >= 24) { total -= 24; day += 1; }` lands, in closed
      form: (day, hour) after the loop, given the start day and the
      not-yet-rolled hour total. */
  function Rolled(day: int, total: int): (r: (int, int))
    ensures r.0 * 24 + r.1 == day * 24 + total
    ensures r.1 < 24 && r.0 >= day
    ensures 0 <= r.1 <==> 0 <= total
    ensures total < 24 ==> r == (day, total)
  {
    if total >= 24 then (day + total / 24, total % 24) else (day, total)
  }

  // ---------------------------------------------------------------------
  // Offered choices
  // ---------------------------------------------------------------------

  /** The choices a scene offers: at most the first four declared. */
  function FirstFour<T>(choices: seq<T>): (r: seq<T>)
    ensures |r| <= 4 && r <= choices
    ensures |choices| <= 4 ==> r == choices
    ensures 4 <= |choices| ==> |r| == 4
  {
    if |choices| > 4 then choices[..4] else choices
  }
}
