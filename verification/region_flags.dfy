/** The region-flag listener: which state flags filter the blocks of a
    place or break event, and when a player's fall damage is cancelled.
    The region query is a parameter of every decision. */
module RegionFlagsListener {
  import opened Base
  import opened GameTypes
  import opened Actors
  import opened Causes
  import opened AbstractListener
  import Materials

  /** The state flags the listener consults. */
  datatype StateFlag =
    | Pistons | SnowmanTrails | CreeperExplosion | EnderdragonBlockDamage
    | OtherExplosion | EnderBuild | RavagerRavage | FallDamage

  /** The region query: does `flag` allow the action at a location for an
      associable (`None` stands for the null associable)? */
  type RegionQuery = (Location, Option<Associable>, StateFlag) -> bool

  /** One call of the event's `filter`: the per-location test is
      `TestState(query, flag)`, the region query of `flag` with the null
      associable, and `cancelOnFalse` says whether a rejected location
      cancels the whole event. */
  datatype Filter = Filter(flag: StateFlag, cancelOnFalse: bool)

  /** `testState`: the per-location predicate a filter applies. */
  function TestState(query: RegionQuery, flag: StateFlag): (r: Location -> bool)
    ensures forall loc :: r(loc) == query(loc, None, flag)
  {
    loc => query(loc, None, flag)
  }

  /** The filters test a flag on nobody's behalf: two queries that agree on
      the null associable give the same per-location test, whatever they
      answer for members, owners or players. */
  lemma TestStateIgnoresAssociable(q1: RegionQuery, q2: RegionQuery, flag: StateFlag)
    requires forall loc :: q1(loc, None, flag) == q2(loc, None, flag)
    ensures forall loc :: TestState(q1, flag)(loc) == TestState(q2, flag)(loc)
  {
  }

  /** The position of each flag's test in the handlers' code. */
  function FlagRank(f: StateFlag): nat
  {
    match f
    case Pistons => 0 case SnowmanTrails => 1 case CreeperExplosion => 2
    case EnderdragonBlockDamage => 3 case OtherExplosion => 4 case EnderBuild => 5
    case RavagerRavage => 6 case FallDamage => 7
  }

  /** The filters come in the order the handler tests their conditions, so
      no flag is applied twice. */
  predicate InSourceOrder(r: seq<Filter>)
  {
    forall i, j :: 0 <= i < j < |r| ==> FlagRank(r[i].flag) < FlagRank(r[j].flag)
  }

  /** Some entity of the chain has type `t` (Java: `find(t) != null`). */
  predicate InChain(c: Cause, t: EntityType)
  {
    exists i :: 0 <= i < |c.causes| && c.causes[i].body.EntityBody? && c.causes[i].body.entity.etype == t
  }

  /** The first block of the chain is a piston block. */
  predicate FirstBlockIsPiston(c: Cause)
  {
    exists i :: 0 <= i < |c.causes| && IsBlock(c.causes[i].body)
                && Materials.IsPistonBlock(c.causes[i].body.material)
                && forall j :: 0 <= j < i ==> !IsBlock(c.causes[j].body)
  }

  lemma FindIffInChain(c: Cause, t: EntityType)
    ensures Find(c, [t]).Some? <==> InChain(c, t)
  {
    if InChain(c, t) {
      var i :| 0 <= i < |c.causes| && c.causes[i].body.EntityBody? && c.causes[i].body.entity.etype == t;
      assert OfType(c.causes[i].body, [t]);
    }
  }

  lemma FirstBlockIffPiston(c: Cause)
    ensures (GetFirstBlock(c).Some? && Materials.IsPistonBlock(GetFirstBlock(c).value.body.material))
            <==> FirstBlockIsPiston(c)
  {
    var r := GetFirstBlock(c);
    if r.Some? {
      var i :| 0 <= i < |c.causes| && c.causes[i] == r.value && IsBlock(c.causes[i].body)
               && forall j :: 0 <= j < i ==> !IsBlock(c.causes[j].body);
      if FirstBlockIsPiston(c) {
        var k :| 0 <= k < |c.causes| && IsBlock(c.causes[k].body)
                 && Materials.IsPistonBlock(c.causes[k].body.material)
                 && forall j :: 0 <= j < k ==> !IsBlock(c.causes[j].body);
        assert k == i;
      }
    }
  }

  /** One row of a handler's filter table: the filter is applied iff the
      row's condition holds. */
  datatype Rule = Rule(applies: bool, filter: Filter)

  /** The filters of the rows whose condition holds, in table order. */
  function Select(rules: seq<Rule>): (r: seq<Filter>)
    ensures |r| <= |rules|
  {
    if |rules| == 0 then []
    else (if rules[0].applies then [rules[0].filter] else []) + Select(rules[1..])
  }

  /** Some applying row carries `f`. */
  predicate Carried(rules: seq<Rule>, f: Filter)
  {
    exists i :: 0 <= i < |rules| && rules[i].applies && rules[i].filter == f
  }

  /** A filter is selected iff some applying row carries it. */
  lemma {:induction false} SelectMember(rules: seq<Rule>, f: Filter)
    ensures f in Select(rules) <==> Carried(rules, f)
  {
    if |rules| > 0 {
      SelectMember(rules[1..], f);
      if f in Select(rules[1..]) {
        var i :| 0 <= i < |rules[1..]| && rules[1..][i].applies && rules[1..][i].filter == f;
        assert rules[i + 1] == rules[1..][i];
      }
      if Carried(rules, f) {
        var i :| 0 <= i < |rules| && rules[i].applies && rules[i].filter == f;
        if i > 0 {
          assert rules[1..][i - 1] == rules[i];
        }
      }
    }
  }

  /** Every selected filter comes from an applying row. */
  lemma {:induction false} SelectFrom(rules: seq<Rule>)
    ensures forall k :: 0 <= k < |Select(rules)| ==> Carried(rules, Select(rules)[k])
  {
    forall k | 0 <= k < |Select(rules)|
      ensures Carried(rules, Select(rules)[k])
    {
      assert Select(rules)[k] in Select(rules);
      SelectMember(rules, Select(rules)[k]);
    }
  }

  /** A row whose filter no other row carries is selected iff it applies. */
  lemma SelectUnique(rules: seq<Rule>, i: nat)
    requires i < |rules|
    requires forall j :: 0 <= j < |rules| && j != i ==> rules[j].filter != rules[i].filter
    ensures rules[i].filter in Select(rules) <==> rules[i].applies
  {
    SelectMember(rules, rules[i].filter);
  }

  /** The rows' flags are ranked in table order. */
  predicate RulesInOrder(rules: seq<Rule>)
  {
    forall i, j :: 0 <= i < j < |rules| ==> FlagRank(rules[i].filter.flag) < FlagRank(rules[j].filter.flag)
  }

  /** A table ranked in order selects its filters in source order. */
  lemma {:induction false} SelectInOrder(rules: seq<Rule>)
    requires RulesInOrder(rules)
    ensures InSourceOrder(Select(rules))
  {
    if |rules| > 0 {
      var rest := rules[1..];
      assert RulesInOrder(rest) by {
        forall i, j | 0 <= i < j < |rest|
          ensures FlagRank(rest[i].filter.flag) < FlagRank(rest[j].filter.flag)
        {
          assert rest[i] == rules[i + 1] && rest[j] == rules[j + 1];
        }
      }
      SelectInOrder(rest);
      SelectFrom(rest);
      var s := Select(rest);
      var head := if rules[0].applies then [rules[0].filter] else [];
      assert Select(rules) == head + s;
      forall k | 0 <= k < |s|
        ensures FlagRank(rules[0].filter.flag) < FlagRank(s[k].flag)
      {
        assert Carried(rest, s[k]);
        var i :| 0 <= i < |rest| && rest[i].applies && rest[i].filter == s[k];
        assert rest[i] == rules[i + 1];
      }
    }
  }

  /** The rows of `onPlaceBlock`, in the order of the code. */
  function PlaceRules(c: Cause): seq<Rule>
  {
    var block := GetFirstBlock(c);
    [Rule(block.Some? && Materials.IsPistonBlock(block.value.body.material), Filter(Pistons, false)),
     Rule(Find(c, [Snowman]).Some?, Filter(SnowmanTrails, false)),
     Rule(Find(c, [Enderman]).Some?, Filter(EnderBuild, false))]
  }

  /** The rows of `onBreakBlock`, in the order of the code; `x` is the
      world's `explosionFlagCancellation`. */
  function BreakRules(x: bool, c: Cause): seq<Rule>
  {
    var block := GetFirstBlock(c);
    [Rule(block.Some? && Materials.IsPistonBlock(block.value.body.material), Filter(Pistons, false)),
     Rule(Find(c, [Creeper]).Some?, Filter(CreeperExplosion, x)),
     Rule(Find(c, [EnderDragon]).Some?, Filter(EnderdragonBlockDamage, x)),
     Rule(Find(c, [EnderCrystal]).Some?, Filter(OtherExplosion, x)),
     Rule(Find(c, [Enderman]).Some?, Filter(EnderBuild, false)),
     Rule(Find(c, [Ravager]).Some?, Filter(RavagerRavage, false))]
  }

  /** `onPlaceBlock`: the filters applied to the blocks being placed, none
      of which cancels the event. */
  function OnPlaceBlock(regionsEnabled: bool, c: Cause): (r: seq<Filter>)
    ensures !regionsEnabled ==> r == []
    ensures forall i :: 0 <= i < |r| ==> !r[i].cancelOnFalse && r[i].flag in {Pistons, SnowmanTrails, EnderBuild}
    ensures InSourceOrder(r)
  {
    if !regionsEnabled then []
    else
      var rules := PlaceRules(c);
      SelectInOrder(rules);
      SelectFrom(rules);
      Select(rules)
  }

  /** Each place filter is applied exactly when its condition holds. */
  lemma PlaceFilters(regionsEnabled: bool, c: Cause)
    ensures Filter(Pistons, false) in OnPlaceBlock(regionsEnabled, c) <==> regionsEnabled && FirstBlockIsPiston(c)
    ensures Filter(SnowmanTrails, false) in OnPlaceBlock(regionsEnabled, c) <==> regionsEnabled && InChain(c, Snowman)
    ensures Filter(EnderBuild, false) in OnPlaceBlock(regionsEnabled, c) <==> regionsEnabled && InChain(c, Enderman)
  {
    if regionsEnabled {
      var rules := PlaceRules(c);
      assert OnPlaceBlock(regionsEnabled, c) == Select(rules);
      FirstBlockIffPiston(c);
      FindIffInChain(c, Snowman);
      FindIffInChain(c, Enderman);
      SelectUnique(rules, 0);
      SelectUnique(rules, 1);
      SelectUnique(rules, 2);
    }
  }

  /** `onBreakBlock`: the filters applied to the blocks being broken; the
      three explosion flags cancel the event on rejection iff the world's
      `explosionFlagCancellation` is set. */
  function OnBreakBlock(regionsEnabled: bool, explosionFlagCancellation: bool, c: Cause): (r: seq<Filter>)
    ensures !regionsEnabled ==> r == []
    ensures forall i :: 0 <= i < |r| ==>
              (r[i].cancelOnFalse <==>
                 explosionFlagCancellation && r[i].flag in {CreeperExplosion, EnderdragonBlockDamage, OtherExplosion})
    ensures forall i :: 0 <= i < |r| ==> r[i].flag !in {SnowmanTrails, FallDamage}
    ensures InSourceOrder(r)
  {
    if !regionsEnabled then []
    else
      var rules := BreakRules(explosionFlagCancellation, c);
      BreakRulesShaped(explosionFlagCancellation, c);
      SelectInOrder(rules);
      SelectKeeps(rules, f => BreakShape(explosionFlagCancellation, f));
      Select(rules)
  }

  /** The shape of every break filter: only the explosion flags may cancel,
      and only when `x` is set; snowman trails and fall damage never appear. */
  predicate BreakShape(x: bool, f: Filter)
  {
    (f.cancelOnFalse <==> x && f.flag in {CreeperExplosion, EnderdragonBlockDamage, OtherExplosion})
    && f.flag !in {SnowmanTrails, FallDamage}
  }

  /** The break table is ranked in order and each of its rows has the break
      shape. */
  lemma BreakRulesShaped(x: bool, c: Cause)
    ensures RulesInOrder(BreakRules(x, c))
    ensures forall k :: 0 <= k < |BreakRules(x, c)| ==> BreakShape(x, BreakRules(x, c)[k].filter)
  {
    var fs := [Filter(Pistons, false), Filter(CreeperExplosion, x), Filter(EnderdragonBlockDamage, x),
               Filter(OtherExplosion, x), Filter(EnderBuild, false), Filter(RavagerRavage, false)];
    BreakRulesFilters(x, c, fs);
    RowsShaped(x, BreakRules(x, c), fs);
  }

  /** Rows carrying the break filters are ranked in order and shaped. */
  lemma RowsShaped(x: bool, rules: seq<Rule>, fs: seq<Filter>)
    requires fs == [Filter(Pistons, false), Filter(CreeperExplosion, x), Filter(EnderdragonBlockDamage, x),
                    Filter(OtherExplosion, x), Filter(EnderBuild, false), Filter(RavagerRavage, false)]
    requires |rules| == |fs| && forall k :: 0 <= k < |fs| ==> rules[k].filter == fs[k]
    ensures RulesInOrder(rules)
    ensures forall k :: 0 <= k < |rules| ==> BreakShape(x, rules[k].filter)
  {
    FiltersInOrder(fs);
    FiltersShaped(x, fs);
    CarryFilters(x, rules, fs);
  }

  /** A table whose rows carry the filters `fs` is ranked and shaped as
      `fs` is. */
  lemma CarryFilters(x: bool, rules: seq<Rule>, fs: seq<Filter>)
    requires |rules| == |fs| && forall k :: 0 <= k < |fs| ==> rules[k].filter == fs[k]
    requires forall i, j :: 0 <= i < j < |fs| ==> FlagRank(fs[i].flag) < FlagRank(fs[j].flag)
    requires forall k :: 0 <= k < |fs| ==> BreakShape(x, fs[k])
    ensures RulesInOrder(rules)
    ensures forall k :: 0 <= k < |rules| ==> BreakShape(x, rules[k].filter)
  {
  }

  /** The filters of the break table, row by row. */
  lemma BreakRulesFilters(x: bool, c: Cause, fs: seq<Filter>)
    requires fs == [Filter(Pistons, false), Filter(CreeperExplosion, x), Filter(EnderdragonBlockDamage, x),
                    Filter(OtherExplosion, x), Filter(EnderBuild, false), Filter(RavagerRavage, false)]
    ensures |BreakRules(x, c)| == |fs|
    ensures forall k :: 0 <= k < |fs| ==> BreakRules(x, c)[k].filter == fs[k]
  {
  }

  lemma FiltersInOrder(fs: seq<Filter>)
    requires |fs| == 6
    requires fs[0].flag == Pistons && fs[1].flag == CreeperExplosion && fs[2].flag == EnderdragonBlockDamage
    requires fs[3].flag == OtherExplosion && fs[4].flag == EnderBuild && fs[5].flag == RavagerRavage
    ensures forall i, j :: 0 <= i < j < |fs| ==> FlagRank(fs[i].flag) < FlagRank(fs[j].flag)
  {
    forall k | 0 <= k < 6
      ensures FlagRank(fs[k].flag) == if k == 0 then 0 else k + 1
    {
      assert k == 0 || k == 1 || k == 2 || k == 3 || k == 4 || k == 5;
    }
  }

  lemma FiltersShaped(x: bool, fs: seq<Filter>)
    requires fs == [Filter(Pistons, false), Filter(CreeperExplosion, x), Filter(EnderdragonBlockDamage, x),
                    Filter(OtherExplosion, x), Filter(EnderBuild, false), Filter(RavagerRavage, false)]
    ensures forall k :: 0 <= k < |fs| ==> BreakShape(x, fs[k])
  {
  }

  /** A property of every row's filter holds of every selected filter. */
  lemma SelectKeeps(rules: seq<Rule>, p: Filter -> bool)
    requires forall k :: 0 <= k < |rules| ==> p(rules[k].filter)
    ensures forall i :: 0 <= i < |Select(rules)| ==> p(Select(rules)[i])
  {
    SelectFrom(rules);
  }

  /** Each break filter is applied exactly when its condition holds. */
  lemma BreakFilters(regionsEnabled: bool, x: bool, c: Cause)
    ensures Filter(Pistons, false) in OnBreakBlock(regionsEnabled, x, c) <==> regionsEnabled && FirstBlockIsPiston(c)
    ensures Filter(CreeperExplosion, x) in OnBreakBlock(regionsEnabled, x, c) <==> regionsEnabled && InChain(c, Creeper)
    ensures Filter(EnderdragonBlockDamage, x) in OnBreakBlock(regionsEnabled, x, c) <==> regionsEnabled && InChain(c, EnderDragon)
    ensures Filter(OtherExplosion, x) in OnBreakBlock(regionsEnabled, x, c) <==> regionsEnabled && InChain(c, EnderCrystal)
    ensures Filter(EnderBuild, false) in OnBreakBlock(regionsEnabled, x, c) <==> regionsEnabled && InChain(c, Enderman)
    ensures Filter(RavagerRavage, false) in OnBreakBlock(regionsEnabled, x, c) <==> regionsEnabled && InChain(c, Ravager)
  {
    if regionsEnabled {
      var rules := BreakRules(x, c);
      assert OnBreakBlock(regionsEnabled, x, c) == Select(rules);
      FirstBlockIffPiston(c);
      FindIffInChain(c, Creeper);
      FindIffInChain(c, EnderDragon);
      FindIffInChain(c, EnderCrystal);
      FindIffInChain(c, Enderman);
      FindIffInChain(c, Ravager);
      BreakRulesShaped(x, c);
      SelectInOrderMember(rules);
      BreakRulesFilters(x, c, [Filter(Pistons, false), Filter(CreeperExplosion, x), Filter(EnderdragonBlockDamage, x),
                               Filter(OtherExplosion, x), Filter(EnderBuild, false), Filter(RavagerRavage, false)]);
      assert rules[1].filter == Filter(CreeperExplosion, x) && rules[1].applies == Find(c, [Creeper]).Some?;
      assert rules[2].filter == Filter(EnderdragonBlockDamage, x) && rules[2].applies == Find(c, [EnderDragon]).Some?;
      assert rules[3].filter == Filter(OtherExplosion, x) && rules[3].applies == Find(c, [EnderCrystal]).Some?;
      assert rules[4].filter == Filter(EnderBuild, false) && rules[4].applies == Find(c, [Enderman]).Some?;
      assert rules[5].filter == Filter(RavagerRavage, false) && rules[5].applies == Find(c, [Ravager]).Some?;
    }
  }

  /** In a table ranked in order every row's filter is selected iff the row
      applies. */
  lemma SelectInOrderMember(rules: seq<Rule>)
    requires RulesInOrder(rules)
    ensures forall i :: 0 <= i < |rules| ==> (rules[i].filter in Select(rules) <==> rules[i].applies)
  {
    forall i | 0 <= i < |rules|
      ensures rules[i].filter in Select(rules) <==> rules[i].applies
    {
      SelectUnique(rules, i);
    }
  }

  /** A cause in which a creeper and an enderman appear, but no ender dragon,
      ender crystal, ravager or leading piston block, breaks blocks under
      exactly two filters: the creeper's first, and only it may cancel. */
  lemma CreeperAndEndermanBreak(c: Cause, x: bool)
    requires InChain(c, Creeper) && InChain(c, Enderman)
    requires !InChain(c, EnderDragon) && !InChain(c, EnderCrystal) && !InChain(c, Ravager)
    requires !FirstBlockIsPiston(c)
    ensures OnBreakBlock(true, x, c) == [Filter(CreeperExplosion, x), Filter(EnderBuild, false)]
  {
    var rules := BreakRows(x, c);
    SelectSix(rules);
  }

  /** The break table with each row's condition stated in the chain's terms. */
  lemma BreakRows(x: bool, c: Cause) returns (rules: seq<Rule>)
    ensures OnBreakBlock(true, x, c) == Select(rules)
    ensures |rules| == 6
    ensures rules[0].applies == FirstBlockIsPiston(c) && rules[1].applies == InChain(c, Creeper)
    ensures rules[2].applies == InChain(c, EnderDragon) && rules[3].applies == InChain(c, EnderCrystal)
    ensures rules[4].applies == InChain(c, Enderman) && rules[5].applies == InChain(c, Ravager)
    ensures rules[1].filter == Filter(CreeperExplosion, x) && rules[4].filter == Filter(EnderBuild, false)
  {
    FirstBlockIffPiston(c);
    FindIffInChain(c, Creeper);
    FindIffInChain(c, EnderDragon);
    FindIffInChain(c, EnderCrystal);
    FindIffInChain(c, Enderman);
    FindIffInChain(c, Ravager);
    rules := BreakRules(x, c);
  }

  lemma SelectSix(rules: seq<Rule>)
    requires |rules| == 6
    requires !rules[0].applies && rules[1].applies && !rules[2].applies && !rules[3].applies
    requires rules[4].applies && !rules[5].applies
    ensures Select(rules) == [rules[1].filter, rules[4].filter]
  {
    assert Select(rules[5..]) == [] by { assert rules[5..][1..] == []; }
    assert rules[4..][1..] == rules[5..];
    assert rules[3..][1..] == rules[4..];
    assert rules[2..][1..] == rules[3..];
    assert rules[1..][1..] == rules[2..];
    assert Select(rules[4..]) == [rules[4].filter];
    assert Select(rules[1..]) == [rules[1].filter] + Select(rules[2..]);
  }

  /** `onEntityDamage`: true iff the event is cancelled. Only a player falling
      or flying into a wall is checked, both against `FALL_DAMAGE` at the
      player's location for the wrapped player. */
  function OnEntityDamage(regionsEnabled: bool, victim: Actor, cause: DamageCause, query: RegionQuery): (cancel: bool)
    ensures cancel <==> regionsEnabled && IsPlayer(victim.body) && cause in {Fall, FlyIntoWall}
                        && !query(victim.body.entity.location, Some(WrappedPlayer(victim.id)), FallDamage)
  {
    if !regionsEnabled then false
    else if IsPlayer(victim.body) && cause == Fall then
      !query(victim.body.entity.location, Some(WrappedPlayer(victim.id)), FallDamage)
    else if IsPlayer(victim.body) && cause == FlyIntoWall then
      !query(victim.body.entity.location, Some(WrappedPlayer(victim.id)), FallDamage)
    else false
  }

  /** Flying into a wall is judged exactly like falling. */
  lemma WallLikeFall(regionsEnabled: bool, victim: Actor, query: RegionQuery)
    ensures OnEntityDamage(regionsEnabled, victim, FlyIntoWall, query) == OnEntityDamage(regionsEnabled, victim, Fall, query)
  {
  }

  /** The damage handler never consults a flag other than `FALL_DAMAGE`:
      two queries that agree on it give the same decision. */
  lemma DamageOnlyReadsFallDamage(regionsEnabled: bool, victim: Actor, cause: DamageCause, q1: RegionQuery, q2: RegionQuery)
    requires forall loc, a :: q1(loc, a, FallDamage) == q2(loc, a, FallDamage)
    ensures OnEntityDamage(regionsEnabled, victim, cause, q1) == OnEntityDamage(regionsEnabled, victim, cause, q2)
  {
  }
}
