/**
 * The state of a FarmingGame as a value, and each of its operations as a
 * function from the state before to the state after. The class in
 * farming_game.dfy changes its fields in place and is proved to agree with
 * these functions; the properties of the game are proved here.
 */
module FarmState {
  import opened Wrappers
  import opened Crops

  const InitialMoney: int := 100
  const InitialPlots: nat := 4
  const GameGoal: int := 500

  /** One plot of land: the crop growing in it (if any), its growth stage and whether it was watered today. */
  datatype Plot = Plot(crop: Option<Crop>, stage: int, watered: bool)
  {
    /** An occupied plot whose stage has reached its crop's growth time; growth is not capped, so it may exceed it. */
    predicate Ready() {
      crop.Some? && stage >= Data(crop.value).growthTime
    }

    /** An occupied plot that is not yet ready: the plots a pest can damage. */
    predicate Growing() {
      crop.Some? && stage < Data(crop.value).growthTime
    }
  }

  const EmptyPlot := Plot(None, 0, false)

  /** The fields of a FarmingGame. */
  datatype Farm = Farm(money: int, day: int, plots: seq<Plot>, inventory: map<Crop, nat>, gameOver: bool)

  /** The reasons an operation is refused, one per kind of refusal. */
  datatype Error = NoSeeds | InvalidPlot | PlotOccupied | NothingPlanted | NotReady | UnknownCrop | NotEnoughMoney

  datatype Outcome = Done | Failed(error: Error)

  /** The state after an operation and whether it was carried out. */
  datatype Step = Step(farm: Farm, outcome: Outcome)

  /**
   * The day's random event. The draw of a float and its two thresholds are
   * replaced by the tag; for a pest, `target` is the plot the random choice
   * among the growing plots picked.
   */
  datatype Event = Pest(target: int) | Rain | NoEvent

  function Max(a: int, b: int): int {
    if a >= b then a else b
  }

  /** The number of seeds of a crop held; a missing entry means none. */
  function SeedCount(inventory: map<Crop, nat>, c: Crop): nat {
    if c in inventory then inventory[c] else 0
  }

  predicate ValidPlot(p: Plot) {
    p.stage >= 0 && (p.crop.None? ==> p.stage == 0)
  }

  /**
   * What every reachable state satisfies: money is never negative, the day
   * starts at 1, the number of plots is fixed, growth stages are never
   * negative (and an empty plot is at stage 0), and the inventory holds no
   * entry with a zero count.
   */
  predicate Inv(g: Farm) {
    && g.money >= 0
    && g.day >= 1
    && |g.plots| == InitialPlots
    && (forall k :: 0 <= k < |g.plots| ==> ValidPlot(g.plots[k]))
    && (forall c :: c in g.inventory ==> g.inventory[c] > 0)
  }

  /** The state of a new game. */
  function Init(): (g: Farm)
    ensures Inv(g)
  {
    Farm(InitialMoney, 1, seq(InitialPlots, _ => EmptyPlot), map[Wheat := 5, Potato := 5], false)
  }

  /** Two plot lists of the same length that agree everywhere except possibly at plot `i`. */
  predicate OthersUnchanged(before: seq<Plot>, after: seq<Plot>, i: int) {
    |after| == |before| && forall k :: 0 <= k < |before| && k != i ==> after[k] == before[k]
  }

  // ---------------------------------------------------------------- plant

  /** The player holds at least one seed of the crop called `name`. */
  predicate HasSeed(inventory: map<Crop, nat>, name: string) {
    Parse(name).Some? && SeedCount(inventory, Parse(name).value) > 0
  }

  /** Plants one seed of crop `name` in plot `i`. */
  function Plant(g: Farm, name: string, i: int): (r: Step)
    ensures r.outcome.Failed? ==> r.farm == g
    ensures r.farm.money == g.money && r.farm.day == g.day && r.farm.gameOver == g.gameOver
  {
    var c := Parse(name);
    if c.None? || c.value !in g.inventory || g.inventory[c.value] == 0 then Step(g, Failed(NoSeeds))
    else if !(0 <= i < |g.plots|) then Step(g, Failed(InvalidPlot))
    else if g.plots[i].crop.Some? then Step(g, Failed(PlotOccupied))
    else
      var crop := c.value;
      var taken := g.inventory[crop := g.inventory[crop] - 1];
      var inventory := if taken[crop] == 0 then taken - {crop} else taken;
      Step(g.(plots := g.plots[i := Plot(Some(crop), 0, false)], inventory := inventory), Done)
  }

  /** Plant checks, in this order, that a seed is held, that the plot exists and that it is empty. */
  lemma PlantGuards(g: Farm, name: string, i: int)
    ensures var r := Plant(g, name, i);
      && (r.outcome == Failed(NoSeeds) <==> !HasSeed(g.inventory, name))
      && (r.outcome == Failed(InvalidPlot) <==> HasSeed(g.inventory, name) && !(0 <= i < |g.plots|))
      && (r.outcome == Failed(PlotOccupied) <==>
            HasSeed(g.inventory, name) && 0 <= i < |g.plots| && g.plots[i].crop.Some?)
      && (r.outcome == Done <==> HasSeed(g.inventory, name) && 0 <= i < |g.plots| && g.plots[i].crop.None?)
  {
  }

  /**
   * A successful plant puts a fresh, unwatered crop of that kind in the plot,
   * takes exactly one seed of it and leaves no zero-count entry behind;
   * everything else is unchanged.
   */
  lemma PlantEffect(g: Farm, name: string, i: int)
    requires Plant(g, name, i).outcome == Done
    ensures Parse(name).Some? && 0 <= i < |g.plots|
    ensures var r := Plant(g, name, i).farm; var c := Parse(name).value;
      && r.plots[i] == Plot(Some(c), 0, false)
      && OthersUnchanged(g.plots, r.plots, i)
      && SeedCount(r.inventory, c) == SeedCount(g.inventory, c) - 1
      && (c in r.inventory ==> r.inventory[c] > 0)
      && (forall d :: d != c ==> SeedCount(r.inventory, d) == SeedCount(g.inventory, d))
      && r.money == g.money && r.day == g.day && r.gameOver == g.gameOver
  {
  }

  // ---------------------------------------------------------------- water

  /** Waters plot `i`. */
  function Water(g: Farm, i: int): (r: Step)
    ensures r.outcome.Failed? ==> r.farm == g
  {
    if !(0 <= i < |g.plots|) then Step(g, Failed(InvalidPlot))
    else if g.plots[i].crop.None? then Step(g, Failed(NothingPlanted))
    else Step(g.(plots := g.plots[i := g.plots[i].(watered := true)]), Done)
  }

  /**
   * Watering succeeds exactly on an existing, occupied plot, and then only
   * sets that plot's watered flag.
   */
  lemma WaterSpec(g: Farm, i: int)
    ensures var r := Water(g, i);
      && (r.outcome == Failed(InvalidPlot) <==> !(0 <= i < |g.plots|))
      && (r.outcome == Failed(NothingPlanted) <==> 0 <= i < |g.plots| && g.plots[i].crop.None?)
      && (r.outcome == Done <==> 0 <= i < |g.plots| && g.plots[i].crop.Some?)
      && (r.outcome == Done ==>
            && r.farm.plots[i].watered
            && r.farm.plots[i].crop == g.plots[i].crop
            && r.farm.plots[i].stage == g.plots[i].stage
            && OthersUnchanged(g.plots, r.farm.plots, i)
            && r.farm.(plots := g.plots) == g)
  {
  }

  /** Watering the same plot twice is the same as watering it once. */
  lemma WaterIdempotent(g: Farm, i: int)
    ensures var r := Water(g, i); Water(r.farm, i) == r.(outcome := Water(r.farm, i).outcome)
    ensures Water(Water(g, i).farm, i).farm == Water(g, i).farm
  {
  }

  // ---------------------------------------------------------------- harvest

  /** Harvests plot `i` and sells the crop. */
  function Harvest(g: Farm, i: int): (r: Step)
    ensures r.outcome.Failed? ==> r.farm == g
  {
    if !(0 <= i < |g.plots|) then Step(g, Failed(InvalidPlot))
    else if g.plots[i].crop.None? then Step(g, Failed(NothingPlanted))
    else
      var c := g.plots[i].crop.value;
      if g.plots[i].stage < Data(c).growthTime then Step(g, Failed(NotReady))
      else Step(g.(money := g.money + Data(c).sellPrice, plots := g.plots[i := EmptyPlot]), Done)
  }

  /**
   * Harvest succeeds exactly on an existing, ready plot; the money rises by
   * that crop's sell price and the plot is empty again.
   */
  lemma HarvestSpec(g: Farm, i: int)
    ensures var r := Harvest(g, i);
      && (r.outcome == Failed(InvalidPlot) <==> !(0 <= i < |g.plots|))
      && (r.outcome == Failed(NothingPlanted) <==> 0 <= i < |g.plots| && g.plots[i].crop.None?)
      && (r.outcome == Failed(NotReady) <==> 0 <= i < |g.plots| && g.plots[i].Growing())
      && (r.outcome == Done <==> 0 <= i < |g.plots| && g.plots[i].Ready())
      && (r.outcome == Done ==>
            && r.farm.money == g.money + Data(g.plots[i].crop.value).sellPrice
            && r.farm.plots[i] == Plot(None, 0, false)
            && OthersUnchanged(g.plots, r.farm.plots, i)
            && r.farm.inventory == g.inventory && r.farm.day == g.day && r.farm.gameOver == g.gameOver)
  {
  }

  // ---------------------------------------------------------------- shop

  /** Buys one seed of crop `name` in the shop. */
  function Buy(g: Farm, name: string): (r: Step)
    ensures r.outcome.Failed? ==> r.farm == g
  {
    var c := Parse(name);
    if c.None? then Step(g, Failed(UnknownCrop))
    else
      var price := Data(c.value).seedPrice;
      if g.money >= price then
        Step(g.(money := g.money - price,
                inventory := g.inventory[c.value := SeedCount(g.inventory, c.value) + 1]), Done)
      else Step(g, Failed(NotEnoughMoney))
  }

  /**
   * The shop first rejects a name that is not in the crop table, then a
   * price the player cannot pay; a purchase costs exactly the seed price and
   * adds exactly one seed of that crop, so money never goes negative.
   */
  lemma BuySpec(g: Farm, name: string)
    ensures var r := Buy(g, name);
      && (r.outcome == Failed(UnknownCrop) <==> Parse(name).None?)
      && (r.outcome == Failed(NotEnoughMoney) <==>
            Parse(name).Some? && g.money < Data(Parse(name).value).seedPrice)
      && (r.outcome == Done <==> Parse(name).Some? && g.money >= Data(Parse(name).value).seedPrice)
      && (r.outcome == Done ==>
            var c := Parse(name).value;
            && r.farm.money == g.money - Data(c).seedPrice
            && r.farm.money >= 0
            && SeedCount(r.farm.inventory, c) == SeedCount(g.inventory, c) + 1
            && (forall d :: d != c ==> SeedCount(r.farm.inventory, d) == SeedCount(g.inventory, d))
            && r.farm.plots == g.plots && r.farm.day == g.day && r.farm.gameOver == g.gameOver)
  {
  }

  // ---------------------------------------------------------------- advance day

  /** One plot overnight: an occupied plot grows if it was watered and dries out; an empty plot is left alone. */
  function Overnight(p: Plot): (r: Plot)
    ensures r.crop == p.crop
    ensures p.crop.Some? ==> !r.watered && r.stage == (if p.watered then p.stage + 1 else p.stage)
    ensures p.crop.None? ==> r == p
  {
    if p.crop.Some? then p.(stage := if p.watered then p.stage + 1 else p.stage, watered := false)
    else p
  }

  /** The first part of a day-advance: the day counter moves on and every plot passes the night. */
  function Dawn(g: Farm): (r: Farm)
    ensures |r.plots| == |g.plots|
  {
    g.(day := g.day + 1, plots := seq(|g.plots|, k requires 0 <= k < |g.plots| => Overnight(g.plots[k])))
  }

  /**
   * The growth step: the day goes up by exactly one; an occupied, watered
   * plot grows by exactly one stage (even past its growth time), an
   * occupied, unwatered one does not; every occupied plot ends unwatered;
   * an empty plot keeps even its watered flag; money and seeds are untouched.
   */
  lemma DawnSpec(g: Farm)
    ensures var r := Dawn(g);
      && r.day == g.day + 1
      && |r.plots| == |g.plots|
      && (forall k :: 0 <= k < |g.plots| && g.plots[k].crop.Some? ==>
            && r.plots[k].crop == g.plots[k].crop
            && r.plots[k].stage == (if g.plots[k].watered then g.plots[k].stage + 1 else g.plots[k].stage)
            && !r.plots[k].watered)
      && (forall k :: 0 <= k < |g.plots| && g.plots[k].crop.None? ==> r.plots[k] == g.plots[k])
      && r.money == g.money && r.inventory == g.inventory && r.gameOver == g.gameOver
  {
  }

  /**
   * The indices of the plots still growing, in plot order: the list the
   * pest event chooses its victim from.
   */
  function GrowingPlots(ps: seq<Plot>): (r: seq<nat>)
    ensures forall j :: 0 <= j < |r| ==> r[j] < |ps| && ps[r[j]].Growing()
    ensures forall j, l :: 0 <= j < l < |r| ==> r[j] < r[l]
    decreases |ps|
  {
    if ps == [] then []
    else
      var n := |ps| - 1;
      GrowingPlots(ps[..n]) + (if ps[n].Growing() then [n] else [])
  }

  /** Every growing plot is in the list. */
  lemma {:induction false} GrowingPlotsComplete(ps: seq<Plot>, k: int)
    requires 0 <= k < |ps| && ps[k].Growing()
    ensures k in GrowingPlots(ps)
    decreases |ps|
  {
    var n := |ps| - 1;
    if k < n {
      GrowingPlotsComplete(ps[..n], k);
    }
  }

  /** The list is empty exactly when no plot is growing. */
  lemma GrowingPlotsEmpty(ps: seq<Plot>)
    ensures GrowingPlots(ps) == [] <==> forall k :: 0 <= k < |ps| ==> !ps[k].Growing()
  {
  }

  /** A pest target the random choice could have produced. */
  predicate EventAllowed(ps: seq<Plot>, ev: Event): (ok: bool)
    ensures !ev.Pest? ==> ok
    ensures ok && ev.Pest? && GrowingPlots(ps) != [] ==> 0 <= ev.target < |ps| && ps[ev.target].Growing()
  {
    ev.Pest? && GrowingPlots(ps) != [] ==> ev.target in GrowingPlots(ps)
  }

  /** Applies the day's random event to the plots. */
  function HandleEvent(g: Farm, ev: Event): (r: Farm)
    requires EventAllowed(g.plots, ev)
    ensures |r.plots| == |g.plots|
    ensures r.(plots := g.plots) == g
  {
    match ev
    case Pest(t) =>
      if GrowingPlots(g.plots) == [] then g
      else g.(plots := g.plots[t := g.plots[t].(stage := Max(0, g.plots[t].stage - 1))])
    case Rain =>
      g.(plots := seq(|g.plots|, k requires 0 <= k < |g.plots| => g.plots[k].(watered := true)))
    case NoEvent =>
      g
  }

  /**
   * When some plot is still growing, the pest's target is one of them and
   * loses one stage, but not below zero; no other plot changes. Ready plots are never
   * touched, and with no growing plot the pest does nothing.
   */
  lemma PestSpec(g: Farm, t: int)
    requires EventAllowed(g.plots, Pest(t))
    ensures var r := HandleEvent(g, Pest(t));
      && OthersUnchanged(g.plots, r.plots, t)
      && (forall k :: 0 <= k < |g.plots| && !g.plots[k].Growing() ==> r.plots[k] == g.plots[k])
      && ((forall k :: 0 <= k < |g.plots| ==> !g.plots[k].Growing()) ==> r == g)
      && (GrowingPlots(g.plots) != [] ==>
            && 0 <= t < |g.plots| && g.plots[t].Growing()
            && r.plots[t] == g.plots[t].(stage := Max(0, g.plots[t].stage - 1)))
      && (forall k :: 0 <= k < |g.plots| && g.plots[k].stage >= 0 ==> r.plots[k].stage >= 0)
  {
  }

  /** Rain waters every plot, empty ones included, and changes nothing else. */
  lemma RainSpec(g: Farm)
    ensures var r := HandleEvent(g, Rain);
      && |r.plots| == |g.plots|
      && (forall k :: 0 <= k < |g.plots| ==>
            r.plots[k].watered && r.plots[k].crop == g.plots[k].crop && r.plots[k].stage == g.plots[k].stage)
      && r.(plots := g.plots) == g
  {
  }

  /** The end of a day-advance: reaching the money goal ends the game. */
  function WinCheck(g: Farm): (r: Farm)
    ensures r.gameOver == (g.gameOver || g.money >= GameGoal)
    ensures r.(gameOver := g.gameOver) == g
  {
    if g.money >= GameGoal then g.(gameOver := true) else g
  }

  /** A whole day-advance: growth, then the random event, then the win check. */
  function AdvanceDay(g: Farm, ev: Event): (r: Farm)
    requires EventAllowed(Dawn(g).plots, ev)
    ensures r.day == g.day + 1
    ensures r.money == g.money && r.inventory == g.inventory
  {
    WinCheck(HandleEvent(Dawn(g), ev))
  }

  /**
   * After a day-advance the game is over exactly when it already was or the
   * money has reached the goal; a day without an event is just the growth step.
   */
  lemma AdvanceDaySpec(g: Farm, ev: Event)
    requires EventAllowed(Dawn(g).plots, ev)
    ensures var r := AdvanceDay(g, ev);
      && r.gameOver == (g.gameOver || g.money >= GameGoal)
      && r.plots == HandleEvent(Dawn(g), ev).plots
      && (ev == NoEvent ==> r.plots == Dawn(g).plots)
  {
  }

  /** Quitting only ends the game. */
  function Quit(g: Farm): (r: Farm)
    ensures r.gameOver && r.(gameOver := g.gameOver) == g
  {
    g.(gameOver := true)
  }

  // ---------------------------------------------------------------- invariant

  lemma PlantPreservesInv(g: Farm, name: string, i: int)
    requires Inv(g)
    ensures Inv(Plant(g, name, i).farm)
  {
  }

  lemma DawnPreservesInv(g: Farm)
    requires Inv(g)
    ensures Inv(Dawn(g))
  {
  }

  lemma HandleEventPreservesInv(g: Farm, ev: Event)
    requires Inv(g) && EventAllowed(g.plots, ev)
    ensures Inv(HandleEvent(g, ev))
  {
  }

  lemma AdvanceDayPreservesInv(g: Farm, ev: Event)
    requires Inv(g) && EventAllowed(Dawn(g).plots, ev)
    ensures Inv(AdvanceDay(g, ev))
  {
  }

  // ---------------------------------------------------------------- sequences of operations

  /** One command of the game's main menu, with the player's answers as arguments. */
  datatype Action =
    | PlantSeed(name: string, plot: int)
    | WaterPlot(plot: int)
    | HarvestPlot(plot: int)
    | BuySeed(name: string)
    | NextDay(event: Event)
    | QuitGame

  predicate Allowed(g: Farm, a: Action) {
    a.NextDay? ==> EventAllowed(Dawn(g).plots, a.event)
  }

  function Apply(g: Farm, a: Action): Step
    requires Allowed(g, a)
  {
    match a
    case PlantSeed(name, i) => Plant(g, name, i)
    case WaterPlot(i) => Water(g, i)
    case HarvestPlot(i) => Harvest(g, i)
    case BuySeed(name) => Buy(g, name)
    case NextDay(ev) => Step(AdvanceDay(g, ev), Done)
    case QuitGame => Step(Quit(g), Done)
  }

  /** Every operation keeps the invariant, whatever the player asks for. */
  lemma ApplyPreservesInv(g: Farm, a: Action)
    requires Inv(g) && Allowed(g, a)
    ensures Inv(Apply(g, a).farm)
  {
  }

  /** The random events of a sequence of commands are ones the game could have drawn. */
  predicate Feasible(g: Farm, acts: seq<Action>)
    decreases |acts|
  {
    acts == [] || (Allowed(g, acts[0]) && Feasible(Apply(g, acts[0]).farm, acts[1..]))
  }

  function Run(g: Farm, acts: seq<Action>): Farm
    requires Feasible(g, acts)
    decreases |acts|
  {
    if acts == [] then g else Run(Apply(g, acts[0]).farm, acts[1..])
  }

  /** The number of day-advances in a sequence of commands. */
  function Days(acts: seq<Action>): nat {
    if acts == [] then 0 else (if acts[0].NextDay? then 1 else 0) + Days(acts[1..])
  }

  /**
   * After any sequence of commands the invariant still holds: money is not
   * negative, no stage is negative and no inventory entry is zero.
   */
  lemma {:induction false} RunPreservesInv(g: Farm, acts: seq<Action>)
    requires Inv(g) && Feasible(g, acts)
    ensures Inv(Run(g, acts))
    decreases |acts|
  {
    if acts != [] {
      ApplyPreservesInv(g, acts[0]);
      RunPreservesInv(Apply(g, acts[0]).farm, acts[1..]);
    }
  }

  /** The day counter goes up by exactly one per day-advance and is not changed by anything else. */
  lemma {:induction false} RunDays(g: Farm, acts: seq<Action>)
    requires Feasible(g, acts)
    ensures Run(g, acts).day == g.day + Days(acts)
    decreases |acts|
  {
    if acts != [] {
      RunDays(Apply(g, acts[0]).farm, acts[1..]);
    }
  }

  /** Once the game is over it stays over. */
  lemma {:induction false} RunKeepsGameOver(g: Farm, acts: seq<Action>)
    requires Feasible(g, acts) && g.gameOver
    ensures Run(g, acts).gameOver
    decreases |acts|
  {
    if acts != [] {
      RunKeepsGameOver(Apply(g, acts[0]).farm, acts[1..]);
    }
  }

  /** Water plot `i`, then end the day with no random event. */
  function WaterAndSleep(g: Farm, i: int): Farm {
    AdvanceDay(Water(g, i).farm, NoEvent)
  }

  /** One watered night grows a lone crop in plot 0 by one stage. */
  lemma WaterAndSleepGrows(g: Farm, c: Crop, n: int)
    requires g.plots == [Plot(Some(c), n, false), EmptyPlot, EmptyPlot, EmptyPlot]
    requires g.money < GameGoal && !g.gameOver
    ensures WaterAndSleep(g, 0) == g.(day := g.day + 1, plots := [Plot(Some(c), n + 1, false), EmptyPlot, EmptyPlot, EmptyPlot])
  {
    var w := Water(g, 0).farm;
    assert w.plots == [Plot(Some(c), n, true), EmptyPlot, EmptyPlot, EmptyPlot];
    assert Dawn(w).plots == [Plot(Some(c), n + 1, false), EmptyPlot, EmptyPlot, EmptyPlot];
  }

  /**
   * A first game: buy a wheat seed, plant it in plot 0, water it and sleep
   * four times (no events), then harvest: 100 - 10 + 25 = 115 money, the
   * plot empty again and the seed count back where it started.
   */
  lemma WheatScenario()
    ensures var g1 := Buy(Init(), "wheat");
      && g1.outcome == Done && g1.farm.money == 90 && SeedCount(g1.farm.inventory, Wheat) == 6
      && var g2 := Plant(g1.farm, "wheat", 0);
      && g2.outcome == Done && g2.farm.plots[0] == Plot(Some(Wheat), 0, false)
      && var g6 := WaterAndSleep(WaterAndSleep(WaterAndSleep(WaterAndSleep(g2.farm, 0), 0), 0), 0);
      && g6.day == 5 && g6.plots[0] == Plot(Some(Wheat), 4, false) && g6.plots[0].Ready()
      && var r := Harvest(g6, 0);
      && r.outcome == Done && r.farm.money == 115
      && r.farm.plots == Init().plots && r.farm.inventory == Init().inventory
  {
    var e := EmptyPlot;
    ParseName(Wheat);
    var g1 := Buy(Init(), "wheat").farm;
    assert g1 == Farm(90, 1, [e, e, e, e], map[Wheat := 6, Potato := 5], false);
    var g2 := Plant(g1, "wheat", 0).farm;
    assert g2 == g1.(plots := [Plot(Some(Wheat), 0, false), e, e, e], inventory := map[Wheat := 5, Potato := 5]);
    WaterAndSleepGrows(g2, Wheat, 0);
    var g3 := WaterAndSleep(g2, 0);
    WaterAndSleepGrows(g3, Wheat, 1);
    var g4 := WaterAndSleep(g3, 0);
    WaterAndSleepGrows(g4, Wheat, 2);
    var g5 := WaterAndSleep(g4, 0);
    WaterAndSleepGrows(g5, Wheat, 3);
    var g6 := WaterAndSleep(g5, 0);
    assert Harvest(g6, 0).farm.plots == [e, e, e, e];
  }
}
