/**
 * The FarmingGame object: money, day counter, a fixed-length array of plots,
 * the seed inventory and the game-over flag, changed in place by its
 * methods. Each method is proved to move the object from one state to the
 * next exactly as the corresponding function of FarmState does, and to keep
 * the invariant FarmState.Inv.
 */
module FarmGame {
  import opened Wrappers
  import opened Crops
  import opened FarmState

  class FarmingGame {
    var money: int
    var day: int
    const plots: array<Plot>
    var inventory: map<Crop, nat>
    var gameOver: bool

    /** The fields of the game as a value. */
    function Model(): Farm
      reads this, plots
    {
      Farm(money, day, plots[..], inventory, gameOver)
    }

    ghost predicate Valid()
      reads this, plots
    {
      Inv(Model())
    }

    /** A new game: 100 money, day 1, four empty plots, five wheat and five potato seeds. */
    constructor ()
      ensures Valid() && fresh(plots)
      ensures Model() == Init()
    {
      money := InitialMoney;
      day := 1;
      plots := new Plot[InitialPlots](_ => EmptyPlot);
      inventory := map[Wheat := 5, Potato := 5];
      gameOver := false;
      new;
      assert plots[..] == Init().plots;
    }

    /** Plants a seed of crop `name` in plot `i` (numbered from 0). */
    method Plant(name: string, i: int) returns (outcome: Outcome)
      requires Valid()
      modifies this, plots
      ensures Valid()
      ensures Model() == FarmState.Plant(old(Model()), name, i).farm
      ensures outcome == FarmState.Plant(old(Model()), name, i).outcome
    {
      ghost var g := Model();
      var c := Parse(name);
      if c.None? || c.value !in inventory || inventory[c.value] == 0 {
        return Failed(NoSeeds);
      }
      if !(0 <= i < plots.Length) {
        return Failed(InvalidPlot);
      }
      if plots[i].crop.Some? {
        return Failed(PlotOccupied);
      }
      var crop := c.value;
      plots[i] := Plot(Some(crop), 0, false);
      inventory := inventory[crop := inventory[crop] - 1];
      if inventory[crop] == 0 {
        inventory := inventory - {crop};
      }
      outcome := Done;
      PlantPreservesInv(g, name, i);
    }

    /** Waters plot `i`. */
    method Water(i: int) returns (outcome: Outcome)
      requires Valid()
      modifies plots
      ensures Valid()
      ensures Model() == FarmState.Water(old(Model()), i).farm
      ensures outcome == FarmState.Water(old(Model()), i).outcome
    {
      if !(0 <= i < plots.Length) {
        return Failed(InvalidPlot);
      }
      if plots[i].crop.None? {
        return Failed(NothingPlanted);
      }
      plots[i] := plots[i].(watered := true);
      outcome := Done;
    }

    /** Harvests plot `i` and sells its crop. */
    method Harvest(i: int) returns (outcome: Outcome)
      requires Valid()
      modifies this, plots
      ensures Valid()
      ensures Model() == FarmState.Harvest(old(Model()), i).farm
      ensures outcome == FarmState.Harvest(old(Model()), i).outcome
    {
      if !(0 <= i < plots.Length) {
        return Failed(InvalidPlot);
      }
      var plot := plots[i];
      if plot.crop.None? {
        return Failed(NothingPlanted);
      }
      var crop := plot.crop.value;
      if plot.stage < Data(crop).growthTime {
        return Failed(NotReady);
      }
      money := money + Data(crop).sellPrice;
      plots[i] := EmptyPlot;
      outcome := Done;
    }

    /** One purchase in the shop: a seed of crop `name`. */
    method BuySeed(name: string) returns (outcome: Outcome)
      requires Valid()
      modifies this
      ensures Valid()
      ensures Model() == FarmState.Buy(old(Model()), name).farm
      ensures outcome == FarmState.Buy(old(Model()), name).outcome
    {
      var c := Parse(name);
      if c.None? {
        return Failed(UnknownCrop);
      }
      var price := Data(c.value).seedPrice;
      if money >= price {
        money := money - price;
        inventory := inventory[c.value := (if c.value in inventory then inventory[c.value] else 0) + 1];
        outcome := Done;
      } else {
        outcome := Failed(NotEnoughMoney);
      }
    }

    /** Ends a day: crops grow and dry out, a random event may strike, and the goal is checked. */
    method AdvanceDay(ev: Event)
      requires Valid() && EventAllowed(Dawn(Model()).plots, ev)
      modifies this, plots
      ensures Valid()
      ensures Model() == FarmState.AdvanceDay(old(Model()), ev)
    {
      ghost var g := Model();
      day := day + 1;
      for k := 0 to plots.Length
        invariant forall j :: 0 <= j < k ==> plots[j] == Overnight(old(plots[j]))
        invariant forall j :: k <= j < plots.Length ==> plots[j] == old(plots[j])
        invariant money == g.money && day == g.day + 1 && inventory == g.inventory && gameOver == g.gameOver
      {
        if plots[k].crop.Some? {
          if plots[k].watered {
            plots[k] := plots[k].(stage := plots[k].stage + 1);
          }
          plots[k] := plots[k].(watered := false);
        }
      }
      assert Model() == Dawn(g);
      DawnPreservesInv(g);
      HandleRandomEvent(ev);
      if money >= GameGoal {
        gameOver := true;
      }
      AdvanceDayPreservesInv(g, ev);
    }

    /** Applies the day's random event: a pest on plot `ev.target`, rain on every plot, or nothing. */
    method HandleRandomEvent(ev: Event)
      requires Valid() && EventAllowed(plots[..], ev)
      modifies plots
      ensures Valid()
      ensures Model() == HandleEvent(old(Model()), ev)
    {
      ghost var g := Model();
      match ev {
        case Pest(t) =>
          var growing := GrowingPlots(plots[..]);
          if growing != [] {
            plots[t] := plots[t].(stage := Max(0, plots[t].stage - 1));
          }
        case Rain =>
          for k := 0 to plots.Length
            invariant forall j :: 0 <= j < k ==> plots[j] == old(plots[j]).(watered := true)
            invariant forall j :: k <= j < plots.Length ==> plots[j] == old(plots[j])
          {
            plots[k] := plots[k].(watered := true);
          }
        case NoEvent =>
      }
      HandleEventPreservesInv(g, ev);
    }

    /** The quit command. */
    method Quit()
      requires Valid()
      modifies this
      ensures Valid()
      ensures Model() == FarmState.Quit(old(Model()))
    {
      gameOver := true;
    }
  }
}
