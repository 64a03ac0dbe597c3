# Digital Farmer: the FarmingGame state machine in Dafny

`farm_game.py` is a terminal farming game. A `FarmingGame` object holds the
player's money, a day counter, a fixed row of four plots, a seed inventory
and a game-over flag. The player plants seeds, waters plots, harvests ripe
crops, buys seeds in the shop and ends the day. Each night watered crops grow
one stage and the soil dries out. A random event may then strike: a pest sets
one growing crop back by a stage, or rain waters every plot; most nights nothing happens. The game is won
once the money reaches 500.

This project models that state machine and proves its properties.

- `crops.dfy`
  - `Crops` is the crop table: Wheat, Corn, Potato and Carrot, each with its
    growth time, seed price and sell price.
  - `Parse` looks up a typed crop name.
  - `SeedKey` gives the inventory key `"<crop> seeds"`.
  - `Wrappers` holds the `Option` type used for a plot's crop.
- `farm_state.dfy` (`FarmState`) models the game's fields as a value, `Farm`,
  and each operation as a function from one `Farm` to the next:
  - `Plant`, `Water`, `Harvest` and `Buy` return the new state together with
    an `Outcome`. The outcome is `Done` or `Failed(reason)`, one reason per
    kind of refusal.
  - `AdvanceDay` is built from three parts, in the order the code runs them:
    `Dawn` (the day counter and the growth loop), `HandleEvent` (the random
    event) and `WinCheck`.
  - `Inv` is the invariant every reachable state keeps. Money is never
    negative and the day is at least 1. There are always four plots. No growth
    stage is negative, and an empty plot is at stage 0. No inventory entry has
    a zero count.
  - `Action`, `Apply` and `Run` describe a sequence of menu commands. They are
    used to prove the invariant, the day count and the game-over flag after
    any such sequence.
- `farming_game.dfy` (`FarmGame.FarmingGame`) is the game object itself:
  - It has the fields `money`, `day`, an `array` of plots, an `inventory` map
    and `gameOver`.
  - Its methods update these fields in place, as the Python methods do. The
    night loop and the rain loop are `for` loops over the plot array.
  - Each method's postcondition says that the new `Model()` is the
    corresponding `FarmState` function applied to the old one, and that
    `Valid()` (the invariant) still holds.

Randomness is passed in as a parameter. An `Event` is `Pest(target)`, `Rain`
or `NoEvent`, and stands for the two thresholds on the random float. For a
pest, `target` is the plot that the random choice among the growing plots
returned. The precondition `EventAllowed` says exactly that: when some plot
is still growing, `target` is in `GrowingPlots`.

Plot numbers are 0-based. The player's 1-based answer and its `- 1` belong to
the input layer. Crop names are the lower-cased strings the player typed.
Seed counts are kept in a `map<Crop, nat>`. Different crops have different
seed keys (`SeedKeyInjective`), so this map is equivalent to the game's
dictionary keyed by `"<crop> seeds"`.

Four details of the code differ from what a reader might expect; the model
follows the code:
- Growth is not capped. A watered crop keeps growing past its growth time, and
  "ready" means `stage >= growth time`, both in the display and in `harvest`.
- The overnight reset of the watered flag is inside the occupied-plot branch.
  An empty plot that rain watered stays watered.
- The shop checks that the crop name is known before it checks the money.
- The goal is checked only at the end of a day-advance. A harvest that crosses
  500 ends the game only when the day is next advanced.

## Model

| member | source | states |
|---|---|---|
| `Crops.Data` | farm_game.py:12-41 | the crop table; every growth time is at least one day |
| `Crops.Parse` | farm_game.py:250-251 | a name is found in the crop table only if it is that crop's own key |
| `Crops.ParseName` | farm_game.py:250-251 | every crop is found under its own name |
| `Crops.SeedKey` | farm_game.py:166 | the inventory key of a crop ends in `" seeds"`, and cutting off that suffix and looking the rest up in the crop table gives the crop back |
| `Crops.SeedKeyInjective` | farm_game.py:254-255 | two crops with the same `"<crop> seeds"` key are the same crop, so the inventory can be keyed by crop |
| `FarmState.Init` | farm_game.py:71-77 | the starting state (100 money, day 1, four empty unwatered plots, 5 wheat and 5 potato seeds, not over) satisfies the invariant |
| `FarmState.Plant` | farm_game.py:166-184 | a refused plant changes nothing; money, day and game-over flag never change |
| `FarmState.PlantGuards` | farm_game.py:166-178 | plant fails with no seeds, else with a plot number out of range, else with an occupied plot, and succeeds exactly when none of these holds |
| `FarmState.PlantEffect` | farm_game.py:180-184 | a successful plant makes the plot `{crop, stage 0, unwatered}`, lowers that seed count by exactly one, leaves no zero entry and changes no other plot, seed count or field |
| `FarmState.PlantPreservesInv` | farm_game.py:180-184 | planting keeps the invariant |
| `FarmState.Water` | farm_game.py:194-202 | a refused watering changes nothing |
| `FarmState.WaterSpec` | farm_game.py:195-202 | watering fails exactly on an out-of-range plot, else exactly on an empty one, and succeeds exactly on an in-range occupied plot, where it only sets that plot's watered flag |
| `FarmState.WaterIdempotent` | farm_game.py:202 | watering a plot twice gives the same state as watering it once |
| `FarmState.Harvest` | farm_game.py:211-232 | a refused harvest changes nothing |
| `FarmState.HarvestSpec` | farm_game.py:212-232 | harvest fails on an out-of-range plot, else on an empty plot, else on a growing one, and succeeds exactly on a ready plot; money then rises by that crop's sell price and the plot is `{None, 0, False}` again, nothing else changing |
| `FarmState.Buy` | farm_game.py:250-260 | a refused purchase changes nothing |
| `FarmState.BuySpec` | farm_game.py:250-258 | the shop rejects an unknown name first, then a price above the money, and completes the purchase exactly when the crop is known and affordable; a purchase lowers money by exactly the seed price (never below zero) and raises that seed count by exactly one, nothing else changing |
| `FarmState.Overnight` | farm_game.py:128-134 | overnight an occupied plot grows one stage if it was watered and ends dry, keeping its crop; an empty plot is left as it is, watered flag included |
| `FarmState.Dawn` | farm_game.py:123-134 | the night keeps the number of plots |
| `FarmState.DawnSpec` | farm_game.py:123-134 | the day rises by one; an occupied watered plot grows one stage, an unwatered one does not, and every occupied plot ends dry; empty plots, money, seeds and the game-over flag are untouched |
| `FarmState.DawnPreservesInv` | farm_game.py:123-134 | the night keeps the invariant |
| `FarmState.WaterAndSleepGrows` | farm_game.py:127-134 | a lone crop watered for one night grows by exactly one stage and dries out, with no event |
| `FarmState.GrowingPlots` | farm_game.py:150 | the filter returns, in plot order, only plots that are occupied and below their growth time |
| `FarmState.GrowingPlotsComplete` | farm_game.py:150 | every occupied plot below its growth time is in the filter's result |
| `FarmState.GrowingPlotsEmpty` | farm_game.py:150-151 | the filter is empty exactly when no plot is still growing |
| `FarmState.EventAllowed` | farm_game.py:150-152 | every event but a pest is allowed; an allowed pest, when some plot is still growing, targets an in-range growing plot, as `random.choice` over the filter does |
| `FarmState.HandleEvent` | farm_game.py:144-159 | an event changes only plots, never their number, money, day, seeds or the game-over flag |
| `FarmState.PestSpec` | farm_game.py:147-153 | when some plot is still growing, the pest's target is such a plot and its stage becomes `max(0, stage - 1)`; no other plot changes, ready and empty plots are untouched, stages stay non-negative, and with no growing plot nothing changes |
| `FarmState.RainSpec` | farm_game.py:155-158 | rain waters every plot, empty ones included, and changes nothing else |
| `FarmState.HandleEventPreservesInv` | farm_game.py:144-158 | every event keeps the invariant |
| `FarmState.WinCheck` | farm_game.py:140-142 | the game becomes over when the money is at least 500 and otherwise keeps its flag; nothing else changes |
| `FarmState.AdvanceDay` | farm_game.py:121-142 | a day-advance raises the day by exactly one and changes neither money nor seeds |
| `FarmState.AdvanceDaySpec` | farm_game.py:136-142 | after a day-advance the game is over exactly when it already was or the money is at least 500; the plots are those the event leaves after the night, and with no event those the night left |
| `FarmState.AdvanceDayPreservesInv` | farm_game.py:121-142 | a day-advance keeps the invariant |
| `FarmState.Quit` | farm_game.py:296-298 | quitting sets the game-over flag and changes nothing else |
| `FarmState.ApplyPreservesInv` | farm_game.py:282-298 | whichever command the player gives, the invariant is kept |
| `FarmState.RunPreservesInv` | farm_game.py:269-300 | after any sequence of commands money is not negative, no stage is negative and no inventory entry is zero |
| `FarmState.RunDays` | farm_game.py:269-300 | after any sequence of commands the day counter has risen by exactly the number of day-advances |
| `FarmState.RunKeepsGameOver` | farm_game.py:269-300 | once the game is over, no command makes it not over |
| `FarmState.WheatScenario` | farm_game.py:161-260 | buy wheat (90 money, 6 wheat seeds), plant it in plot 0, water and sleep four nights (stage 4, ready), harvest: 115 money, the plots and seeds as at the start |
| `FarmGame.FarmingGame.constructor` | farm_game.py:71-77 | a new game object holds the starting state and satisfies the invariant |
| `FarmGame.FarmingGame.Plant` | farm_game.py:161-189 | the object moves to the state `FarmState.Plant` gives, reports its outcome and keeps the invariant |
| `FarmGame.FarmingGame.Water` | farm_game.py:191-206 | the plot array moves to the state `FarmState.Water` gives, the other fields are not touched, and the invariant is kept |
| `FarmGame.FarmingGame.Harvest` | farm_game.py:208-235 | the object moves to the state `FarmState.Harvest` gives, reports its outcome and keeps the invariant |
| `FarmGame.FarmingGame.BuySeed` | farm_game.py:250-260 | money and inventory move to the state `FarmState.Buy` gives, the plot array is not touched, and the invariant is kept |
| `FarmGame.FarmingGame.AdvanceDay` | farm_game.py:121-142 | the loop over the plot array performs the night exactly as `FarmState.Dawn`, and the whole method performs `FarmState.AdvanceDay`, keeping the invariant |
| `FarmGame.FarmingGame.HandleRandomEvent` | farm_game.py:144-159 | the plot array moves to the state `FarmState.HandleEvent` gives (the rain loop waters every plot), only the plots change, and the invariant is kept |
| `FarmGame.FarmingGame.Quit` | farm_game.py:296-298 | the object moves to `FarmState.Quit` of its old state |

## Left out

- Terminal output is not modelled. This covers `clear_screen`, `print_slow`
  (screen clearing and the per-character delay), `display_status` with its
  progress bar, `display_inventory` and every printed message. A refusal is
  reported instead as the `Failed` reason of the message that would be printed.
- The main command loop `run` and the shop's `while True` / `exit` loop are
  not modelled. Each shop purchase is one `BuySeed` call and each command is
  one method call. `Action` and `Run` exist only to state properties of
  command sequences.
- Reading input is not modelled: `input()`, `.lower()`, `int(...)` and the
  `ValueError` handlers. Operations take the already lower-cased crop name
  and an integer plot number. Text that is not a number never reaches an
  operation in the source either.
- The random float and `random.choice` are not modelled. The event tag and
  the pest's target plot are parameters instead. The 15% and 30% thresholds
  therefore appear only as the three `Event` cases, and the model says
  nothing about probabilities.
- The crops' `icon` and `info` strings are not modelled; they are display
  text.
- Python's integers are unbounded, so no wrap-around is modelled.
