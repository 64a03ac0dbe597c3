/** The optional value used for a plot's crop (Python's `None` or a crop name). */
module Wrappers {
  datatype Option<+T> = None | Some(value: T)
}

/**
 * The crop table of farm_game.py: four crop kinds with their growth time,
 * seed price and sell price. The icon and description of each crop are
 * display text and are not modelled.
 */
module Crops {
  import opened Wrappers

  datatype Crop = Wheat | Corn | Potato | Carrot

  /** One row of the crop table. */
  datatype CropData = CropData(growthTime: nat, seedPrice: nat, sellPrice: nat)

  /** The crop table lookup; every crop needs at least one day to mature. */
  function Data(c: Crop): (d: CropData)
    ensures d.growthTime >= 1
  {
    match c
    case Wheat => CropData(4, 10, 25)
    case Corn => CropData(5, 15, 40)
    case Potato => CropData(3, 5, 15)
    case Carrot => CropData(3, 8, 20)
  }

  /** The key of a crop in the crop table, as the player types it. */
  function Name(c: Crop): string {
    match c
    case Wheat => "wheat"
    case Corn => "corn"
    case Potato => "potato"
    case Carrot => "carrot"
  }

  /** Looks a typed name up in the crop table; a name that is not a key gives None. */
  function Parse(s: string): (r: Option<Crop>)
    ensures r.Some? ==> Name(r.value) == s
  {
    if s == "wheat" then Some(Wheat)
    else if s == "corn" then Some(Corn)
    else if s == "potato" then Some(Potato)
    else if s == "carrot" then Some(Carrot)
    else None
  }

  /** Every crop is found under its own name. */
  lemma ParseName(c: Crop)
    ensures Parse(Name(c)) == Some(c)
  {
  }

  /**
   * The inventory key under which the seeds of a crop are counted: cutting
   * off the " seeds" suffix and looking the rest up gives the crop back.
   */
  function SeedKey(c: Crop): (k: string)
    ensures |k| >= 6 && k[|k| - 6..] == " seeds" && Parse(k[..|k| - 6]) == Some(c)
  {
    Name(c) + " seeds"
  }

  /**
   * Different crops have different seed keys, so an inventory keyed by seed
   * name is faithfully a map keyed by crop.
   */
  lemma SeedKeyInjective(a: Crop, b: Crop)
    requires SeedKey(a) == SeedKey(b)
    ensures a == b
  {
  }
}
