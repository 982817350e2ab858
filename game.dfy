/**
 * The game data the commands consult and the shape of one collection entry.
 * The species catalog (`GameData`) is external: its lists and lookups are
 * given as values.
 */
module Game {
  import opened Wrappers

  datatype Species = Species(id: int, catchable: bool)

  /**
   * `GameData.list_mythical`, `list_legendary`, `list_ub`, `list_type` and
   * `species_by_name` (`None` standing for `SpeciesNotFoundError`).
   */
  datatype GameData = GameData(
    mythical: seq<int>,
    legendary: seq<int>,
    ultraBeasts: seq<int>,
    idsOfType: string -> seq<int>,
    speciesByName: string -> Option<Species>)

  datatype Ivs = Ivs(hp: int, atk: int, defn: int, satk: int, sdef: int, spd: int)

  /** One pokémon of a member's collection. */
  datatype Entry = Entry(
    number: int,
    speciesId: int,
    level: int,
    xp: int,
    nature: string,
    ivs: Ivs,
    favorite: bool,
    nickname: Option<string>)
}
