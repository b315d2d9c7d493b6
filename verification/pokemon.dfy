/** The catalog entry record that the components read, as the catalog service returns it. */
module Pokemon {
  import opened Wrappers

  /** One `base_stat` line of an entry, e.g. ("hp", 45). */
  datatype Stat = Stat(name: string, baseStat: int)

  /** One ability line; `isHidden` is the record's `is_hidden` flag. */
  datatype Ability = Ability(name: string, isHidden: bool)

  /**
   The sprite URIs the card looks at: `sprites.other.home.front_default`,
   `sprites.other.home.front_shiny`, `sprites.other["official-artwork"].front_default`
   and `sprites.front_default`. Each may be missing (null or undefined).
   */
  datatype Sprites = Sprites(
    home: Option<string>,
    homeShiny: Option<string>,
    officialArtwork: Option<string>,
    frontDefault: Option<string>)

  /**
   One catalog entry. `types` are the entry's type names in slot order; `height` is in
   decimetres and `weight` in hectograms, both non-negative integers in the catalog.
   */
  datatype Entry = Entry(
    id: int,
    name: string,
    types: seq<string>,
    abilities: seq<Ability>,
    stats: seq<Stat>,
    sprites: Sprites,
    height: nat,
    weight: nat)
}
