/** The values `PokemonCard` derives from an entry before laying it out. */
module Card {
  import opened Wrappers
  import opened Text
  import opened Decimal
  import opened Pokemon

  /** The 18 type names the colour table lists. */
  const TypeNames: set<string> := {
    "normal", "fire", "water", "grass", "electric", "ice", "fighting", "poison", "ground",
    "flying", "psychic", "bug", "rock", "ghost", "dragon", "steel", "dark", "fairy" }

  /** `typeColors[name]`: the Tailwind colour classes, or undefined for a name outside the table. */
  function TypeColour(name: string): (r: Option<string>)
    ensures r.Some? <==> name in TypeNames
  {
    match name
    case "normal" => Some("bg-gray-300 text-gray-800")
    case "fire" => Some("bg-red-400 text-white")
    case "water" => Some("bg-blue-400 text-white")
    case "grass" => Some("bg-green-400 text-white")
    case "electric" => Some("bg-yellow-300 text-yellow-900")
    case "ice" => Some("bg-blue-200 text-blue-800")
    case "fighting" => Some("bg-red-600 text-white")
    case "poison" => Some("bg-purple-500 text-white")
    case "ground" => Some("bg-yellow-600 text-white")
    case "flying" => Some("bg-indigo-300 text-indigo-900")
    case "psychic" => Some("bg-pink-400 text-white")
    case "bug" => Some("bg-lime-400 text-lime-900")
    case "rock" => Some("bg-yellow-700 text-white")
    case "ghost" => Some("bg-purple-700 text-white")
    case "dragon" => Some("bg-indigo-600 text-white")
    case "steel" => Some("bg-gray-400 text-white")
    case "dark" => Some("bg-gray-700 text-white")
    case "fairy" => Some("bg-pink-300 text-pink-900")
    case _ => None
  }

  /** The catalog's sentinel types have no colour. */
  lemma SentinelTypesUncoloured()
    ensures TypeColour("unknown") == None && TypeColour("shadow") == None && TypeColour("stellar") == None
  {
  }

  /** A type badge: the type name shown and the colour classes it is drawn with. */
  datatype Badge = Badge(typeName: string, colour: Option<string>)

  /** `pokemon.types.map(...)`: one badge per type entry, in the entry's order. */
  function Badges(types: seq<string>): (r: seq<Badge>)
    ensures |r| == |types|
    ensures forall i :: 0 <= i < |types| ==> r[i].typeName == types[i] && r[i].colour == TypeColour(types[i])
  {
    if types == [] then [] else [Badge(types[0], TypeColour(types[0]))] + Badges(types[1..])
  }

  /** Badges for a concatenation of type lists are the badges of each part, in order. */
  lemma {:induction false} BadgesConcat(a: seq<string>, b: seq<string>)
    ensures Badges(a + b) == Badges(a) + Badges(b)
  {
    if a != [] {
      assert (a + b)[1..] == a[1..] + b;
      BadgesConcat(a[1..], b);
    } else {
      assert a + b == b;
    }
  }

  /**
   The main image: `home.front_default || officialArtwork.front_default || front_default`.
   JavaScript's `||` skips a missing or empty URI and returns the last alternative as it is.
   */
  function MainImage(sp: Sprites): (r: Option<string>)
    ensures Truthy(sp.home) ==> r == sp.home
    ensures !Truthy(sp.home) && Truthy(sp.officialArtwork) ==> r == sp.officialArtwork
    ensures !Truthy(sp.home) && !Truthy(sp.officialArtwork) ==> r == sp.frontDefault
  {
    if Truthy(sp.home) then sp.home
    else if Truthy(sp.officialArtwork) then sp.officialArtwork
    else sp.frontDefault
  }

  /** Whenever any of the three URIs is usable, the chosen image is one of them and is usable. */
  lemma MainImagePicksPresent(sp: Sprites)
    ensures Truthy(MainImage(sp)) <==> Truthy(sp.home) || Truthy(sp.officialArtwork) || Truthy(sp.frontDefault)
    ensures MainImage(sp) in {sp.home, sp.officialArtwork, sp.frontDefault}
  {
  }

  /** Reference sum of the `base_stat` values, element by element from the front. */
  function SumStats(stats: seq<Stat>): int
  {
    if stats == [] then 0 else stats[0].baseStat + SumStats(stats[1..])
  }

  lemma {:induction false} SumStatsConcat(a: seq<Stat>, b: seq<Stat>)
    ensures SumStats(a + b) == SumStats(a) + SumStats(b)
  {
    if a != [] {
      assert (a + b)[1..] == a[1..] + b;
      SumStatsConcat(a[1..], b);
    } else {
      assert a + b == b;
    }
  }

  /** No stats sum to 0, and appending a stat adds exactly its value. */
  lemma SumStatsAppend(stats: seq<Stat>, s: Stat)
    ensures SumStats([]) == 0
    ensures SumStats(stats + [s]) == SumStats(stats) + s.baseStat
  {
    SumStatsConcat(stats, [s]);
  }

  /** `stats.reduce((sum, s) => sum + s.base_stat, 0)`: a left-to-right accumulation. */
  method TotalBaseStat(stats: seq<Stat>) returns (total: int)
    ensures total == SumStats(stats)
  {
    total := 0;
    var i := 0;
    while i < |stats|
      invariant 0 <= i <= |stats|
      invariant total == SumStats(stats[..i])
    {
      SumStatsAppend(stats[..i], stats[i]);
      assert stats[..i + 1] == stats[..i] + [stats[i]];
      total := total + stats[i].baseStat;
      i := i + 1;
    }
    assert stats[..i] == stats;
  }

  /** Height in metres as displayed, from decimetres. */
  function HeightInMetres(e: Entry): (r: string)
    ensures IsTenths(r) && ParseTenths(r) == e.height
    ensures r[..|r| - 2] == NatToString(e.height / 10)
  {
    TenthsRoundTrip(e.height);
    TenthsParts(e.height);
    Tenths(e.height)
  }

  /** Weight in kilograms as displayed, from hectograms. */
  function WeightInKilograms(e: Entry): (r: string)
    ensures IsTenths(r) && ParseTenths(r) == e.weight
    ensures r[..|r| - 2] == NatToString(e.weight / 10)
  {
    TenthsRoundTrip(e.weight);
    TenthsParts(e.weight);
    Tenths(e.weight)
  }

  /** Why rendering a card can stop with a JavaScript exception. */
  datatype RenderError = TypeErrorReadingUndefined

  /** The outcome of a computation that may throw. */
  datatype Outcome<T> = Done(value: T) | Threw(error: RenderError)

  /**
   `pokemonToRegionMap[pokemon.name] || []` exactly as written: indexing a missing
   (undefined) map throws; a present map yields the name's regions, or the empty list.
   */
  function RegionsAsWritten(regionMap: Option<map<string, seq<string>>>, name: string): (r: Outcome<seq<string>>)
    ensures regionMap.None? <==> r.Threw?
    ensures regionMap.Some? && name in regionMap.value ==> r == Done(regionMap.value[name])
    ensures regionMap.Some? && name !in regionMap.value ==> r == Done([])
  {
    match regionMap
    case None => Threw(TypeErrorReadingUndefined)
    case Some(m) => Done(if name in m then m[name] else [])
  }

  /** The card as `App` renders it, without a region map, throws before anything is drawn. */
  lemma RegionsAsWrittenThrowsWithoutMap(name: string)
    ensures RegionsAsWritten(None, name) == Threw(TypeErrorReadingUndefined)
  {
  }

  /**
   The region lookup with a missing map treated like an empty one: an absent name
   yields no regions, a present name exactly its mapped regions, and it never throws.
   */
  function Regions(regionMap: Option<map<string, seq<string>>>, name: string): (r: seq<string>)
    ensures regionMap.Some? && name in regionMap.value ==> r == regionMap.value[name]
    ensures regionMap.None? || name !in regionMap.value ==> r == []
  {
    match regionMap
    case None => []
    case Some(m) => if name in m then m[name] else []
  }

  /** Wherever the written lookup does not throw, the corrected one agrees with it. */
  lemma RegionsAgreeWhenMapPresent(m: map<string, seq<string>>, name: string)
    ensures RegionsAsWritten(Some(m), name) == Done(Regions(Some(m), name))
  {
  }

  /**
   The values the card derives from its entry rather than copying. The name, id, main image
   and badges are drawn in every layout; the shiny image, regions, height and weight are
   computed for every card but drawn only in the horizontal layout.
   */
  datatype CardView = CardView(
    name: string,
    id: int,
    mainImage: Option<string>,
    shinyImage: Option<string>,
    badges: seq<Badge>,
    regions: seq<string>,
    heightMetres: string,
    weightKilograms: string,
    totalBaseStat: int)

  /**
   `PokemonCard` with the corrected region lookup: nothing for a null entry, otherwise the
   derived card values. A missing region map shows no regions instead of throwing.
   */
  function RenderCard(pokemon: Option<Entry>, regionMap: Option<map<string, seq<string>>>): (r: Option<CardView>)
    ensures pokemon.None? <==> r.None?
    ensures pokemon.Some? ==> var e := pokemon.value; var v := r.value;
      && v.name == e.name && v.id == e.id
      && v.mainImage == MainImage(e.sprites)
      && v.shinyImage == e.sprites.homeShiny
      && |v.badges| == |e.types|
      && (forall i :: 0 <= i < |e.types| ==>
            v.badges[i].typeName == e.types[i] && v.badges[i].colour == TypeColour(e.types[i]))
      && v.regions == Regions(regionMap, e.name)
      && IsTenths(v.heightMetres) && ParseTenths(v.heightMetres) == e.height
      && v.heightMetres[..|v.heightMetres| - 2] == NatToString(e.height / 10)
      && IsTenths(v.weightKilograms) && ParseTenths(v.weightKilograms) == e.weight
      && v.weightKilograms[..|v.weightKilograms| - 2] == NatToString(e.weight / 10)
      && v.totalBaseStat == SumStats(e.stats)
  {
    match pokemon
    case None => None
    case Some(e) =>
      Some(CardView(
        e.name, e.id, MainImage(e.sprites), e.sprites.homeShiny, Badges(e.types),
        Regions(regionMap, e.name), HeightInMetres(e), WeightInKilograms(e), SumStats(e.stats)))
  }

  /**
   `PokemonCard` exactly as written: a null entry returns before the region lookup, and
   otherwise the region lookup throws when no region map was passed.
   */
  function RenderCardAsWritten(pokemon: Option<Entry>, regionMap: Option<map<string, seq<string>>>)
    : (r: Outcome<Option<CardView>>)
    ensures pokemon.None? ==> r == Done(None)
    ensures pokemon.Some? && regionMap.None? ==> r.Threw?
    ensures pokemon.Some? && regionMap.Some? ==> r == Done(RenderCard(pokemon, regionMap))
  {
    match pokemon
    case None => Done(None)
    case Some(e) =>
      match RegionsAsWritten(regionMap, e.name)
      case Threw(err) => Threw(err)
      case Done(regions) =>
        Done(Some(CardView(
          e.name, e.id, MainImage(e.sprites), e.sprites.homeShiny, Badges(e.types),
          regions, HeightInMetres(e), WeightInKilograms(e), SumStats(e.stats))))
  }

  /** The card as `App` renders it, with an entry and no region map, throws instead of drawing. */
  lemma CardWithoutMapThrows(e: Entry)
    ensures RenderCardAsWritten(Some(e), None) == Threw(TypeErrorReadingUndefined)
    ensures RenderCard(Some(e), None).Some? && RenderCard(Some(e), None).value.regions == []
  {
  }
}
