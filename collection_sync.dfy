/**
 * The two handlers that resolve a Pokémon name against the upstream
 * reference API: `POST /collection` (look the name up, flatten the record,
 * store it) and `GET /collection/name/:pokename` (look it up and flatten it,
 * without storing). The HTTP GET and the store's `create` are outside the
 * model; their outcomes are inputs.
 */
module CollectionSync {
  import opened Common
  import opened Flatten

  // ---------------------------------------------------------------------------
  // The decoded upstream response

  /** `{ name }` of a named reference inside the upstream record. */
  datatype NamedRef = NamedRef(name: string)

  /** One element of `abilities`: `{ ability: { name } }`. */
  datatype AbilitySlot = AbilitySlot(ability: NamedRef)

  /** One element of `types`: `{ type: { name } }` (the JSON key is `type`). */
  datatype TypeSlot = TypeSlot(kind: NamedRef)

  datatype Sprites = Sprites(frontDefault: string)

  /** The fields of the upstream record the handlers read. */
  datatype Pokemon = Pokemon(
    sprites: Sprites,
    id: int,
    name: string,
    height: int,
    weight: int,
    abilities: seq<AbilitySlot>,
    types: seq<TypeSlot>)

  /** A collection entry's fields, abilities and types flattened into strings. */
  datatype Entry = Entry(
    pokeimg: string,
    pokeid: int,
    pokename: string,
    height: int,
    weight: int,
    abilities: string,
    poketypes: string)

  /**
   * What the upstream GET produced: a decoded record, or a throw (a non-2xx
   * answer such as 404 for an unknown name, a network failure, or a body
   * missing one of the objects or arrays the handlers read into).
   */
  datatype Fetch = Fetched(pokemon: Pokemon) | FetchFailed

  /** A row of the collection table: the entry's columns and the `id` the store assigned. */
  datatype StoredEntry = StoredEntry(id: int, entry: Entry)

  /** The handler's answer: its status and message, and the `collection` it carries when there is one. */
  datatype Reply<+T> = Reply(response: Response, collection: Option<T>)

  const ApiBase: string := "https://pokeapi.co/api/v2/pokemon/"

  // ---------------------------------------------------------------------------
  // Normalisation

  /** The URL the handlers GET for a requested name: the API base, then the name lower-cased. */
  function LookupUrl(pokename: string): (url: string)
    ensures |url| == |ApiBase| + |pokename| && url[..|ApiBase|] == ApiBase
    ensures forall i :: 0 <= i < |pokename| ==> url[|ApiBase| + i] == LowerChar(pokename[i])
  {
    ApiBase + ToLower(pokename)
  }

  /** `abilities.map(a => a.ability.name)`. */
  function AbilityNames(slots: seq<AbilitySlot>): (names: seq<string>)
    ensures |names| == |slots|
    ensures forall i :: 0 <= i < |slots| ==> names[i] == slots[i].ability.name
    decreases |slots|
  {
    if slots == [] then [] else [slots[0].ability.name] + AbilityNames(slots[1..])
  }

  /** `types.map(t => t.type.name)`. */
  function TypeNames(slots: seq<TypeSlot>): (names: seq<string>)
    ensures |names| == |slots|
    ensures forall i :: 0 <= i < |slots| ==> names[i] == slots[i].kind.name
    decreases |slots|
  {
    if slots == [] then [] else [slots[0].kind.name] + TypeNames(slots[1..])
  }

  /**
   * The flat entry built from an upstream record: the scalar fields are
   * copied, and each list becomes its names with one separator between
   * neighbours.
   */
  function ToEntry(p: Pokemon): (e: Entry)
    ensures e.pokeimg == p.sprites.frontDefault && e.pokeid == p.id && e.pokename == p.name
    ensures e.height == p.height && e.weight == p.weight
    ensures p.abilities != [] ==>
      |e.abilities| == TotalLength(AbilityNames(p.abilities)) + 2 * (|p.abilities| - 1)
    ensures p.types != [] ==>
      |e.poketypes| == TotalLength(TypeNames(p.types)) + 2 * (|p.types| - 1)
  {
    Entry(
      p.sprites.frontDefault,
      p.id,
      p.name,
      p.height,
      p.weight,
      Join(AbilityNames(p.abilities), Separator),
      Join(TypeNames(p.types), Separator))
  }

  /** Requests that differ only in the case of ASCII letters look up the same URL. */
  lemma LookupIgnoresCase(a: string, b: string)
    requires ToLower(a) == ToLower(b)
    ensures LookupUrl(a) == LookupUrl(b)
  {
  }

  /** The requested name reaches the URL lower-cased. */
  lemma LookupUrlLowerCase(pokename: string)
    ensures LookupUrl(ToLower(pokename)) == LookupUrl(pokename)
    ensures forall i :: |ApiBase| <= i < |LookupUrl(pokename)| ==> !IsUpper(LookupUrl(pokename)[i])
  {
    ToLowerIdempotent(pokename);
    ToLowerSpec(pokename);
  }

  /**
   * The flattened abilities and types keep the upstream order: reading each
   * string back with `split(", ")` gives the names in source order, provided
   * there is at least one and none contains the separator.
   */
  lemma EntryKeepsOrder(p: Pokemon)
    ensures p.abilities != [] && (forall i :: 0 <= i < |p.abilities| ==> NoSep(p.abilities[i].ability.name))
      ==> Split(ToEntry(p).abilities) == AbilityNames(p.abilities)
    ensures p.types != [] && (forall i :: 0 <= i < |p.types| ==> NoSep(p.types[i].kind.name))
      ==> Split(ToEntry(p).poketypes) == TypeNames(p.types)
  {
    var an, tn := AbilityNames(p.abilities), TypeNames(p.types);
    if p.abilities != [] && forall i :: 0 <= i < |p.abilities| ==> NoSep(p.abilities[i].ability.name) {
      SplitJoin(an);
    }
    if p.types != [] && forall i :: 0 <= i < |p.types| ==> NoSep(p.types[i].kind.name) {
      SplitJoin(tn);
    }
  }

  /** An empty abilities or types list is stored as the empty string. */
  lemma EmptyListsFlattenToEmpty(p: Pokemon)
    ensures p.abilities == [] ==> ToEntry(p).abilities == ""
    ensures p.types == [] ==> ToEntry(p).poketypes == ""
  {
  }

  /** The i-th ability name sits in the flattened string after the earlier names and their separators. */
  lemma EntryPlacesAbility(p: Pokemon, i: nat)
    requires i < |p.abilities|
    ensures var s, o := ToEntry(p).abilities, Offset(AbilityNames(p.abilities), Separator, i);
      && o + |p.abilities[i].ability.name| <= |s|
      && s[o..o + |p.abilities[i].ability.name|] == p.abilities[i].ability.name
      && (i > 0 ==> 2 <= o && s[o - 2..o] == Separator)
  {
    JoinPlacesPart(AbilityNames(p.abilities), Separator, i);
    if i > 0 {
      JoinSeparatesParts(AbilityNames(p.abilities), Separator, i);
    }
  }

  /** The i-th type name sits in the flattened string after the earlier names and their separators. */
  lemma EntryPlacesType(p: Pokemon, i: nat)
    requires i < |p.types|
    ensures var s, o := ToEntry(p).poketypes, Offset(TypeNames(p.types), Separator, i);
      && o + |p.types[i].kind.name| <= |s|
      && s[o..o + |p.types[i].kind.name|] == p.types[i].kind.name
      && (i > 0 ==> 2 <= o && s[o - 2..o] == Separator)
  {
    JoinPlacesPart(TypeNames(p.types), Separator, i);
    if i > 0 {
      JoinSeparatesParts(TypeNames(p.types), Separator, i);
    }
  }

  // ---------------------------------------------------------------------------
  // Handlers

  const CreatedMessage: string := "Collection entry created successfully"
  const CreateFailedMessage: string := "An error occurred while creating the collection entry"
  const FetchedMessage: string := "Pokémon details fetched successfully"
  const FetchFailedMessage: string := "An error occurred while fetching Pokémon details"

  /**
   * `POST /collection`. `pokename` is the body's `pokename` when the body is
   * JSON carrying a string there (otherwise `toLowerCase` throws); `get`
   * answers the GET of a URL; `created` is the outcome of the store's
   * `create`: the `id` it gave the new row, or a throw. It succeeds exactly
   * when there is a name, its lookup returns a record and the store accepts
   * it, and the reply then carries the stored row, the flattened record under
   * its new `id`; every other path, an upstream "not found" included, ends
   * in 500.
   */
  function CreateByName(pokename: Option<string>, get: string -> Fetch, created: Attempt<int>): (r: Reply<StoredEntry>)
    ensures r.response.status == 200 <==>
      pokename.Some? && get(LookupUrl(pokename.value)).Fetched? && created.Returned?
    ensures r.response.status == 200 ==>
      r == Reply(Response(200, CreatedMessage),
                 Some(StoredEntry(created.value, ToEntry(get(LookupUrl(pokename.value)).pokemon))))
    ensures r.response.status != 200 ==> r == Reply(Response(500, CreateFailedMessage), None)
  {
    if pokename.None? then Reply(Response(500, CreateFailedMessage), None)
    else
      match get(LookupUrl(pokename.value))
      case FetchFailed => Reply(Response(500, CreateFailedMessage), None)
      case Fetched(p) =>
        match created
        case Returned(id) => Reply(Response(200, CreatedMessage), Some(StoredEntry(id, ToEntry(p))))
        case Threw => Reply(Response(500, CreateFailedMessage), None)
  }

  /** `GET /collection/name/:pokename`: the same lookup and flattening, nothing stored. */
  function FetchByName(pokename: string, get: string -> Fetch): (r: Reply<Entry>)
    ensures r.response.status == 200 <==> get(LookupUrl(pokename)).Fetched?
    ensures r.response.status == 200 ==>
      r == Reply(Response(200, FetchedMessage), Some(ToEntry(get(LookupUrl(pokename)).pokemon)))
    ensures r.response.status != 200 ==> r == Reply(Response(500, FetchFailedMessage), None)
  {
    match get(LookupUrl(pokename))
    case FetchFailed => Reply(Response(500, FetchFailedMessage), None)
    case Fetched(p) => Reply(Response(200, FetchedMessage), Some(ToEntry(p)))
  }

  /** The upstream "not found" is never reported as 404 by create-by-name. */
  lemma UpstreamNotFoundIsServerError(pokename: string, get: string -> Fetch, created: Attempt<int>)
    requires get(LookupUrl(pokename)) == FetchFailed
    ensures CreateByName(Some(pokename), get, created).response.status == 500
    ensures FetchByName(pokename, get).response.status == 500
  {
  }

  /** Both handlers ignore the case of the requested name. */
  lemma HandlersIgnoreCase(a: string, b: string, get: string -> Fetch, created: Attempt<int>)
    requires ToLower(a) == ToLower(b)
    ensures CreateByName(Some(a), get, created) == CreateByName(Some(b), get, created)
    ensures FetchByName(a, get) == FetchByName(b, get)
  {
  }

  /**
   * The two copies of the lookup-and-flatten code agree: when both succeed
   * on the same name, the stored row holds the entry the fetch returns.
   */
  lemma HandlersAgree(pokename: string, get: string -> Fetch, id: int)
    requires get(LookupUrl(pokename)).Fetched?
    ensures FetchByName(pokename, get).response.status == 200
    ensures CreateByName(Some(pokename), get, Returned(id)).collection
      == Some(StoredEntry(id, FetchByName(pokename, get).collection.value))
  {
  }
}
