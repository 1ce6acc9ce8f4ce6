/**
 * The pure parts of the backend's PokéAPI data source: choosing the backend from the mode,
 * mapping a raw API record to the game's `Pokemon`, drawing a random id inside a generation,
 * mapping an HTTP reply to a result or an error, reading the id out of a list entry's URL and
 * assembling the list. The HTTP requests themselves are not modelled: a reply is an input.
 */
module PokeApi {
  import opened Wrappers
  import opened Domain
  import Config
  import Text

  datatype ApiMode = Real | Mockoon

  const REAL_BASE_URL := "https://pokeapi.co/api/v2"
  const MOCKOON_DEFAULT_URL := "http://localhost:3001"

  /** The configuration fixed by the data source's constructor. */
  datatype DataSource = DataSource(mode: ApiMode, baseUrl: string, useHttpsAgent: bool)

  /** The constructor: mockoon mode takes `MOCKOON_API_URL` when it is set and non-empty, else
      the localhost default, and uses no https agent; the real mode uses the public API with
      the agent. */
  function NewDataSource(mode: ApiMode, mockoonEnv: Option<string>): (ds: DataSource)
    ensures ds.mode == mode
    ensures ds.useHttpsAgent <==> mode == Real
    ensures mode == Real ==> ds.baseUrl == REAL_BASE_URL
    ensures mode == Mockoon && mockoonEnv.Some? && mockoonEnv.value != [] ==> ds.baseUrl == mockoonEnv.value
    ensures mode == Mockoon && (mockoonEnv.None? || mockoonEnv.value == []) ==> ds.baseUrl == MOCKOON_DEFAULT_URL
    ensures ds.baseUrl != []
  {
    match mode
    case Mockoon =>
      var url := if mockoonEnv.Some? && mockoonEnv.value != [] then mockoonEnv.value else MOCKOON_DEFAULT_URL;
      DataSource(mode, url, false)
    case Real => DataSource(mode, REAL_BASE_URL, true)
  }

  datatype RawSprites = RawSprites(frontDefault: string, officialArtwork: Option<string>)
  datatype RawCries = RawCries(latest: Option<string>, legacy: Option<string>)
  datatype RawStat = RawStat(name: string, baseStat: int)
  /** The fields of a PokéAPI `pokemon` record the game reads. */
  datatype RawPokemon = RawPokemon(
    id: int, name: string, sprites: RawSprites, cries: RawCries,
    types: seq<string>, stats: seq<RawStat>)

  /** JavaScript's `a || b` for an optional string: `b` when `a` is missing or empty. */
  function OrElse(a: Option<string>, b: string): (r: string)
    ensures a.Some? && a.value != [] ==> r == a.value
    ensures a.None? || a.value == [] ==> r == b
  {
    if a.Some? && a.value != [] then a.value else b
  }

  /** `transformPokemon`. */
  function TransformPokemon(data: RawPokemon): (p: Pokemon)
    ensures p.id == data.id
    ensures |p.name| == |data.name|
    ensures data.name != [] ==> p.name[0] == Text.UpperChar(data.name[0]) && p.name[1..] == data.name[1..]
    ensures data.sprites.officialArtwork.Some? && data.sprites.officialArtwork.value != [] ==>
      p.sprite == data.sprites.officialArtwork.value
    ensures data.sprites.officialArtwork.None? || data.sprites.officialArtwork.value == [] ==>
      p.sprite == data.sprites.frontDefault
    ensures var c := data.cries;
      p.cryUrl == if c.latest.Some? && c.latest.value != [] then c.latest.value
                  else if c.legacy.Some? then c.legacy.value
                  else ""
    ensures |p.types| == |data.types| && forall i :: 0 <= i < |p.types| ==> p.types[i] == data.types[i]
    ensures |p.stats| == |data.stats| && forall i :: 0 <= i < |p.stats| ==>
      p.stats[i] == Stat(data.stats[i].name, data.stats[i].baseStat)
  {
    Pokemon(
      data.id,
      Text.CapitalizeFirst(data.name),
      OrElse(data.sprites.officialArtwork, data.sprites.frontDefault),
      OrElse(data.cries.latest, OrElse(data.cries.legacy, "")),
      data.types,
      ToStats(data.stats))
  }

  function ToStats(raw: seq<RawStat>): (r: seq<Stat>)
    ensures |r| == |raw|
    ensures forall i :: 0 <= i < |r| ==> r[i] == Stat(raw[i].name, raw[i].baseStat)
  {
    if raw == [] then [] else [Stat(raw[0].name, raw[0].baseStat)] + ToStats(raw[1..])
  }

  /** The id range used for a generation: a missing or zero id means generation 1, and an id
      with no range falls back to generation 1 as well. */
  function RangeFor(generationId: Option<int>): (r: GenerationRange)
    ensures r.min == 1 && r.min <= r.max
    ensures generationId.Some? && generationId.value in Config.GENERATION_RANGES ==>
      r == Config.GENERATION_RANGES[generationId.value]
    ensures generationId.None? || generationId.value !in Config.GENERATION_RANGES ==>
      r == Config.GENERATION_RANGES[1]
  {
    var key := if generationId.Some? && generationId.value != 0 then generationId.value else 1;
    if key in Config.GENERATION_RANGES then Config.GENERATION_RANGES[key]
    else Config.GENERATION_RANGES[1]
  }

  /** `getRandomPokemonId`, with `Math.random()` passed in as `u`. */
  function RandomPokemonId(generationId: Option<int>, u: real): (id: int)
    requires 0.0 <= u < 1.0
    ensures RangeFor(generationId).min <= id <= RangeFor(generationId).max
  {
    var range := RangeFor(generationId);
    var span := range.max - range.min + 1;
    ScaledFloorBelow(u, span);
    (u * span as real).Floor + range.min
  }

  lemma ScaledFloorBelow(u: real, span: int)
    requires 0.0 <= u < 1.0 && span >= 1
    ensures 0 <= (u * span as real).Floor < span
  {
    assert u * span as real < span as real;
    assert 0.0 <= u * span as real;
  }

  /** Every id in a range can be drawn. */
  lemma EveryIdReachable(generationId: Option<int>, id: int)
    requires RangeFor(generationId).min <= id <= RangeFor(generationId).max
    ensures var range := RangeFor(generationId);
      var u := (id - range.min) as real / (range.max - range.min + 1) as real;
      0.0 <= u < 1.0 && RandomPokemonId(generationId, u) == id
  {
    var range := RangeFor(generationId);
    var span := range.max - range.min + 1;
    var u := (id - range.min) as real / span as real;
    assert u * span as real == (id - range.min) as real;
  }

  /** What one `fetch` for a Pokémon produced: it threw, or a response with a status and a
      body that parses (`Some`) or not (`None`). */
  datatype Reply = Threw | Responded(status: int, body: Option<RawPokemon>)

  predicate IsOk(status: int) { 200 <= status <= 299 }

  /** `getPokemonById` / `getPokemonByName` after the request: 404 raises not-found, any
      other failed status raises a network error carrying the status, and every other
      failure (a thrown request, an unparsable body) yields `null`. */
  function ReplyToPokemon(reply: Reply): (r: Result<Option<Pokemon>, AppError>)
    ensures r.Err? <==> reply.Responded? && !IsOk(reply.status)
    ensures r == Err(PokemonNotFoundError) <==> reply.Responded? && reply.status == 404
    ensures reply.Responded? && !IsOk(reply.status) && reply.status != 404 ==>
      r == Err(NetworkError(Some(reply.status)))
    ensures r == Ok(None) <==> reply.Threw? || (IsOk(reply.status) && reply.body.None?)
    ensures r.Ok? && r.value.Some? ==>
      reply.Responded? && reply.body.Some? && r.value.value == TransformPokemon(reply.body.value)
  {
    match reply
    case Threw => Ok(None)
    case Responded(status, body) =>
      if !IsOk(status) then
        if status == 404 then Err(PokemonNotFoundError) else Err(NetworkError(Some(status)))
      else if body.None? then Ok(None)
      else Ok(Some(TransformPokemon(body.value)))
  }

  /** `parseInt(url.split('/').slice(-2, -1)[0])`: the second-to-last segment of the URL;
      `None` stands for `NaN`, including when the URL has no '/' at all. */
  function ListEntryId(url: string): (r: Option<int>)
    ensures '/' !in url ==> r == None
  {
    var parts := Text.Split(url, '/');
    if |parts| < 2 then None else Text.ParseInt(parts[|parts| - 2])
  }

  /** A list entry URL of the API's form `<anything>/<id>/` yields that id. */
  lemma ListEntryIdOfEntryUrl(prefix: string, n: nat)
    ensures ListEntryId(prefix + "/" + Text.DecimalString(n) + "/") == Some(n)
  {
    var digits := Text.DecimalString(n);
    assert '/' !in digits by {
      forall i | 0 <= i < |digits| ensures digits[i] != '/' {
        assert Text.IsDigit(digits[i]);
      }
    }
    assert prefix + "/" + digits + "/" == prefix + ['/'] + (digits + ['/'] + []);
    Text.SplitAppend(prefix, '/', digits + ['/'] + []);
    Text.SplitAppend(digits, '/', []);
    var parts := Text.Split(prefix, '/') + ([digits] + [[]]);
    assert Text.Split(prefix + "/" + digits + "/", '/') == parts;
    assert parts[|parts| - 2] == digits;
    Text.ParseIntOfDecimal(n);
  }

  /** A lookup that found a Pokémon (neither an error nor `null`). */
  predicate Hit(l: Result<Option<Pokemon>, AppError>) {
    l.Ok? && l.value.Some?
  }

  /** The positions of the hits, in increasing order. */
  function HitIndices(lookups: seq<Result<Option<Pokemon>, AppError>>): (idx: seq<nat>)
    ensures forall k :: 0 <= k < |idx| ==> idx[k] < |lookups| && Hit(lookups[idx[k]])
    ensures forall k, m :: 0 <= k < m < |idx| ==> idx[k] < idx[m]
    ensures forall i :: 0 <= i < |lookups| && Hit(lookups[i]) ==> i in idx
  {
    if lookups == [] then []
    else
      var last := |lookups| - 1;
      HitIndices(lookups[..last]) + (if Hit(lookups[last]) then [last] else [])
  }

  /** `Promise.all` over the entries' lookups, then `filter(p => p !== null)`: one raised
      error empties the whole list (the surrounding `catch` returns `[]`); otherwise exactly
      the found Pokémon, the `k`-th of them from the `k`-th hit in entry order. */
  function CollectList(lookups: seq<Result<Option<Pokemon>, AppError>>): (r: seq<Pokemon>)
    ensures (exists i :: 0 <= i < |lookups| && lookups[i].Err?) ==> r == []
    ensures (forall i :: 0 <= i < |lookups| ==> lookups[i].Ok?) ==>
      |r| == |HitIndices(lookups)|
      && forall k :: 0 <= k < |r| ==> lookups[HitIndices(lookups)[k]] == Ok(Some(r[k]))
    ensures |r| <= |lookups|
  {
    if exists i :: 0 <= i < |lookups| && lookups[i].Err? then []
    else
      FoundAtHits(lookups);
      Found(lookups)
  }

  /** The non-null results in entry order. */
  function Found(lookups: seq<Result<Option<Pokemon>, AppError>>): (r: seq<Pokemon>)
    ensures |r| <= |lookups|
  {
    if lookups == [] then []
    else (if Hit(lookups[0]) then [lookups[0].value.value] else []) + Found(lookups[1..])
  }

  /** A `null` lookup is dropped and the Pokémon around it are kept, in order. */
  lemma NullLookupDropped(p: Pokemon, q: Pokemon)
    ensures CollectList([Ok(Some(p)), Ok(None), Ok(Some(q))]) == [p, q]
  {
    var l: seq<Result<Option<Pokemon>, AppError>> := [Ok(Some(p)), Ok(None), Ok(Some(q))];
    var l1: seq<Result<Option<Pokemon>, AppError>> := [Ok(None), Ok(Some(q))];
    var l2: seq<Result<Option<Pokemon>, AppError>> := [Ok(Some(q))];
    assert l[1..] == l1 && l1[1..] == l2 && l2[1..] == [];
    assert Found(l2) == [q];
    assert Found(l1) == [q];
    assert Found(l) == [p, q];
    assert !exists i :: 0 <= i < |l| && l[i].Err?;
  }

  lemma {:induction false} FoundAppend(a: seq<Result<Option<Pokemon>, AppError>>, b: seq<Result<Option<Pokemon>, AppError>>)
    ensures Found(a + b) == Found(a) + Found(b)
  {
    if a == [] {
      assert a + b == b;
    } else {
      var head := if Hit(a[0]) then [a[0].value.value] else [];
      assert (a + b)[0] == a[0];
      assert (a + b)[1..] == a[1..] + b;
      FoundAppend(a[1..], b);
      calc {
        Found(a + b);
        head + Found(a[1..] + b);
        head + (Found(a[1..]) + Found(b));
        (head + Found(a[1..])) + Found(b);
        Found(a) + Found(b);
      }
    }
  }

  /** `Found` keeps exactly the hits, in order. */
  lemma {:induction false} FoundAtHits(lookups: seq<Result<Option<Pokemon>, AppError>>)
    ensures |Found(lookups)| == |HitIndices(lookups)|
    ensures forall k :: 0 <= k < |Found(lookups)| ==>
      lookups[HitIndices(lookups)[k]] == Ok(Some(Found(lookups)[k]))
  {
    if lookups != [] {
      var last := |lookups| - 1;
      var init := lookups[..last];
      FoundAtHits(init);
      assert lookups == init + [lookups[last]];
      FoundAppend(init, [lookups[last]]);
      assert [lookups[last]][1..] == [];
      var f := Found(lookups);
      var idx := HitIndices(lookups);
      forall k | 0 <= k < |f| ensures lookups[idx[k]] == Ok(Some(f[k])) {
        if k < |Found(init)| {
          assert f[k] == Found(init)[k] && idx[k] == HitIndices(init)[k];
          assert lookups[idx[k]] == init[idx[k]];
        }
      }
    }
  }

  /** What `getPokemonList` answers, given the list reply and each entry's lookup: any
      failure of the list request itself gives `[]`. */
  datatype ListReply = ListThrew | ListResponded(status: int, entryUrls: Option<seq<string>>)

  function PokemonList(reply: ListReply, lookup: Option<int> -> Result<Option<Pokemon>, AppError>): (r: seq<Pokemon>)
    ensures reply.ListThrew? || !IsOk(reply.status) || reply.entryUrls.None? ==> r == []
    ensures reply.ListResponded? && reply.entryUrls.Some? ==> |r| <= |reply.entryUrls.value|
    ensures reply.ListResponded? && IsOk(reply.status) && reply.entryUrls.Some? ==>
      r == CollectList(EntryLookups(reply.entryUrls.value, lookup))
  {
    if reply.ListThrew? || !IsOk(reply.status) || reply.entryUrls.None? then []
    else CollectList(EntryLookups(reply.entryUrls.value, lookup))
  }

  /** The lookup of every entry, by the id read from its URL, in entry order. */
  function EntryLookups(urls: seq<string>, lookup: Option<int> -> Result<Option<Pokemon>, AppError>)
    : (r: seq<Result<Option<Pokemon>, AppError>>)
    ensures |r| == |urls| && forall i :: 0 <= i < |urls| ==> r[i] == lookup(ListEntryId(urls[i]))
  {
    seq(|urls|, i requires 0 <= i < |urls| => lookup(ListEntryId(urls[i])))
  }
}
