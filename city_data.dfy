/**
 * The city data store of lib/city-data.ts. The data directory is an input:
 * the listing `readdirSync` returns (None when it throws) and the files by
 * name, each either a parsed city record or None when reading or parsing
 * fails. Only the fields the routing and sitemap code reads are kept.
 */
module CityStore {
  import opened Wrappers
  import opened Text

  datatype Service = Service(serviceId: string, serviceTitle: string)

  /** A city record; `services` is None when the JSON file has no such field. */
  datatype CityData = CityData(city: string, state: string, stateName: string, slug: string,
                               services: Option<seq<Service>>)

  datatype StateSummary = StateSummary(state: string, stateName: string, count: nat)

  /** `data/cities`: what listing it gives and what each file name reads as. */
  datatype DataDir = DataDir(listing: Option<seq<string>>, files: map<string, Option<CityData>>)

  const JsonExt: string := ".json"

  // ---------------------------------------------------------------------------
  // getAllCitySlugs

  /** `.filter((f) => f.endsWith(".json")).map((f) => f.replace(".json", ""))`. */
  function JsonSlugs(names: seq<string>): (slugs: seq<string>)
    ensures |slugs| <= |names|
  {
    if names == [] then []
    else (if EndsWith(names[0], JsonExt) then [RemoveFirst(names[0], JsonExt)] else []) + JsonSlugs(names[1..])
  }

  function GetAllCitySlugs(dir: DataDir): (slugs: seq<string>)
    ensures dir.listing.None? ==> slugs == []
    ensures dir.listing.Some? ==> |slugs| <= |dir.listing.value|
  {
    match dir.listing
    case None => []
    case Some(names) => JsonSlugs(names)
  }

  /** Filtering and mapping go name by name: the slugs of two listings in a row are the slugs of each. */
  lemma {:induction false} JsonSlugsAppend(a: seq<string>, b: seq<string>)
    ensures JsonSlugs(a + b) == JsonSlugs(a) + JsonSlugs(b)
  {
    if a == [] {
      assert a + b == b;
      AppendEmpty(JsonSlugs(b));
    } else {
      var first := if EndsWith(a[0], JsonExt) then [RemoveFirst(a[0], JsonExt)] else [];
      assert (a + b)[0] == a[0];
      assert (a + b)[1..] == a[1..] + b;
      assert JsonSlugs(a + b) == first + JsonSlugs(a[1..] + b);
      JsonSlugsAppend(a[1..], b);
      AppendAssoc(first, JsonSlugs(a[1..]), JsonSlugs(b));
    }
  }

  /** A slug comes from some `.json` name of the listing, and every such name gives one. */
  lemma {:induction false} JsonSlugsMembership(names: seq<string>, slug: string)
    ensures slug in JsonSlugs(names) <==>
      exists f :: f in names && EndsWith(f, JsonExt) && RemoveFirst(f, JsonExt) == slug
  {
    if names != [] {
      JsonSlugsMembership(names[1..], slug);
      assert forall f :: f in names <==> f == names[0] || f in names[1..];
    }
  }

  /**
   * `replace(".json", "")` removes the `.json` right after a name that holds
   * none of its own, whatever follows, even another `.json`.
   */
  lemma FirstJsonRemoved(name: string, rest: string)
    requires !Contains(name, JsonExt)
    ensures RemoveFirst(name + JsonExt + rest, JsonExt) == name + rest
  {
    var s := name + JsonExt + rest;
    assert s[|name|..|name| + 5] == JsonExt;
    forall j: nat | j < |name|
      ensures !ContainsAt(s, j, JsonExt)
    {
      if j + 5 <= |name| {
        assert s[j..j + 5] == name[j..j + 5];
        assert !ContainsAt(name, j, JsonExt);
      } else {
        assert s[|name|] == '.';
        assert JsonExt[|name| - j] != '.';
      }
    }
    RemoveFirstAt(s, JsonExt, |name|);
    assert s[..|name|] == name;
    assert s[|name| + 5..] == rest;
  }

  /** `name.json` gives back `name` when `name` holds no `.json` of its own. */
  lemma SlugOfJsonName(name: string)
    requires !Contains(name, JsonExt)
    ensures EndsWith(name + JsonExt, JsonExt)
    ensures RemoveFirst(name + JsonExt, JsonExt) == name
  {
    EndsWithConcat(name, JsonExt);
    FirstJsonRemoved(name, "");
    assert name + JsonExt + "" == name + JsonExt;
    assert name + "" == name;
  }

  // ---------------------------------------------------------------------------
  // getCityBySlug

  /** The file name a slug is looked up under. */
  function FileName(slug: string): string
  {
    Lower(slug) + JsonExt
  }

  /** Any read or parse failure, a missing file included, gives None. */
  function GetCityBySlug(dir: DataDir, slug: string): (city: Option<CityData>)
    ensures city.Some? <==> FileName(slug) in dir.files && dir.files[FileName(slug)].Some?
    ensures city.Some? ==> city == dir.files[FileName(slug)]
  {
    var name := FileName(slug);
    if name in dir.files then dir.files[name] else None
  }

  /** The lookup ignores the case of the slug. */
  lemma LookupIgnoresCase(dir: DataDir, slug: string)
    ensures GetCityBySlug(dir, slug) == GetCityBySlug(dir, Lower(slug))
  {
    LowerIdempotent(slug);
  }

  /** A listed lower-case `name.json` is found again under the slug the listing gives for it. */
  lemma ListedFileFound(dir: DataDir, name: string)
    requires !Contains(name, JsonExt) && NoUpperCase(name)
    requires name + JsonExt in dir.files
    ensures GetCityBySlug(dir, RemoveFirst(name + JsonExt, JsonExt)) == dir.files[name + JsonExt]
  {
    SlugOfJsonName(name);
    LowerOfLowerCase(name);
  }

  // ---------------------------------------------------------------------------
  // getAllCities

  /** `.map(getCityBySlug).filter(Boolean)`: the successful lookups, in order. */
  function LookupAll(dir: DataDir, slugs: seq<string>): (cities: seq<CityData>)
    ensures |cities| <= |slugs|
  {
    if slugs == [] then []
    else
      (match GetCityBySlug(dir, slugs[0]) case Some(c) => [c] case None => []) + LookupAll(dir, slugs[1..])
  }

  function GetAllCities(dir: DataDir): (cities: seq<CityData>)
    ensures |cities| <= |GetAllCitySlugs(dir)|
  {
    LookupAll(dir, GetAllCitySlugs(dir))
  }

  /** Lookups go slug by slug, so the order of the slugs is kept. */
  lemma {:induction false} LookupAllAppend(dir: DataDir, a: seq<string>, b: seq<string>)
    ensures LookupAll(dir, a + b) == LookupAll(dir, a) + LookupAll(dir, b)
  {
    if a == [] {
      assert a + b == b;
    } else {
      assert (a + b)[0] == a[0];
      assert (a + b)[1..] == a[1..] + b;
      LookupAllAppend(dir, a[1..], b);
    }
  }

  /** A city is listed exactly when some slug's lookup succeeds with it. */
  lemma {:induction false} LookupAllMembership(dir: DataDir, slugs: seq<string>, c: CityData)
    ensures c in LookupAll(dir, slugs) <==> exists s :: s in slugs && GetCityBySlug(dir, s) == Some(c)
  {
    if slugs != [] {
      LookupAllMembership(dir, slugs[1..], c);
      assert forall s :: s in slugs <==> s == slugs[0] || s in slugs[1..];
    }
  }

  /** When every slug resolves, no city is dropped. */
  lemma {:induction false} LookupAllComplete(dir: DataDir, slugs: seq<string>)
    requires forall i :: 0 <= i < |slugs| ==> GetCityBySlug(dir, slugs[i]).Some?
    ensures |LookupAll(dir, slugs)| == |slugs|
  {
    if slugs != [] {
      LookupAllComplete(dir, slugs[1..]);
    }
  }

  // ---------------------------------------------------------------------------
  // getCitiesByState

  /** `city.state.toUpperCase()`. */
  function StateKey(c: CityData): string
  {
    Upper(c.state)
  }

  /** An insertion-ordered dictionary from state codes to city lists. */
  datatype Grouping = Grouping(keys: seq<string>, groups: map<string, seq<CityData>>)

  predicate Distinct(keys: seq<string>)
  {
    forall i, j :: 0 <= i < j < |keys| ==> keys[i] != keys[j]
  }

  /** The keys are distinct and name exactly the groups, and no group is empty. */
  predicate WellFormed(g: Grouping)
  {
    Distinct(g.keys)
    && (forall k :: k in g.keys ==> k in g.groups)
    && (forall k :: k in g.groups ==> k in g.keys)
    && (forall k :: k in g.groups ==> g.groups[k] != [])
  }

  /** One step of the reduce: `if (!acc[s]) acc[s] = []; acc[s].push(city)`. */
  function AddCity(g: Grouping, c: CityData): Grouping
  {
    var s := StateKey(c);
    if s in g.groups then Grouping(g.keys, g.groups[s := g.groups[s] + [c]])
    else Grouping(g.keys + [s], g.groups[s := [c]])
  }

  /** The reduce over a list of cities, from the empty dictionary. */
  function GroupByState(cities: seq<CityData>): (g: Grouping)
    ensures WellFormed(g)
  {
    if cities == [] then Grouping([], map[])
    else AddCity(GroupByState(cities[..|cities| - 1]), cities[|cities| - 1])
  }

  /** getCitiesByState: the reduce over getAllCities, one city at a time. */
  method GetCitiesByState(dir: DataDir) returns (g: Grouping)
    ensures g == GroupByState(GetAllCities(dir))
    ensures WellFormed(g)
  {
    var all := GetAllCities(dir);
    var keys: seq<string> := [];
    var acc: map<string, seq<CityData>> := map[];
    for i := 0 to |all|
      invariant Grouping(keys, acc) == GroupByState(all[..i])
    {
      var city := all[i];
      ghost var before := Grouping(keys, acc);
      var s := Upper(city.state);
      if s !in acc {
        keys := keys + [s];
        acc := acc[s := []];
      }
      acc := acc[s := acc[s] + [city]];
      assert Grouping(keys, acc) == AddCity(before, city) by {
        if s !in before.groups {
          assert [] + [city] == [city];
          assert acc == before.groups[s := []][s := [city]];
          assert before.groups[s := []][s := [city]] == before.groups[s := [city]];
        }
      }
      assert all[..i + 1][..i] == all[..i];
    }
    assert all[..|all|] == all;
    g := Grouping(keys, acc);
  }

  /** The cities whose upper-cased state is `code`, in order. */
  function FilterCode(cities: seq<CityData>, code: string): (r: seq<CityData>)
    ensures |r| <= |cities|
    ensures forall c :: c in r ==> c in cities && StateKey(c) == code
  {
    if cities == [] then []
    else
      var last := cities[|cities| - 1];
      FilterCode(cities[..|cities| - 1], code) + (if StateKey(last) == code then [last] else [])
  }

  /** Each group holds exactly the cities of its key, in input order, and the other keys have none. */
  lemma {:induction false} GroupsAreFilters(cities: seq<CityData>, code: string)
    ensures var g := GroupByState(cities);
      (code in g.groups ==> g.groups[code] == FilterCode(cities, code))
      && (code !in g.groups ==> FilterCode(cities, code) == [])
  {
    if cities != [] {
      GroupsAreFilters(cities[..|cities| - 1], code);
    }
  }

  /** Every city sits in the group keyed by its upper-cased state, and in no other. */
  lemma CityInOwnGroup(cities: seq<CityData>, c: CityData, code: string)
    requires c in cities
    ensures var g := GroupByState(cities);
      StateKey(c) in g.groups && c in g.groups[StateKey(c)]
      && (code != StateKey(c) && code in g.groups ==> c !in g.groups[code])
  {
    FilterCodeHas(cities, c);
    GroupsAreFilters(cities, StateKey(c));
    GroupsAreFilters(cities, code);
  }

  lemma {:induction false} FilterCodeHas(cities: seq<CityData>, c: CityData)
    requires c in cities
    ensures c in FilterCode(cities, StateKey(c))
  {
    var last := cities[|cities| - 1];
    assert cities == cities[..|cities| - 1] + [last];
    if c != last {
      FilterCodeHas(cities[..|cities| - 1], c);
    }
  }

  /** The state codes in order of first appearance, each once. */
  function FirstAppearances(codes: seq<string>): seq<string>
  {
    if codes == [] then []
    else
      var prior := FirstAppearances(codes[..|codes| - 1]);
      var last := codes[|codes| - 1];
      if last in prior then prior else prior + [last]
  }

  function StateKeys(cities: seq<CityData>): (codes: seq<string>)
    ensures |codes| == |cities|
    ensures forall i :: 0 <= i < |cities| ==> codes[i] == StateKey(cities[i])
  {
    seq(|cities|, i requires 0 <= i < |cities| => StateKey(cities[i]))
  }

  /** The dictionary's keys come in the order in which their states first appear. */
  lemma {:induction false} KeysInFirstAppearanceOrder(cities: seq<CityData>)
    ensures GroupByState(cities).keys == FirstAppearances(StateKeys(cities))
  {
    if cities != [] {
      var prefix := cities[..|cities| - 1];
      KeysInFirstAppearanceOrder(prefix);
      assert StateKeys(cities)[..|cities| - 1] == StateKeys(prefix);
    }
  }

  /** The sizes of the groups, taken over their keys. */
  function TotalSize(keys: seq<string>, groups: map<string, seq<CityData>>): nat
  {
    if keys == [] then 0
    else
      var last := keys[|keys| - 1];
      TotalSize(keys[..|keys| - 1], groups) + (if last in groups then |groups[last]| else 0)
  }

  lemma {:induction false} TotalSizeOther(keys: seq<string>, groups: map<string, seq<CityData>>, s: string, xs: seq<CityData>)
    requires s !in keys
    ensures TotalSize(keys, groups[s := xs]) == TotalSize(keys, groups)
  {
    if keys != [] {
      TotalSizeOther(keys[..|keys| - 1], groups, s, xs);
    }
  }

  lemma {:induction false} TotalSizeGrow(keys: seq<string>, groups: map<string, seq<CityData>>, s: string, c: CityData)
    requires Distinct(keys) && s in keys && s in groups
    ensures TotalSize(keys, groups[s := groups[s] + [c]]) == TotalSize(keys, groups) + 1
  {
    var prefix := keys[..|keys| - 1];
    var last := keys[|keys| - 1];
    if last == s {
      assert s !in prefix;
      TotalSizeOther(prefix, groups, s, groups[s] + [c]);
    } else {
      assert s in prefix;
      TotalSizeGrow(prefix, groups, s, c);
    }
  }

  /** The group sizes add up to the number of cities. */
  lemma {:induction false} GroupSizesSum(cities: seq<CityData>)
    ensures var g := GroupByState(cities); TotalSize(g.keys, g.groups) == |cities|
  {
    if cities != [] {
      var prefix := cities[..|cities| - 1];
      var c := cities[|cities| - 1];
      var g := GroupByState(prefix);
      GroupSizesSum(prefix);
      var s := StateKey(c);
      if s in g.groups {
        TotalSizeGrow(g.keys, g.groups, s, c);
      } else {
        assert (g.keys + [s])[..|g.keys|] == g.keys;
        TotalSizeOther(g.keys, g.groups, s, [c]);
      }
    }
  }

  // ---------------------------------------------------------------------------
  // getAllStates

  /** `Object.entries(grouped).map(...)`: one summary per key, named after the group's first city. */
  function Summaries(keys: seq<string>, groups: map<string, seq<CityData>>): (r: seq<StateSummary>)
    requires forall k :: k in keys ==> k in groups && groups[k] != []
    ensures |r| == |keys|
    ensures forall i :: 0 <= i < |r| ==>
      r[i] == StateSummary(keys[i], groups[keys[i]][0].stateName, |groups[keys[i]]|)
  {
    seq(|keys|, i requires 0 <= i < |keys| =>
      StateSummary(keys[i], groups[keys[i]][0].stateName, |groups[keys[i]]|))
  }

  /** Ascending by state name: no later summary sorts strictly before an earlier one. */
  predicate SortedByName(r: seq<StateSummary>)
  {
    forall i, j :: 0 <= i < j < |r| ==> !LexLess(r[j].stateName, r[i].stateName)
  }

  /** Insertion before the first summary not sorting before `x` (equal names keep their order). */
  function Insert(x: StateSummary, ys: seq<StateSummary>): seq<StateSummary>
  {
    if ys == [] || !LexLess(ys[0].stateName, x.stateName) then [x] + ys
    else [ys[0]] + Insert(x, ys[1..])
  }

  /** `.sort((a, b) => a.state_name.localeCompare(b.state_name))`, stable, with the plain order. */
  function SortByName(xs: seq<StateSummary>): (r: seq<StateSummary>)
    ensures SortedByName(r)
    ensures multiset(r) == multiset(xs)
  {
    if xs == [] then []
    else
      var rest := SortByName(xs[1..]);
      InsertSorted(xs[0], rest);
      assert xs == [xs[0]] + xs[1..];
      Insert(xs[0], rest)
  }

  lemma {:induction false} InsertSorted(x: StateSummary, ys: seq<StateSummary>)
    requires SortedByName(ys)
    ensures SortedByName(Insert(x, ys))
    ensures multiset(Insert(x, ys)) == multiset(ys) + multiset{x}
  {
    if ys == [] || !LexLess(ys[0].stateName, x.stateName) {
      forall j | 0 <= j < |ys|
        ensures !LexLess(ys[j].stateName, x.stateName)
      {
        if j > 0 {
          if LexLess(ys[j].stateName, x.stateName) {
            LexLessTotal(ys[0].stateName, ys[j].stateName);
            if ys[0].stateName != ys[j].stateName {
              LexLessTransitive(ys[0].stateName, ys[j].stateName, x.stateName);
            }
          }
        }
      }
    } else {
      InsertSorted(x, ys[1..]);
      var rest := Insert(x, ys[1..]);
      assert ys == [ys[0]] + ys[1..];
      forall j | 0 <= j < |rest|
        ensures !LexLess(rest[j].stateName, ys[0].stateName)
      {
        assert rest[j] in multiset(ys[1..]) + multiset{x};
        if rest[j] == x {
          LexLessAsymmetric(ys[0].stateName, x.stateName);
        } else {
          assert rest[j] in ys[1..];
        }
      }
    }
  }

  /**
   * getAllStates: sorted by state name, and exactly one summary per group,
   * holding the group's size and the state name of its first city.
   */
  function GetAllStates(dir: DataDir): (states: seq<StateSummary>)
    ensures var g := GroupByState(GetAllCities(dir));
      SortedByName(states)
      && |states| == |g.keys|
      && (forall s :: s in states ==>
            s.state in g.groups && s.count == |g.groups[s.state]|
            && s.stateName == g.groups[s.state][0].stateName)
      && (forall k :: k in g.groups ==> exists s :: s in states && s.state == k)
  {
    var g := GroupByState(GetAllCities(dir));
    SortedSummaries(g);
    SortByName(Summaries(g.keys, g.groups))
  }

  /** Sorting the summaries of a well-formed grouping keeps one summary per group. */
  lemma SortedSummaries(g: Grouping)
    requires WellFormed(g)
    ensures var r := SortByName(Summaries(g.keys, g.groups));
      |r| == |g.keys|
      && (forall s :: s in r ==>
            s.state in g.groups && s.count == |g.groups[s.state]|
            && s.stateName == g.groups[s.state][0].stateName)
      && (forall k :: k in g.groups ==> exists s :: s in r && s.state == k)
  {
    var xs := Summaries(g.keys, g.groups);
    var r := SortByName(xs);
    assert |r| == |multiset(r)| == |multiset(xs)| == |xs|;
    forall s | s in r
      ensures s.state in g.groups && s.count == |g.groups[s.state]|
        && s.stateName == g.groups[s.state][0].stateName
    {
      assert s in multiset(xs);
      var i :| 0 <= i < |xs| && xs[i] == s;
    }
    forall k | k in g.groups
      ensures exists s :: s in r && s.state == k
    {
      var i :| 0 <= i < |g.keys| && g.keys[i] == k;
      assert xs[i] in multiset(r);
    }
  }

  // ---------------------------------------------------------------------------
  // getCitiesForState

  /** The cities whose upper-cased state equals the upper-cased code, in order. */
  function GetCitiesForState(dir: DataDir, stateShort: string): (cities: seq<CityData>)
    ensures |cities| <= |GetAllCities(dir)|
    ensures forall c :: c in cities ==> c in GetAllCities(dir) && StateKey(c) == Upper(stateShort)
    ensures forall c :: c in GetAllCities(dir) && StateKey(c) == Upper(stateShort) ==> c in cities
  {
    FilterCodeComplete(GetAllCities(dir), Upper(stateShort));
    FilterCode(GetAllCities(dir), Upper(stateShort))
  }

  /** The filter misses no city of the code. */
  lemma FilterCodeComplete(cities: seq<CityData>, code: string)
    ensures forall c :: c in cities && StateKey(c) == code ==> c in FilterCode(cities, code)
  {
    forall c | c in cities && StateKey(c) == code
      ensures c in FilterCode(cities, code)
    {
      FilterCodeHas(cities, c);
    }
  }

  /** The filter agrees with the grouping: the group of the upper-cased code, or nothing. */
  lemma CitiesForStateIsGroup(dir: DataDir, stateShort: string)
    ensures var g := GroupByState(GetAllCities(dir));
      var code := Upper(stateShort);
      GetCitiesForState(dir, stateShort) == if code in g.groups then g.groups[code] else []
  {
    GroupsAreFilters(GetAllCities(dir), Upper(stateShort));
  }

  /** The code's case does not matter. */
  lemma CitiesForStateIgnoresCase(dir: DataDir, stateShort: string)
    ensures GetCitiesForState(dir, stateShort) == GetCitiesForState(dir, Upper(stateShort))
  {
    UpperIdempotent(stateShort);
  }
}
