/**
 * The resolver's test cases replayed against the model: each method builds the same
 * sources and backing maps, performs the same updates and queries in the same order,
 * and returns what the queries answered; its postcondition is what the test asserts.
 */
module Scenarios {
  import opened Wrappers
  import opened Errors
  import opened PropertyLookup
  import opened Conversion
  import opened PlaceholderExamples
  import opened Env

  /** The common fixture: an empty `testProperties` map as the only source of a fresh container. */
  method SetUp() returns (sources: PropertySources, resolver: PropertySourcesPropertyResolver, testProperties: PropertyMap)
    ensures fresh(sources) && fresh(resolver) && fresh(testProperties)
    ensures sources.Valid() && resolver.propertySources == sources
    ensures sources.sources == [PropertySource("testProperties", testProperties)]
    ensures testProperties.entries == map[]
  {
    sources := new PropertySources();
    resolver := new PropertySourcesPropertyResolver(sources);
    testProperties := new PropertyMap();
    var _ := sources.AddFirst(PropertySource("testProperties", testProperties));
  }

  /** containsProperty turns true once the backing map gets the key. */
  method ContainsPropertyScenario() returns (before: bool, after: bool)
    ensures !before && after
  {
    var sources, resolver, testProperties := SetUp();
    before := resolver.ContainsProperty("foo");
    testProperties.Put("foo", Some("bar"));
    after := resolver.ContainsProperty("foo");
    assert Defines(sources.Layers()[0], "foo");
  }

  /** getProperty is absent, then returns the value once the backing map gets the key. */
  method GetPropertyScenario() returns (before: Option<string>, after: Option<string>)
    ensures before == None && after == Some("bar")
  {
    var sources, resolver, testProperties := SetUp();
    before := resolver.GetProperty("foo");
    testProperties.Put("foo", Some("bar"));
    after := resolver.GetProperty("foo");
  }

  /** A source holding one property, as the tests' property-source builder makes it. */
  method SourceWith(name: string, key: string, value: string) returns (source: PropertySource)
    ensures source.name == name && fresh(source.store)
    ensures source.store.entries == map[key := Some(value)]
  {
    var store := new PropertyMap();
    store.Put(key, Some(value));
    source := PropertySource(name, store);
  }

  /** Each addFirst shadows the sources added before it. */
  method SearchOrderScenario() returns (first: Option<string>, second: Option<string>, third: Option<string>)
    ensures first == Some("ps1Value") && second == Some("ps2Value") && third == Some("ps3Value")
  {
    var sources := new PropertySources();
    var resolver := new PropertySourcesPropertyResolver(sources);
    var ps1, ps2, ps3;
    ps1, first := AddFirstAndRead(sources, resolver, "ps1", "ps1Value");
    ps2, second := AddFirstAndRead(sources, resolver, "ps2", "ps2Value");
    assert NamesOf(sources.sources) == ["ps2", "ps1"];
    ps3, third := AddFirstAndRead(sources, resolver, "ps3", "ps3Value");
  }

  /** Adds a new source defining pName in front of the others, then reads pName. */
  method AddFirstAndRead(sources: PropertySources, resolver: PropertySourcesPropertyResolver, name: string, value: string)
    returns (source: PropertySource, answer: Option<string>)
    requires sources.Valid() && resolver.propertySources == sources && name !in NamesOf(sources.sources)
    modifies sources
    ensures sources.Valid() && sources.sources == [source] + old(sources.sources)
    ensures source.name == name && fresh(source.store)
    ensures answer == Some(value)
  {
    source := SourceWith(name, "pName", value);
    var _ := sources.AddFirst(source);
    answer := resolver.GetProperty("pName");
    assert sources.Layers()[0] == source.store.entries;
  }

  /** A key stored with an explicit null resolves as absent. */
  method ExplicitNullScenario() returns (value: Option<string>)
    ensures value == None
  {
    var sources, resolver, testProperties := SetUp();
    var nullableProperties := new PropertyMap();
    var _ := sources.AddLast(PropertySource("nullableProperties", nullableProperties));
    nullableProperties.Put("foo", None);
    value := resolver.GetProperty("foo");
    LookupAbsent(sources.Layers(), "foo");
  }

  /** "bar,baz" converts to the string array ["bar", "baz"]. */
  method StringArrayConversionScenario() returns (r: Result<Option<Converted>, Error>)
    ensures r == Success(Some(TextArray(["bar", "baz"])))
  {
    var sources, resolver, testProperties := SetUp();
    testProperties.Put("foo", Some("bar,baz"));
    TwoItemConversion("bar,baz", "bar", "baz");
    r := resolver.GetPropertyAs("foo", StringArrayType);
  }

  /** A present value asked for as a type without a conversion fails. */
  method NonConvertibleScenario() returns (r: Result<Option<Converted>, Error>)
    ensures r.Failure?
  {
    var sources, resolver, testProperties := SetUp();
    testProperties.Put("foo", Some("bar"));
    r := resolver.GetPropertyAs("foo", UnsupportedType("TestType"));
  }

  /** Changing a key after the first lookup is seen by the next lookup. */
  method ReplaceExistingKeyScenario() returns (first: Option<string>, second: Option<string>)
    ensures first == Some("bar") && second == Some("biz")
  {
    var map_ := new PropertyMap();
    map_.Put("foo", Some("bar"));
    var sources := new PropertySources();
    var _ := sources.AddFirst(PropertySource("testProperties", map_));
    var resolver := new PropertySourcesPropertyResolver(sources);
    first := resolver.GetProperty("foo");
    map_.Put("foo", Some("biz"));
    second := resolver.GetProperty("foo");
  }

  /** Adding a key after the first lookup is seen by the next lookup. */
  method AddNewKeyScenario() returns (first: Option<string>, second: Option<string>)
    ensures first == None && second == Some("42")
  {
    var map_ := new PropertyMap();
    var sources := new PropertySources();
    var _ := sources.AddFirst(PropertySource("testProperties", map_));
    var resolver := new PropertySourcesPropertyResolver(sources);
    first := resolver.GetProperty("foo");
    map_.Put("foo", Some("42"));
    second := resolver.GetProperty("foo");
  }

  /** Replacing the first-added source puts the replacement first; the size stays 2. */
  method ReplacePropertySourceScenario() returns (before: Option<string>, after: Option<string>, size: nat)
    ensures before == Some("localValue") && after == Some("newValue") && size == 2
  {
    var sources, resolver, system := LocalThenSystem();
    before := resolver.GetProperty("foo");
    var replacement := SourceWith("new", "foo", "newValue");
    var _ := sources.Replace("local", replacement);
    assert sources.sources == [sources.sources[0], system];
    after := resolver.GetProperty("foo");
    size := sources.Size();
  }

  /** The container of the replacement test: `local` added last, then `system` added last, both defining foo. */
  method LocalThenSystem() returns (sources: PropertySources, resolver: PropertySourcesPropertyResolver, system: PropertySource)
    ensures fresh(sources) && fresh(resolver) && fresh(system.store)
    ensures sources.Valid() && resolver.propertySources == sources
    ensures |sources.sources| == 2 && sources.sources[1] == system
    ensures NamesOf(sources.sources) == ["local", "system"]
    ensures sources.sources[0].store.entries == map["foo" := Some("localValue")]
    ensures system.store.entries == map["foo" := Some("systemValue")]
    ensures sources.sources[0].store != system.store
  {
    sources := new PropertySources();
    resolver := new PropertySourcesPropertyResolver(sources);
    var local := SourceWith("local", "foo", "localValue");
    var _ := sources.AddLast(local);
    system := SourceWith("system", "foo", "systemValue");
    var _ := sources.AddLast(system);
    assert sources.sources == [local, system];
  }

  /** A present key is returned; an absent one fails. */
  method GetRequiredPropertyScenario() returns (exists_: Result<string, Error>, bogus: Result<string, Error>)
    ensures exists_ == Success("xyz") && bogus.Failure?
  {
    var sources, resolver, testProperties := SetUp();
    testProperties.Put("exists", Some("xyz"));
    exists_ := resolver.GetRequiredProperty("exists");
    bogus := resolver.GetRequiredProperty("bogus");
  }

  /** A present key converts to a string array; an absent one fails. */
  method GetRequiredPropertyAsScenario() returns (exists_: Result<Converted, Error>, bogus: Result<Converted, Error>)
    ensures exists_ == Success(TextArray(["abc", "123"])) && bogus.Failure?
  {
    var sources, resolver, testProperties := SetUp();
    testProperties.Put("exists", Some("abc,123"));
    TwoItemConversion("abc,123", "abc", "123");
    exists_ := resolver.GetRequiredPropertyAs("exists", StringArrayType);
    bogus := resolver.GetRequiredPropertyAs("bogus", StringArrayType);
  }

  /** A source holding two properties. */
  method SourceWith2(name: string, k1: string, v1: string, k2: string, v2: string) returns (source: PropertySource)
    ensures source.name == name && fresh(source.store)
    ensures source.store.entries == map[k1 := Some(v1), k2 := Some(v2)]
  {
    var store := new PropertyMap();
    store.Put(k1, Some(v1));
    store.Put(k2, Some(v2));
    source := PropertySource(name, store);
  }

  /** The non-null table of a map holding two keys. */
  lemma DefinedOfTwo(a: string, b: string, va: string, vb: string)
    requires a != b
    ensures Defined(map[a := Some(va), b := Some(vb)]) == map[a := va, b := vb]
  {
    var d := Defined(map[a := Some(va), b := Some(vb)]);
    assert d.Keys == {a, b};
  }

  /** Flattening puts the first layer over the flattened rest. */
  lemma FlattenCons(layer: Layer, rest: seq<Layer>)
    ensures Flatten([layer] + rest) == Flatten(rest) + Defined(layer)
  {
    assert ([layer] + rest)[1..] == rest;
  }

  /** The lowest source alone flattens to its own two entries. */
  lemma FlattenLowest(c: string, l: string, lc: string, lv: string)
    requires c != l
    ensures Flatten([map[c := Some(lc), l := Some(lv)]]) == map[c := lc, l := lv]
  {
    var low := map[c := Some(lc), l := Some(lv)];
    DefinedOfTwo(c, l, lc, lv);
    FlattenCons(low, []);
    assert [low] + [] == [low];
    assert Flatten([]) + map[c := lc, l := lv] == map[c := lc, l := lv];
  }

  /** Putting a source with the shared key `c` and a new key `k` above sources that flatten to `below`. */
  lemma FlattenAbove(rest: seq<Layer>, below: map<string, string>, c: string, k: string, kc: string, kv: string)
    requires c != k
    requires Flatten(rest) == below
    ensures Flatten([map[c := Some(kc), k := Some(kv)]] + rest) == below[c := kc][k := kv]
  {
    DefinedOfTwo(c, k, kc, kv);
    FlattenCons(map[c := Some(kc), k := Some(kv)], rest);
    OverrideShared(below, c, k, kc, kv);
  }

  /** Three sources sharing key `c`, each with one key of its own, flatten to four entries with the first source's `c`. */
  lemma FlattenThreeSources(c: string, h: string, m: string, l: string,
                            hc: string, mc: string, lc: string, hv: string, mv: string, lv: string)
    requires c != h && c != m && c != l && h != m && h != l && m != l
    ensures Flatten([map[c := Some(hc), h := Some(hv)], map[c := Some(mc), m := Some(mv)], map[c := Some(lc), l := Some(lv)]])
            == map[c := hc, h := hv, m := mv, l := lv]
  {
    var high, mid, low := map[c := Some(hc), h := Some(hv)], map[c := Some(mc), m := Some(mv)], map[c := Some(lc), l := Some(lv)];
    FlattenLowest(c, l, lc, lv);
    var f1 := map[c := lc, l := lv];
    FlattenAbove([low], f1, c, m, mc, mv);
    assert [mid] + [low] == [mid, low];
    var f2 := f1[c := mc][m := mv];
    FlattenAbove([mid, low], f2, c, h, hc, hv);
    assert [high] + [mid, low] == [high, mid, low];
    UpdatesReorder(c, h, m, l, hc, mc, lc, hv, mv, lv);
  }

  /** The updates made by the three levels give the same table as the four entries written in precedence order. */
  lemma UpdatesReorder(c: string, h: string, m: string, l: string,
                       hc: string, mc: string, lc: string, hv: string, mv: string, lv: string)
    requires c != h && c != m && c != l && h != m && h != l && m != l
    ensures map[c := lc, l := lv][c := mc][m := mv][c := hc][h := hv] == map[c := hc, h := hv, m := mv, l := lv]
  {
    var x := map[c := lc, l := lv][c := mc][m := mv][c := hc][h := hv];
    var y := map[c := hc, h := hv, m := mv, l := lv];
    assert x.Keys == {c, h, m, l} == y.Keys;
    assert forall k | k in x.Keys :: x[k] == y[k];
  }

  /** Laying a two-key table over another is updating those two keys. */
  lemma OverrideShared(base: map<string, string>, a: string, b: string, va: string, vb: string)
    ensures base + map[a := va, b := vb] == base[a := va][b := vb]
  {
  }

  /** A table with four distinct keys has four entries. */
  lemma FourEntries(c: string, h: string, m: string, l: string, hc: string, hv: string, mv: string, lv: string)
    requires c != h && c != m && c != l && h != m && h != l && m != l
    ensures |map[c := hc, h := hv, m := mv, l := lv]| == 4
  {
    var t := map[c := hc, h := hv, m := mv, l := lv];
    assert t.Keys == {c, h, m, l};
    assert |{c, h, m, l}| == 4;
  }

  /** asProperties: empty without sources; with three, the union of keys, the highest-precedence value for a shared key. */
  method AsPropertiesScenario() returns (empty: map<string, string>, props: map<string, string>)
    ensures empty == map[]
    ensures props == map["common" := "highCommon", "highKey" := "highVal", "midKey" := "midVal", "lowKey" := "lowVal"]
    ensures |props| == 4
  {
    var sources := new PropertySources();
    var resolver := new PropertySourcesPropertyResolver(sources);
    empty := resolver.AsProperties();
    var high, mid, low := AddThreePrecedenceLevels(sources);
    props := resolver.AsProperties();
    assert sources.Layers() == [high.store.entries, mid.store.entries, low.store.entries];
    FlattenThreeSources("common", "highKey", "midKey", "lowKey",
                        "highCommon", "midCommon", "lowCommon", "highVal", "midVal", "lowVal");
    FourEntries("common", "highKey", "midKey", "lowKey", "highCommon", "highVal", "midVal", "lowVal");
  }

  /** Adds the asProperties test's three sources with addLast, highest precedence first. */
  method AddThreePrecedenceLevels(sources: PropertySources) returns (high: PropertySource, mid: PropertySource, low: PropertySource)
    requires sources.Valid() && sources.sources == []
    modifies sources
    ensures sources.Valid() && sources.sources == [high, mid, low]
    ensures high.store.entries == map["common" := Some("highCommon"), "highKey" := Some("highVal")]
    ensures mid.store.entries == map["common" := Some("midCommon"), "midKey" := Some("midVal")]
    ensures low.store.entries == map["common" := Some("lowCommon"), "lowKey" := Some("lowVal")]
  {
    high := SourceWith2("highestPrecedence", "common", "highCommon", "highKey", "highVal");
    var _ := sources.AddLast(high);
    mid := SourceWith2("middlePrecedence", "common", "midCommon", "midKey", "midVal");
    var _ := sources.AddLast(mid);
    low := SourceWith2("lowestPrecedence", "common", "lowCommon", "lowKey", "lowVal");
    assert NamesOf(sources.sources) == ["highestPrecedence", "middlePrecedence"];
    var _ := sources.AddLast(low);
  }

  /** resolvePlaceholders keeps the unresolvable placeholder; resolveRequiredPlaceholders fails naming it. */
  method ResolvePlaceholdersScenario() returns (resolved: string, required: Result<string, Error>)
    ensures resolved == "pre-bar-${unresolvable}-post"
    ensures required == Failure(UnresolvablePlaceholder("unresolvable"))
    ensures PlaceholderMessage(required.error.name) == "Could not resolve placeholder 'unresolvable'"
  {
    var sources, resolver, testProperties := SetUp();
    testProperties.Put("foo", Some("bar"));
    resolved := resolver.ResolvePlaceholders("pre-${foo}-${unresolvable}-post");
    required := resolver.ResolveRequiredPlaceholders("pre-${foo}-${unresolvable}-post");
    assert sources.Layers() == [map["foo" := Some("bar")]];
    PlaceholderExample(sources.Layers(), "pre-${foo}-${unresolvable}-post");
    UnresolvableMessage(required.error.name);
  }
}
