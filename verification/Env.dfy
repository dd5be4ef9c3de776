/**
 * The mutable side of property resolution: backing maps that callers keep writing
 * to, the ordered container of named sources over them, and the resolver that
 * searches that container live on every query (nothing is cached).
 */
module Env {
  import opened Wrappers
  import opened Errors
  import opened PropertyLookup
  import opened Conversion
  import opened Placeholders

  /** A caller-owned backing map (a `java.util.Map` or `Properties`); a value may be null. */
  class PropertyMap {
    var entries: map<string, Option<string>>

    constructor ()
      ensures entries == map[]
    {
      entries := map[];
    }

    /** Stores `value` under `key`, replacing any previous value. */
    method Put(key: string, value: Option<string>)
      modifies this
      ensures entries == old(entries)[key := value]
    {
      entries := entries[key := value];
    }
  }

  /** A named source that reads through to its backing map. */
  datatype PropertySource = PropertySource(name: string, store: PropertyMap)

  /** The names of the sources, in order. */
  function NamesOf(sources: seq<PropertySource>): (names: seq<string>)
    ensures |names| == |sources|
    ensures forall i :: 0 <= i < |sources| ==> names[i] == sources[i].name
  {
    if sources == [] then [] else [sources[0].name] + NamesOf(sources[1..])
  }

  /** No two sources share a name. */
  predicate UniqueNames(sources: seq<PropertySource>)
  {
    forall i, j :: 0 <= i < j < |sources| ==> sources[i].name != sources[j].name
  }

  /** The backing maps of the sources. */
  function Stores(sources: seq<PropertySource>): set<PropertyMap>
  {
    set i | 0 <= i < |sources| :: sources[i].store
  }

  /** The current contents of each source's backing map, in precedence order. */
  function Snapshot(sources: seq<PropertySource>): (layers: seq<Layer>)
    reads Stores(sources)
    ensures |layers| == |sources|
    ensures forall i :: 0 <= i < |sources| ==> layers[i] == sources[i].store.entries
  {
    if sources == [] then []
    else
      assert Stores(sources[1..]) <= Stores(sources) by {
        forall p | p in Stores(sources[1..]) ensures p in Stores(sources) {
          var i :| 0 <= i < |sources[1..]| && sources[1..][i].store == p;
          assert sources[i + 1].store == p;
        }
      }
      [sources[0].store.entries] + Snapshot(sources[1..])
  }

  /** The ordered, name-unique collection of property sources; index 0 has the highest precedence. */
  class PropertySources {
    var sources: seq<PropertySource>

    ghost predicate Valid()
      reads this
    {
      UniqueNames(sources)
    }

    constructor ()
      ensures Valid() && sources == []
    {
      sources := [];
    }

    /** The live contents of every source, in precedence order. */
    function Layers(): seq<Layer>
      reads this, Stores(sources)
    {
      Snapshot(sources)
    }

    /** The position of the source called `name`, if there is one. */
    method IndexOf(name: string) returns (index: Option<nat>)
      ensures index.None? <==> name !in NamesOf(sources)
      ensures index.Some? ==> index.value < |sources| && sources[index.value].name == name
    {
      var i := 0;
      while i < |sources|
        invariant 0 <= i <= |sources|
        invariant forall j :: 0 <= j < i ==> sources[j].name != name
      {
        if sources[i].name == name {
          return Some(i);
        }
        i := i + 1;
      }
      return None;
    }

    /** Puts `source` at the highest precedence; a name already present is refused and nothing changes. */
    method AddFirst(source: PropertySource) returns (failure: Option<Error>)
      requires Valid()
      modifies this
      ensures Valid()
      ensures source.name in NamesOf(old(sources)) ==> failure == Some(DuplicateSourceName(source.name)) && sources == old(sources)
      ensures source.name !in NamesOf(old(sources)) ==> failure == None && sources == [source] + old(sources)
    {
      var existing := IndexOf(source.name);
      if existing.Some? {
        return Some(DuplicateSourceName(source.name));
      }
      sources := [source] + sources;
      return None;
    }

    /** Puts `source` at the lowest precedence; a name already present is refused and nothing changes. */
    method AddLast(source: PropertySource) returns (failure: Option<Error>)
      requires Valid()
      modifies this
      ensures Valid()
      ensures source.name in NamesOf(old(sources)) ==> failure == Some(DuplicateSourceName(source.name)) && sources == old(sources)
      ensures source.name !in NamesOf(old(sources)) ==> failure == None && sources == old(sources) + [source]
    {
      var existing := IndexOf(source.name);
      if existing.Some? {
        return Some(DuplicateSourceName(source.name));
      }
      sources := sources + [source];
      return None;
    }

    /**
     * Puts `source` where the source called `name` was, so the size stays the same. An
     * absent `name` is refused, and so is a replacement whose name another source has.
     */
    method Replace(name: string, source: PropertySource) returns (failure: Option<Error>)
      requires Valid()
      modifies this
      ensures Valid()
      ensures name !in NamesOf(old(sources)) ==> failure == Some(UnknownSourceName(name)) && sources == old(sources)
      ensures name in NamesOf(old(sources)) && source.name != name && source.name in NamesOf(old(sources)) ==>
                failure == Some(DuplicateSourceName(source.name)) && sources == old(sources)
      ensures name in NamesOf(old(sources)) && (source.name == name || source.name !in NamesOf(old(sources))) ==>
                failure == None && |sources| == |old(sources)| &&
                exists i :: 0 <= i < |old(sources)| && old(sources)[i].name == name && sources == old(sources)[i := source]
    {
      var index := IndexOf(name);
      if index.None? {
        return Some(UnknownSourceName(name));
      }
      if source.name != name {
        var clash := IndexOf(source.name);
        if clash.Some? {
          return Some(DuplicateSourceName(source.name));
        }
      }
      sources := sources[index.value := source];
      return None;
    }

    /** The number of sources. */
    method Size() returns (n: nat)
      ensures n == |sources|
    {
      n := |sources|;
    }
  }

  /** Answers property queries by searching a PropertySources container in precedence order. */
  class PropertySourcesPropertyResolver {
    const propertySources: PropertySources

    constructor (propertySources: PropertySources)
      ensures this.propertySources == propertySources
    {
      this.propertySources := propertySources;
    }

    /** True exactly when some source maps `key` to a non-null value right now. */
    method ContainsProperty(key: string) returns (found: bool)
      ensures found <==> exists i :: 0 <= i < |propertySources.Layers()| && Defines(propertySources.Layers()[i], key)
    {
      var sources := propertySources.sources;
      var i := 0;
      while i < |sources|
        invariant 0 <= i <= |sources|
        invariant forall j :: 0 <= j < i ==> !Defines(propertySources.Layers()[j], key)
      {
        var entries := sources[i].store.entries;
        if key in entries && entries[key].Some? {
          assert Defines(propertySources.Layers()[i], key);
          return true;
        }
        i := i + 1;
      }
      return false;
    }

    /** The first non-null value for `key` in precedence order, read from the backing maps as they are now. */
    method GetProperty(key: string) returns (value: Option<string>)
      ensures value == Lookup(propertySources.Layers(), key)
    {
      var sources := propertySources.sources;
      ghost var layers := propertySources.Layers();
      var i := 0;
      while i < |sources|
        invariant 0 <= i <= |sources|
        invariant Lookup(layers, key) == Lookup(layers[i..], key)
      {
        var entries := sources[i].store.entries;
        if key in entries && entries[key].Some? {
          return entries[key];
        }
        assert layers[i..][1..] == layers[i + 1..];
        i := i + 1;
      }
      return None;
    }

    /**
     * The value for `key` converted to `target`: absent stays absent; a present value
     * that has no conversion to `target` fails.
     */
    method GetPropertyAs(key: string, target: TargetType) returns (r: Result<Option<Converted>, Error>)
      ensures Lookup(propertySources.Layers(), key).None? ==> r == Success(None)
      ensures Lookup(propertySources.Layers(), key).Some? ==>
                var v := Lookup(propertySources.Layers(), key).value;
                (r.Failure? <==> target.UnsupportedType?) &&
                (r.Failure? ==> r.error == ConversionFailed(v, target.typeName)) &&
                (r.Success? ==> r.value.Some? && Convert(v, target) == Success(r.value.value))
    {
      var value := GetProperty(key);
      if value.None? {
        return Success(None);
      }
      var converted := Convert(value.value, target);
      if converted.Failure? {
        return Failure(converted.error);
      }
      return Success(Some(converted.value));
    }

    /** The value for `key`; fails, naming the key, when no source defines it. */
    method GetRequiredProperty(key: string) returns (r: Result<string, Error>)
      ensures r.Failure? <==> Lookup(propertySources.Layers(), key).None?
      ensures r.Failure? ==> r.error == MissingProperty(key)
      ensures r.Success? ==> Lookup(propertySources.Layers(), key) == Some(r.value)
    {
      var value := GetProperty(key);
      if value.None? {
        return Failure(MissingProperty(key));
      }
      return Success(value.value);
    }

    /** The value for `key` converted to `target`; fails when the key is absent or the value has no conversion. */
    method GetRequiredPropertyAs(key: string, target: TargetType) returns (r: Result<Converted, Error>)
      ensures Lookup(propertySources.Layers(), key).None? ==> r == Failure(MissingProperty(key))
      ensures Lookup(propertySources.Layers(), key).Some? ==>
                r == Convert(Lookup(propertySources.Layers(), key).value, target)
    {
      var value := GetRequiredProperty(key);
      if value.Failure? {
        return Failure(value.error);
      }
      return Convert(value.value, target);
    }

    /**
     * All sources flattened into one table: its keys are those some source maps to a
     * non-null value, each carrying the value of the highest-precedence such source.
     */
    method AsProperties() returns (props: map<string, string>)
      ensures props == Flatten(propertySources.Layers())
      ensures forall k :: k in props <==> exists i :: 0 <= i < |propertySources.Layers()| && Defines(propertySources.Layers()[i], k)
      ensures forall k :: k in props ==> Lookup(propertySources.Layers(), k) == Some(props[k])
    {
      var sources := propertySources.sources;
      ghost var layers := propertySources.Layers();
      props := map[];
      var i := |sources|;
      while i > 0
        invariant 0 <= i <= |sources|
        invariant props == Flatten(layers[i..])
      {
        i := i - 1;
        assert layers[i..][1..] == layers[i + 1..];
        props := props + Defined(sources[i].store.entries);
      }
      forall k ensures (k in props <==> exists i :: 0 <= i < |layers| && Defines(layers[i], k))
                    && (k in props ==> Lookup(layers, k) == Some(props[k])) {
        FlattenKeysAreUnion(layers, k);
        FlattenAgreesWithLookup(layers, k);
      }
    }

    /**
     * Replaces each resolvable `${name}` in `text` by its current value; the others
     * stay as written, so text none of whose placeholders resolves comes back unchanged.
     */
    method ResolvePlaceholders(text: string) returns (r: string)
      ensures r == Placeholders.ResolvePlaceholders(propertySources.Layers(), text)
      ensures r == Render(FilledAll(Parse(text), propertySources.Layers()))
      ensures (forall i :: 0 <= i < |Parse(text)| && Parse(text)[i].Placeholder? ==>
                 Lookup(propertySources.Layers(), Parse(text)[i].name).None?) ==> r == text
    {
      var layers := propertySources.Layers();
      r := Placeholders.ResolvePlaceholders(layers, text);
      if forall i :: 0 <= i < |Parse(text)| && Parse(text)[i].Placeholder? ==> Lookup(layers, Parse(text)[i].name).None? {
        UnresolvableTextIsUnchanged(layers, text);
      }
    }

    /**
     * Replaces each `${name}` in `text` by its current value. Succeeds exactly when every
     * placeholder resolves, and then agrees with ResolvePlaceholders; otherwise fails
     * naming the first placeholder without a value.
     */
    method ResolveRequiredPlaceholders(text: string) returns (r: Result<string, Error>)
      ensures r == Placeholders.ResolveRequiredPlaceholders(propertySources.Layers(), text)
      ensures r.Success? <==> AllResolvable(Parse(text), propertySources.Layers())
      ensures r.Success? ==> r.value == Placeholders.ResolvePlaceholders(propertySources.Layers(), text)
      ensures r.Failure? ==>
                exists i :: 0 <= i < |Parse(text)| && Parse(text)[i].Placeholder? &&
                  r.error == UnresolvablePlaceholder(Parse(text)[i].name) &&
                  Lookup(propertySources.Layers(), Parse(text)[i].name).None? &&
                  AllResolvable(Parse(text)[..i], propertySources.Layers())
    {
      var layers := propertySources.Layers();
      r := Placeholders.ResolveRequiredPlaceholders(layers, text);
      RequiredPlaceholdersAgreeWithLenient(layers, text);
    }
  }
}
