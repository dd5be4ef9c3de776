/**
 * Precedence-ordered lookup over a snapshot of the property sources: the first
 * source that maps a key to a non-null value wins (getProperty/containsProperty),
 * and the flattened table of asProperties agrees with that lookup key by key.
 */
module PropertyLookup {
  import opened Wrappers

  /** The contents of one source's backing map at one moment; `None` is a stored null. */
  type Layer = map<string, Option<string>>

  /** The layer maps `key` to a non-null value. */
  predicate Defines(layer: Layer, key: string)
  {
    key in layer && layer[key].Some?
  }

  /** The first non-null value for `key`, searching the layers from highest precedence (index 0). */
  function Lookup(layers: seq<Layer>, key: string): Option<string>
  {
    if layers == [] then None
    else if Defines(layers[0], key) then layers[0][key]
    else Lookup(layers[1..], key)
  }

  /** A key is absent exactly when no layer maps it to a non-null value. */
  lemma {:induction false} LookupAbsent(layers: seq<Layer>, key: string)
    ensures Lookup(layers, key) == None <==> forall i :: 0 <= i < |layers| ==> !Defines(layers[i], key)
  {
    if layers != [] {
      LookupAbsent(layers[1..], key);
      if !Defines(layers[0], key) {
        forall i | 0 < i < |layers| ensures layers[i] == layers[1..][i - 1] { }
      }
    }
  }

  /** A found value comes from the first layer that defines the key, and that layer's value is the one found. */
  lemma {:induction false} LookupFirstMatch(layers: seq<Layer>, key: string, v: string)
    ensures Lookup(layers, key) == Some(v) <==>
      exists i :: 0 <= i < |layers| && Defines(layers[i], key) && layers[i][key] == Some(v) &&
                  forall j :: 0 <= j < i ==> !Defines(layers[j], key)
  {
    if layers != [] && !Defines(layers[0], key) {
      var rest := layers[1..];
      LookupFirstMatch(rest, key, v);
      if Lookup(layers, key) == Some(v) {
        var i :| 0 <= i < |rest| && Defines(rest[i], key) && rest[i][key] == Some(v) &&
                 forall j :: 0 <= j < i ==> !Defines(rest[j], key);
        assert layers[i + 1] == rest[i];
        forall j | 0 <= j < i + 1 ensures !Defines(layers[j], key) {
          if j > 0 { assert layers[j] == rest[j - 1]; }
        }
      }
      if exists i :: 0 <= i < |layers| && Defines(layers[i], key) && layers[i][key] == Some(v) &&
                     forall j :: 0 <= j < i ==> !Defines(layers[j], key) {
        var i :| 0 <= i < |layers| && Defines(layers[i], key) && layers[i][key] == Some(v) &&
                 forall j :: 0 <= j < i ==> !Defines(layers[j], key);
        assert i > 0;
        assert rest[i - 1] == layers[i];
        forall j | 0 <= j < i - 1 ensures !Defines(rest[j], key) {
          assert rest[j] == layers[j + 1];
        }
      }
    }
  }

  /** Searching a concatenation searches the first part, then the second. */
  lemma {:induction false} LookupConcat(front: seq<Layer>, back: seq<Layer>, key: string)
    ensures Lookup(front + back, key) ==
            if Lookup(front, key).Some? then Lookup(front, key) else Lookup(back, key)
  {
    if front != [] {
      assert (front + back)[1..] == front[1..] + back;
      LookupConcat(front[1..], back, key);
    } else {
      assert front + back == back;
    }
  }

  /** A source added at the front shadows every existing source for the keys it defines. */
  lemma AddFirstShadows(layers: seq<Layer>, layer: Layer, key: string)
    ensures Lookup([layer] + layers, key) ==
            if Defines(layer, key) then layer[key] else Lookup(layers, key)
  {
    assert ([layer] + layers)[1..] == layers;
  }

  /** A source added at the back is consulted only when no existing source defines the key. */
  lemma AddLastIsLowestPrecedence(layers: seq<Layer>, layer: Layer, key: string)
    ensures Lookup(layers + [layer], key) ==
            if Lookup(layers, key).Some? then Lookup(layers, key)
            else if Defines(layer, key) then layer[key] else None
  {
    LookupConcat(layers, [layer], key);
    assert [layer][1..] == [];
  }

  /** Replacing the source at position i: the sources before it still come first, then the replacement, then the rest. */
  lemma ReplaceKeepsPosition(layers: seq<Layer>, i: nat, layer: Layer, key: string)
    requires i < |layers|
    ensures Lookup(layers[i := layer], key) ==
            if Lookup(layers[..i], key).Some? then Lookup(layers[..i], key)
            else if Defines(layer, key) then layer[key]
            else Lookup(layers[i + 1..], key)
  {
    var replaced := layers[i := layer];
    assert replaced == layers[..i] + ([layer] + layers[i + 1..]);
    LookupConcat(layers[..i], [layer] + layers[i + 1..], key);
    AddFirstShadows(layers[i + 1..], layer, key);
  }

  /** A key stored with an explicit null value resolves exactly as if the key were not stored at all. */
  lemma {:induction false} ExplicitNullIsAbsent(layers: seq<Layer>, i: nat, key: string)
    requires i < |layers| && key in layers[i] && layers[i][key] == None
    ensures Lookup(layers, key) == Lookup(layers[i := layers[i] - {key}], key)
  {
    if i == 0 {
      assert layers[i := layers[i] - {key}][1..] == layers[1..];
    } else {
      ExplicitNullIsAbsent(layers[1..], i - 1, key);
      assert layers[i := layers[i] - {key}][1..] == layers[1..][i - 1 := layers[i] - {key}];
    }
  }

  /**
   * Writing a non-null value for `key` into layer i makes lookup return it, provided no
   * layer before i defines `key`; lookups of every other key are unaffected.
   */
  lemma {:induction false} LookupAfterPut(layers: seq<Layer>, i: nat, key: string, v: string, other: string)
    requires i < |layers|
    requires forall j :: 0 <= j < i ==> !Defines(layers[j], key)
    requires other != key
    ensures Lookup(layers[i := layers[i][key := Some(v)]], key) == Some(v)
    ensures Lookup(layers[i := layers[i][key := Some(v)]], other) == Lookup(layers, other)
  {
    var updated := layers[i := layers[i][key := Some(v)]];
    if i > 0 {
      forall j | 0 <= j < i - 1 ensures !Defines(layers[1..][j], key) {
        assert layers[1..][j] == layers[j + 1];
      }
      LookupAfterPut(layers[1..], i - 1, key, v, other);
      assert updated[1..] == layers[1..][i - 1 := layers[i][key := Some(v)]];
      assert !Defines(layers[0], key);
    } else {
      assert updated[1..] == layers[1..];
    }
  }

  /** The non-null entries of one layer, as a plain table. */
  function Defined(layer: Layer): map<string, string>
  {
    map k | k in layer && layer[k].Some? :: layer[k].value
  }

  /** All layers flattened into one table; a higher-precedence layer overwrites a lower one. */
  function Flatten(layers: seq<Layer>): map<string, string>
  {
    if layers == [] then map[] else Flatten(layers[1..]) + Defined(layers[0])
  }

  /** The flattened table holds exactly the keys that resolve, each with the value lookup finds. */
  lemma {:induction false} FlattenAgreesWithLookup(layers: seq<Layer>, key: string)
    ensures key in Flatten(layers) <==> Lookup(layers, key).Some?
    ensures key in Flatten(layers) ==> Lookup(layers, key) == Some(Flatten(layers)[key])
  {
    if layers != [] {
      FlattenAgreesWithLookup(layers[1..], key);
    }
  }

  /** The flattened table's keys are the union of the keys every layer defines. */
  lemma FlattenKeysAreUnion(layers: seq<Layer>, key: string)
    ensures key in Flatten(layers) <==> exists i :: 0 <= i < |layers| && Defines(layers[i], key)
  {
    FlattenAgreesWithLookup(layers, key);
    LookupAbsent(layers, key);
  }
}
