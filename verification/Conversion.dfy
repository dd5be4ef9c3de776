/**
 * Typed retrieval: a resolved string value is converted to the requested target
 * type. Only a closed set of targets is modelled: the string itself, an array of
 * strings obtained by splitting on commas, and every other type, which has no
 * conversion and fails.
 */
module Conversion {
  import opened Wrappers
  import opened Errors

  const Comma: char := ','

  /** The target type a caller asks for (`String.class`, `String[].class`, anything else). */
  datatype TargetType = StringType | StringArrayType | UnsupportedType(typeName: string)

  /** A converted value. */
  datatype Converted = Text(text: string) | TextArray(items: seq<string>)

  /** The comma-separated items of `s`, in order; `s` without a comma is one item. */
  function Split(s: string): (items: seq<string>)
    ensures |items| >= 1
    ensures forall i :: 0 <= i < |items| ==> Comma !in items[i]
  {
    if s == [] then [""]
    else
      var rest := Split(s[1..]);
      if s[0] == Comma then [""] + rest
      else [[s[0]] + rest[0]] + rest[1..]
  }

  /** The items joined with a comma between each two neighbours. */
  function Join(items: seq<string>): string
    requires |items| >= 1
  {
    if |items| == 1 then items[0] else items[0] + [Comma] + Join(items[1..])
  }

  /** Joining the items of a split gives back the original string: splitting loses nothing. */
  lemma {:induction false} JoinSplit(s: string)
    ensures Join(Split(s)) == s
  {
    if s != [] {
      var rest := Split(s[1..]);
      JoinSplit(s[1..]);
      if s[0] == Comma {
        assert ([""] + rest)[1..] == rest;
      } else {
        var items := [[s[0]] + rest[0]] + rest[1..];
        if |rest| > 1 {
          assert items[1..] == rest[1..];
        }
      }
    }
  }

  /** Splitting a string that starts with a comma-free prefix extends the first item by that prefix. */
  lemma {:induction false} SplitPrefix(p: string, s: string)
    requires Comma !in p
    ensures Split(p + s) == [p + Split(s)[0]] + Split(s)[1..]
  {
    if p != [] {
      SplitPrefix(p[1..], s);
      assert (p + s)[1..] == p[1..] + s;
      assert [p[0]] + (p[1..] + Split(s)[0]) == p + Split(s)[0];
    } else {
      assert p + s == s;
      assert p + Split(s)[0] == Split(s)[0];
      assert Split(s) == [Split(s)[0]] + Split(s)[1..];
    }
  }

  /** Splitting joined comma-free items gives back exactly those items. */
  lemma {:induction false} SplitJoin(items: seq<string>)
    requires |items| >= 1
    requires forall i :: 0 <= i < |items| ==> Comma !in items[i]
    ensures Split(Join(items)) == items
  {
    if |items| == 1 {
      SplitPrefix(items[0], []);
      assert items[0] + [] == items[0];
    } else {
      var tail := Join(items[1..]);
      SplitJoin(items[1..]);
      SplitPrefix(items[0], [Comma] + tail);
      assert items[0] + [Comma] + tail == items[0] + ([Comma] + tail);
      assert ([Comma] + tail)[1..] == tail;
      assert Split([Comma] + tail) == [""] + items[1..];
      assert items[0] + "" == items[0];
      assert ([""] + items[1..])[1..] == items[1..];
      assert items == [items[0]] + items[1..];
    }
  }

  /**
   * Converts a resolved value to `target`. A string array holds the comma-separated
   * items of the value; a type without a conversion fails, naming value and type.
   */
  function Convert(value: string, target: TargetType): (r: Result<Converted, Error>)
    ensures r.Failure? <==> target.UnsupportedType?
    ensures r.Failure? ==> r.error == ConversionFailed(value, target.typeName)
    ensures target == StringType ==> r == Success(Text(value))
    ensures target == StringArrayType ==>
              r.Success? && r.value.TextArray? && |r.value.items| >= 1 && Join(r.value.items) == value &&
              forall i :: 0 <= i < |r.value.items| ==> Comma !in r.value.items[i]
  {
    match target
    case StringType => Success(Text(value))
    case StringArrayType => JoinSplit(value); Success(TextArray(Split(value)))
    case UnsupportedType(name) => Failure(ConversionFailed(value, name))
  }

  /** The array conversion is determined by its contract: any comma-free items that join to the value are the result. */
  lemma ArrayConversionIsUnique(value: string, items: seq<string>)
    requires |items| >= 1 && Join(items) == value
    requires forall i :: 0 <= i < |items| ==> Comma !in items[i]
    ensures Convert(value, StringArrayType) == Success(TextArray(items))
  {
    SplitJoin(items);
  }

  /** A value made of two comma-free items around one comma converts to exactly those two items. */
  lemma TwoItemConversion(value: string, first: string, second: string)
    requires Comma !in first && Comma !in second
    requires value == first + [Comma] + second
    ensures Convert(value, StringArrayType) == Success(TextArray([first, second]))
  {
    assert [first, second][1..] == [second];
    assert Join([first, second]) == value;
    ArrayConversionIsUnique(value, [first, second]);
  }
}
