/**
 * `${name}` placeholder substitution. Text is scanned left to right into literal
 * runs and placeholders; each placeholder is replaced by the value lookup finds for
 * its name. Lenient mode leaves an unresolvable placeholder as it was written;
 * required mode fails on the first one, naming it.
 */
module Placeholders {
  import opened Wrappers
  import opened Errors
  import opened PropertyLookup

  const Prefix: string := "${"
  const Suffix: char := '}'

  /** A piece of scanned text. */
  datatype Segment = Literal(text: string) | Placeholder(name: string)

  /** A placeholder prefix `${` starts at index j of t. */
  predicate OpensAt(t: string, j: nat)
  {
    j + 1 < |t| && t[j] == '$' && t[j + 1] == '{'
  }

  /** The first index at or after `from` where a placeholder prefix starts. */
  function FindPrefix(t: string, from: nat): (r: Option<nat>)
    decreases |t| - from
    ensures r.Some? ==> from <= r.value && OpensAt(t, r.value)
    ensures r.Some? ==> forall j :: from <= j < r.value ==> !OpensAt(t, j)
    ensures r.None? ==> forall j :: from <= j ==> !OpensAt(t, j)
  {
    if from + 1 >= |t| then None
    else if OpensAt(t, from) then Some(from)
    else FindPrefix(t, from + 1)
  }

  /** The first index at or after `from` that holds the placeholder suffix `}`. */
  function FindSuffix(t: string, from: nat): (r: Option<nat>)
    decreases |t| - from
    ensures r.Some? ==> from <= r.value < |t| && t[r.value] == Suffix
    ensures r.Some? ==> forall j :: from <= j < r.value ==> t[j] != Suffix
    ensures r.None? ==> forall j :: from <= j < |t| ==> t[j] != Suffix
  {
    if from >= |t| then None
    else if t[from] == Suffix then Some(from)
    else FindSuffix(t, from + 1)
  }

  /** A literal run, or nothing for the empty run. */
  function Lead(s: string): seq<Segment>
  {
    if s == [] then [] else [Literal(s)]
  }

  /**
   * Scans `t` into segments. A placeholder runs from `${` to the next `}`; a `${`
   * with no `}` after it and everything behind it stay literal text.
   */
  function Parse(t: string): seq<Segment>
    decreases |t|
  {
    match FindPrefix(t, 0)
    case None => Lead(t)
    case Some(i) =>
      match FindSuffix(t, i + 2)
      case None => [Literal(t)]
      case Some(j) => Lead(t[..i]) + [Placeholder(t[i + 2..j])] + Parse(t[j + 1..])
  }

  /** How a segment is written in text. */
  function Written(s: Segment): string
  {
    match s
    case Literal(text) => text
    case Placeholder(name) => Prefix + name + [Suffix]
  }

  /** The segments written back out as text. */
  function Render(segs: seq<Segment>): string
  {
    if segs == [] then "" else Written(segs[0]) + Render(segs[1..])
  }

  lemma {:induction false} RenderConcat(a: seq<Segment>, b: seq<Segment>)
    ensures Render(a + b) == Render(a) + Render(b)
  {
    if a == [] {
      assert a + b == b;
    } else {
      assert (a + b)[1..] == a[1..] + b;
      RenderConcat(a[1..], b);
    }
  }

  lemma RenderSingle(seg: Segment)
    ensures Render([seg]) == Written(seg)
  {
    assert [seg][1..] == [];
    assert Written(seg) + "" == Written(seg);
  }

  /** The text up to and including a placeholder's `}`, cut into its parts. */
  lemma TextUpToSuffix(t: string, i: nat, j: nat)
    requires OpensAt(t, i) && i + 2 <= j < |t| && t[j] == Suffix
    ensures t[..j + 1] == t[..i] + (Prefix + t[i + 2..j] + [Suffix])
  {
    var w := t[..i] + (Prefix + t[i + 2..j] + [Suffix]);
    assert |w| == j + 1;
    forall k | 0 <= k <= j ensures w[k] == t[k] {
      if k < i {
      } else if k < i + 2 {
        assert w[k] == Prefix[k - i];
      } else if k < j {
        assert w[k] == t[i + 2..j][k - i - 2];
      }
    }
  }

  /** The text up to and including a placeholder's `}` is its leading literal followed by the placeholder. */
  lemma RenderUpToSuffix(t: string, i: nat, j: nat)
    requires OpensAt(t, i) && i + 2 <= j < |t| && t[j] == Suffix
    ensures Render(Lead(t[..i]) + [Placeholder(t[i + 2..j])]) == t[..j + 1]
  {
    var lead := Lead(t[..i]);
    var p := Placeholder(t[i + 2..j]);
    RenderConcat(lead, [p]);
    if t[..i] != [] {
      RenderSingle(Literal(t[..i]));
    }
    RenderSingle(p);
    TextUpToSuffix(t, i, j);
  }

  /** Scanning loses nothing: writing the segments back out gives the original text. */
  lemma {:induction false} RenderParse(t: string)
    decreases |t|
    ensures Render(Parse(t)) == t
  {
    var open := FindPrefix(t, 0);
    if open.None? {
      assert Parse(t) == Lead(t);
    } else if FindSuffix(t, open.value + 2).None? {
      assert Parse(t) == [Literal(t)];
    } else {
      var i, j := open.value, FindSuffix(t, open.value + 2).value;
      ParseStep(t, i, j);
      RenderParse(t[j + 1..]);
      RenderParseStep(t, i, j, Parse(t), Parse(t[j + 1..]));
    }
  }

  /** One step of RenderParse: the text up to the first placeholder's `}`, then the rest as already rendered. */
  lemma RenderParseStep(t: string, i: nat, j: nat, segs: seq<Segment>, rest: seq<Segment>)
    requires OpensAt(t, i) && i + 2 <= j < |t| && t[j] == Suffix
    requires segs == Lead(t[..i]) + [Placeholder(t[i + 2..j])] + rest
    requires Render(rest) == t[j + 1..]
    ensures Render(segs) == t
  {
    var front := Lead(t[..i]) + [Placeholder(t[i + 2..j])];
    RenderConcat(front, rest);
    RenderUpToSuffix(t, i, j);
    TakeDrop(t, j + 1);
  }

  /** A text is its part before position k followed by its part from k on. */
  lemma TakeDrop(t: string, k: nat)
    requires k <= |t|
    ensures t[..k] + t[k..] == t
  {
  }

  /**
   * The text one segment contributes: a literal itself, a placeholder its value. An
   * unresolvable placeholder is kept as written when `ignoreUnresolvable` holds and
   * is a failure naming it otherwise.
   */
  function ExpandSegment(seg: Segment, layers: seq<Layer>, ignoreUnresolvable: bool): (r: Result<string, Error>)
    ensures r.Failure? <==> !ignoreUnresolvable && seg.Placeholder? && Lookup(layers, seg.name).None?
    ensures r.Failure? ==> r.error == UnresolvablePlaceholder(seg.name)
    ensures r.Success? ==> r.value == Written(Filled(seg, layers))
  {
    match seg
    case Literal(text) => Success(text)
    case Placeholder(name) =>
      match Lookup(layers, name)
      case Some(v) => Success(v)
      case None =>
        if ignoreUnresolvable then Success(Written(seg))
        else Failure(UnresolvablePlaceholder(name))
  }

  /** Replaces every placeholder, left to right; the first failing segment fails the whole text. */
  function Expand(segs: seq<Segment>, layers: seq<Layer>, ignoreUnresolvable: bool): (r: Result<string, Error>)
    ensures ignoreUnresolvable ==> r.Success?
  {
    if segs == [] then Success("")
    else
      var head := ExpandSegment(segs[0], layers, ignoreUnresolvable);
      if head.Failure? then head
      else
        var rest := Expand(segs[1..], layers, ignoreUnresolvable);
        if rest.Failure? then rest else Success(head.value + rest.value)
  }

  /** Expanding a segment in front of others. */
  lemma ExpandCons(seg: Segment, rest: seq<Segment>, layers: seq<Layer>, ignoreUnresolvable: bool)
    ensures Expand([seg] + rest, layers, ignoreUnresolvable) ==
            var head := ExpandSegment(seg, layers, ignoreUnresolvable);
            var tail := Expand(rest, layers, ignoreUnresolvable);
            if head.Failure? then head else if tail.Failure? then tail else Success(head.value + tail.value)
  {
    assert ([seg] + rest)[1..] == rest;
  }

  /** Every placeholder among the segments has a value. */
  predicate AllResolvable(segs: seq<Segment>, layers: seq<Layer>)
  {
    forall i :: 0 <= i < |segs| && segs[i].Placeholder? ==> Lookup(layers, segs[i].name).Some?
  }

  /** Required substitution succeeds exactly when every placeholder resolves, and then agrees with lenient substitution. */
  lemma {:induction false} RequiredSucceedsIffAllResolvable(segs: seq<Segment>, layers: seq<Layer>)
    ensures Expand(segs, layers, false).Success? <==> AllResolvable(segs, layers)
    ensures Expand(segs, layers, false).Success? ==> Expand(segs, layers, false) == Expand(segs, layers, true)
  {
    if segs != [] {
      RequiredSucceedsIffAllResolvable(segs[1..], layers);
      assert forall i :: 0 < i < |segs| ==> segs[i] == segs[1..][i - 1];
      if AllResolvable(segs[1..], layers) && !(segs[0].Placeholder? && Lookup(layers, segs[0].name).None?) {
        forall i | 0 <= i < |segs| && segs[i].Placeholder?
          ensures Lookup(layers, segs[i].name).Some?
        {
          if i > 0 { assert segs[i] == segs[1..][i - 1]; }
        }
      }
    }
  }

  /**
   * A failed required substitution names the first unresolvable placeholder: every
   * placeholder before it resolves.
   */
  lemma {:induction false} RequiredFailureNamesFirstUnresolvable(segs: seq<Segment>, layers: seq<Layer>)
    ensures Expand(segs, layers, false).Failure? ==>
              exists i :: 0 <= i < |segs| && segs[i].Placeholder? &&
                Expand(segs, layers, false).error == UnresolvablePlaceholder(segs[i].name) &&
                Lookup(layers, segs[i].name).None? &&
                AllResolvable(segs[..i], layers)
  {
    if segs == [] || Expand(segs, layers, false).Success? {
    } else if segs[0].Placeholder? && Lookup(layers, segs[0].name).None? {
      assert segs[..0] == [];
    } else {
      var rest := segs[1..];
      RequiredFailureNamesFirstUnresolvable(rest, layers);
      var i :| 0 <= i < |rest| && rest[i].Placeholder? &&
               Expand(rest, layers, false).error == UnresolvablePlaceholder(rest[i].name) &&
               Lookup(layers, rest[i].name).None? &&
               AllResolvable(rest[..i], layers);
      assert segs[i + 1] == rest[i];
      assert segs[..i + 1] == [segs[0]] + rest[..i];
      var upTo := segs[..i + 1];
      forall k | 0 <= k < |upTo| && upTo[k].Placeholder?
        ensures Lookup(layers, upTo[k].name).Some?
      {
        if k > 0 { assert upTo[k] == rest[..i][k - 1]; }
      }
    }
  }

  /** When no placeholder resolves, lenient substitution writes the segments back out unchanged. */
  lemma {:induction false} LenientKeepsUnresolvable(segs: seq<Segment>, layers: seq<Layer>)
    requires forall i :: 0 <= i < |segs| && segs[i].Placeholder? ==> Lookup(layers, segs[i].name).None?
    ensures Expand(segs, layers, true) == Success(Render(segs))
  {
    if segs != [] {
      forall i | 0 <= i < |segs[1..]| && segs[1..][i].Placeholder?
        ensures Lookup(layers, segs[1..][i].name).None?
      {
        assert segs[1..][i] == segs[i + 1];
      }
      LenientKeepsUnresolvable(segs[1..], layers);
    }
  }

  /** resolvePlaceholders: each resolvable placeholder replaced by its value, the others left verbatim. */
  function ResolvePlaceholders(layers: seq<Layer>, text: string): (r: string)
    ensures r == Render(FilledAll(Parse(text), layers))
  {
    LenientFillsResolvable(Parse(text), layers);
    Expand(Parse(text), layers, true).value
  }

  /** resolveRequiredPlaceholders: like resolvePlaceholders, but an unresolvable placeholder is a failure. */
  function ResolveRequiredPlaceholders(layers: seq<Layer>, text: string): (r: Result<string, Error>)
    ensures r.Success? <==> AllResolvable(Parse(text), layers)
    ensures r.Success? ==> r.value == Render(FilledAll(Parse(text), layers))
  {
    RequiredSucceedsIffAllResolvable(Parse(text), layers);
    LenientFillsResolvable(Parse(text), layers);
    Expand(Parse(text), layers, false)
  }

  /**
   * resolveRequiredPlaceholders succeeds exactly when every placeholder in the text
   * resolves, and then returns what resolvePlaceholders returns; otherwise its failure
   * names the first unresolvable placeholder.
   */
  lemma RequiredPlaceholdersAgreeWithLenient(layers: seq<Layer>, text: string)
    ensures ResolveRequiredPlaceholders(layers, text).Success? <==> AllResolvable(Parse(text), layers)
    ensures ResolveRequiredPlaceholders(layers, text).Success? ==>
              ResolveRequiredPlaceholders(layers, text).value == ResolvePlaceholders(layers, text)
    ensures ResolveRequiredPlaceholders(layers, text).Failure? ==>
              (exists i :: 0 <= i < |Parse(text)| && Parse(text)[i].Placeholder? &&
                 ResolveRequiredPlaceholders(layers, text).error == UnresolvablePlaceholder(Parse(text)[i].name) &&
                 Lookup(layers, Parse(text)[i].name).None? && AllResolvable(Parse(text)[..i], layers))
  {
    var segs := Parse(text);
    RequiredSucceedsIffAllResolvable(segs, layers);
    RequiredFailureNamesFirstUnresolvable(segs, layers);
  }

  /** Text none of whose placeholders resolves comes back from resolvePlaceholders unchanged. */
  lemma UnresolvableTextIsUnchanged(layers: seq<Layer>, text: string)
    requires forall i :: 0 <= i < |Parse(text)| && Parse(text)[i].Placeholder? ==>
               Lookup(layers, Parse(text)[i].name).None?
    ensures ResolvePlaceholders(layers, text) == text
  {
    var segs := Parse(text);
    LenientKeepsUnresolvable(segs, layers);
    RenderParse(text);
    assert Expand(segs, layers, true).value == Render(segs);
  }

  /** Text without a `${` passes through both modes unchanged. */
  lemma PlainTextIsUnchanged(layers: seq<Layer>, text: string)
    requires forall j :: 0 <= j ==> !OpensAt(text, j)
    ensures ResolvePlaceholders(layers, text) == text
    ensures ResolveRequiredPlaceholders(layers, text) == Success(text)
  {
    assert FindPrefix(text, 0).None?;
    assert Parse(text) == Lead(text);
    UnresolvableTextIsUnchanged(layers, text);
    RequiredPlaceholdersAgreeWithLenient(layers, text);
  }

  /** FindPrefix returns the first prefix position: any position with no prefix before it is the answer. */
  lemma {:induction false} FindPrefixIs(t: string, from: nat, i: nat)
    requires from <= i && OpensAt(t, i)
    requires forall j :: from <= j < i ==> !OpensAt(t, j)
    ensures FindPrefix(t, from) == Some(i)
    decreases i - from
  {
    if from < i {
      FindPrefixIs(t, from + 1, i);
    }
  }

  /** FindSuffix returns the first `}` position. */
  lemma {:induction false} FindSuffixIs(t: string, from: nat, i: nat)
    requires from <= i < |t| && t[i] == Suffix
    requires forall j :: from <= j < i ==> t[j] != Suffix
    ensures FindSuffix(t, from) == Some(i)
    decreases i - from
  {
    if from < i {
      FindSuffixIs(t, from + 1, i);
    }
  }

  /** No placeholder prefix `${` starts anywhere in `s`. */
  predicate NoOpening(s: string)
  {
    forall j :: 0 <= j < |s| ==> !OpensAt(s, j)
  }

  /** After a literal without `${`, the first placeholder opens right behind the literal. */
  lemma OpensAfterLiteral(a: string, n: string, rest: string, t: string)
    requires NoOpening(a) && t == a + Prefix + n + [Suffix] + rest
    ensures FindPrefix(t, 0) == Some(|a|)
  {
    forall k | 0 <= k < |a| ensures !OpensAt(t, k) {
      assert t[k] == a[k];
      if k + 1 < |a| {
        assert t[k + 1] == a[k + 1];
        assert !OpensAt(a, k);
      } else {
        assert t[k + 1] == '$';
      }
    }
    assert t[|a|] == '$' && t[|a| + 1] == '{';
    FindPrefixIs(t, 0, |a|);
  }

  /** A placeholder name without `}` ends at the `}` written after it. */
  lemma ClosesAfterName(a: string, n: string, rest: string, t: string)
    requires Suffix !in n && t == a + Prefix + n + [Suffix] + rest
    ensures FindSuffix(t, |a| + 2) == Some(|a| + 2 + |n|)
  {
    forall k | |a| + 2 <= k < |a| + 2 + |n| ensures t[k] != Suffix {
      assert t[k] == n[k - |a| - 2];
    }
    assert t[|a| + 2 + |n|] == Suffix;
    FindSuffixIs(t, |a| + 2, |a| + 2 + |n|);
  }

  /** The literal, the name and the rest of such a text, recovered by slicing. */
  lemma PlaceholderSlices(a: string, n: string, rest: string, t: string)
    requires t == a + Prefix + n + [Suffix] + rest
    ensures t[..|a|] == a && t[|a| + 2..|a| + 2 + |n|] == n && t[|a| + 3 + |n|..] == rest
  {
  }

  /** Text without `${` scans as one literal run (nothing at all for the empty text). */
  lemma ParseLiteral(a: string)
    requires NoOpening(a)
    ensures Parse(a) == Lead(a)
  {
    assert FindPrefix(a, 0).None?;
  }

  /**
   * A literal without `${` (possibly empty), then a placeholder whose name has no `}`,
   * then any text: the scan yields that literal, that placeholder, then the scan of the rest.
   */
  lemma ParsePlaceholderStep(a: string, n: string, rest: string, t: string)
    requires NoOpening(a) && Suffix !in n
    requires t == a + Prefix + n + [Suffix] + rest
    ensures Parse(t) == Lead(a) + [Placeholder(n)] + Parse(rest)
  {
    OpensAfterLiteral(a, n, rest, t);
    ClosesAfterName(a, n, rest, t);
    PlaceholderSlices(a, n, rest, t);
    ParseStep(t, |a|, |a| + 2 + |n|);
  }

  /** Segments as a scan produces them: literals non-empty, free of `${` and never adjacent; names free of `}`. */
  predicate WellFormed(segs: seq<Segment>)
  {
    forall i {:trigger segs[i]} :: 0 <= i < |segs| ==>
      (segs[i].Literal? ==> segs[i].text != [] && NoOpening(segs[i].text) && (i + 1 < |segs| ==> segs[i + 1].Placeholder?)) &&
      (segs[i].Placeholder? ==> Suffix !in segs[i].name)
  }

  /** Scanning finds exactly the placeholders that were written: well-formed segments written out scan back to themselves. */
  lemma {:induction false} ParseRender(segs: seq<Segment>)
    requires WellFormed(segs)
    decreases |segs|
    ensures Parse(Render(segs)) == segs
  {
    if segs == [] {
      ParseLiteral("");
    } else {
      WellFormedAt(segs, 0);
      if segs[0].Placeholder? {
        WellFormedSuffix(segs, 1);
        ParseRender(segs[1..]);
        SplitFront(segs, 1);
        ParseRenderStep([], segs[0].name, segs[1..], segs);
      } else if |segs| == 1 {
        RenderSingle(segs[0]);
        ParseLiteral(segs[0].text);
      } else {
        WellFormedAt(segs, 1);
        WellFormedSuffix(segs, 2);
        ParseRender(segs[2..]);
        SplitFront(segs, 2);
        ParseRenderStep(segs[0].text, segs[1].name, segs[2..], segs);
      }
    }
  }

  /** The first one or two segments, then the rest. */
  lemma SplitFront(segs: seq<Segment>, k: nat)
    requires 1 <= k <= 2 && k <= |segs|
    ensures k == 1 ==> segs == [segs[0]] + segs[1..]
    ensures k == 2 ==> segs == [segs[0], segs[1]] + segs[2..]
  {
  }

  /** What well-formedness says about one segment. */
  lemma WellFormedAt(segs: seq<Segment>, i: nat)
    requires WellFormed(segs) && i < |segs|
    ensures segs[i].Literal? ==> segs[i].text != [] && NoOpening(segs[i].text) && (i + 1 < |segs| ==> segs[i + 1].Placeholder?)
    ensures segs[i].Placeholder? ==> Suffix !in segs[i].name
  {
  }

  /** Every suffix of well-formed segments is well-formed. */
  lemma WellFormedSuffix(segs: seq<Segment>, k: nat)
    requires WellFormed(segs) && k <= |segs|
    ensures WellFormed(segs[k..])
  {
    var rest := segs[k..];
    forall i | 0 <= i < |rest|
      ensures (rest[i].Literal? ==> rest[i].text != [] && NoOpening(rest[i].text) && (i + 1 < |rest| ==> rest[i + 1].Placeholder?)) &&
              (rest[i].Placeholder? ==> Suffix !in rest[i].name)
    {
      WellFormedAt(segs, k + i);
      if i + 1 < |rest| {
        assert rest[i + 1] == segs[k + i + 1];
      }
    }
  }

  /** Writing out a leading literal run, a placeholder and further segments. */
  lemma RenderLeadPlaceholder(a: string, n: string, rest: seq<Segment>)
    ensures Render(Lead(a) + [Placeholder(n)] + rest) == a + Prefix + n + [Suffix] + Render(rest)
  {
    var w, r := Written(Placeholder(n)), Render(rest);
    if a == [] {
      RenderLeadEmpty(Placeholder(n), rest);
      AppendEmpty(w + r);
    } else {
      RenderLeadLiteral(a, Placeholder(n), rest);
      Regroup(a, w, r);
    }
    SpellOut(a, n, r);
  }

  /** A placeholder written out between two texts, regrouped. */
  lemma SpellOut(a: string, n: string, r: string)
    ensures a + Written(Placeholder(n)) + r == a + Prefix + n + [Suffix] + r
  {
    Regroup(a, Prefix + n, [Suffix]);
    Regroup(a, Prefix, n);
  }

  lemma RenderLeadEmpty(p: Segment, rest: seq<Segment>)
    ensures Render(Lead([]) + [p] + rest) == Written(p) + Render(rest)
  {
    assert Lead([]) + [p] + rest == [p] + rest;
    RenderCons(p, rest);
  }

  lemma RenderLeadLiteral(a: string, p: Segment, rest: seq<Segment>)
    requires a != []
    ensures Render(Lead(a) + [p] + rest) == a + (Written(p) + Render(rest))
  {
    assert Lead(a) + [p] + rest == [Literal(a)] + ([p] + rest);
    RenderCons(Literal(a), [p] + rest);
    RenderCons(p, rest);
  }

  /** Writing out one segment in front of others. */
  lemma RenderCons(seg: Segment, rest: seq<Segment>)
    ensures Render([seg] + rest) == Written(seg) + Render(rest)
  {
    assert ([seg] + rest)[1..] == rest;
  }

  lemma AppendEmpty(s: string)
    ensures [] + s == s
  {
  }

  lemma Regroup(a: string, w: string, r: string)
    ensures a + (w + r) == a + w + r
  {
  }

  /** One step of ParseRender: a leading literal run and a placeholder in front of segments that already scan back. */
  lemma ParseRenderStep(a: string, n: string, rest: seq<Segment>, segs: seq<Segment>)
    requires NoOpening(a) && Suffix !in n
    requires a == [] ==> segs == [Placeholder(n)] + rest
    requires a != [] ==> segs == [Literal(a), Placeholder(n)] + rest
    requires Parse(Render(rest)) == rest
    ensures Parse(Render(segs)) == segs
  {
    assert segs == Lead(a) + [Placeholder(n)] + rest;
    RenderLeadPlaceholder(a, n, rest);
    ParsePlaceholderStep(a, n, Render(rest), Render(segs));
  }

  /** A segment with a resolvable placeholder replaced by a literal holding its value; anything else as it is. */
  function Filled(seg: Segment, layers: seq<Layer>): Segment
  {
    if seg.Placeholder? && Lookup(layers, seg.name).Some? then Literal(Lookup(layers, seg.name).value) else seg
  }

  /** Every segment filled in. */
  function FilledAll(segs: seq<Segment>, layers: seq<Layer>): seq<Segment>
  {
    if segs == [] then [] else [Filled(segs[0], layers)] + FilledAll(segs[1..], layers)
  }

  /**
   * Lenient substitution replaces each resolvable placeholder by its value and writes
   * every other segment, an unresolvable placeholder included, as it was written.
   */
  lemma {:induction false} LenientFillsResolvable(segs: seq<Segment>, layers: seq<Layer>)
    ensures Expand(segs, layers, true) == Success(Render(FilledAll(segs, layers)))
  {
    if segs != [] {
      LenientFillsResolvable(segs[1..], layers);
      var filled := FilledAll(segs, layers);
      assert filled[1..] == FilledAll(segs[1..], layers);
      assert Written(Filled(segs[0], layers)) == ExpandSegment(segs[0], layers, true).value;
    }
  }

  /** Expanding segments behind a leading literal run. */
  lemma ExpandLead(a: string, segs: seq<Segment>, layers: seq<Layer>, ignoreUnresolvable: bool)
    ensures Expand(Lead(a) + segs, layers, ignoreUnresolvable) ==
            var e := Expand(segs, layers, ignoreUnresolvable);
            if e.Failure? then e else Success(a + e.value)
  {
    var e := Expand(segs, layers, ignoreUnresolvable);
    if a == [] {
      assert Lead(a) + segs == segs;
      assert e.Success? ==> a + e.value == e.value;
    } else {
      ExpandCons(Literal(a), segs, layers, ignoreUnresolvable);
    }
  }

  /** The scan of a literal, a placeholder and the rest, as expand sees it. */
  lemma ExpandPlaceholderStep(a: string, n: string, rest: string, t: string, ignoreUnresolvable: bool, layers: seq<Layer>)
    requires NoOpening(a) && Suffix !in n
    requires t == a + Prefix + n + [Suffix] + rest
    ensures Expand(Parse(t), layers, ignoreUnresolvable) ==
            var head := ExpandSegment(Placeholder(n), layers, ignoreUnresolvable);
            var tail := Expand(Parse(rest), layers, ignoreUnresolvable);
            if head.Failure? then head else if tail.Failure? then tail else Success(a + (head.value + tail.value))
  {
    ParsePlaceholderStep(a, n, rest, t);
    ExpandLeadPlaceholder(a, n, Parse(rest), layers, ignoreUnresolvable);
  }

  /** Expanding a leading literal run, a placeholder and further segments. */
  lemma ExpandLeadPlaceholder(a: string, n: string, segs: seq<Segment>, layers: seq<Layer>, ignoreUnresolvable: bool)
    ensures Expand(Lead(a) + [Placeholder(n)] + segs, layers, ignoreUnresolvable) ==
            var head := ExpandSegment(Placeholder(n), layers, ignoreUnresolvable);
            var tail := Expand(segs, layers, ignoreUnresolvable);
            if head.Failure? then head else if tail.Failure? then tail else Success(a + (head.value + tail.value))
  {
    assert Lead(a) + [Placeholder(n)] + segs == Lead(a) + ([Placeholder(n)] + segs);
    ExpandLead(a, [Placeholder(n)] + segs, layers, ignoreUnresolvable);
    ExpandCons(Placeholder(n), segs, layers, ignoreUnresolvable);
  }

  /**
   * resolvePlaceholders, one placeholder at a time: the literal in front stays, the
   * placeholder becomes its value when it resolves and stays as written when it does
   * not, and the rest of the text is resolved the same way.
   */
  lemma ResolveStep(layers: seq<Layer>, a: string, n: string, rest: string)
    requires NoOpening(a) && Suffix !in n
    ensures ResolvePlaceholders(layers, a + Prefix + n + [Suffix] + rest) ==
            a + ((if Lookup(layers, n).Some? then Lookup(layers, n).value else Prefix + n + [Suffix]) +
                 ResolvePlaceholders(layers, rest))
  {
    ExpandPlaceholderStep(a, n, rest, a + Prefix + n + [Suffix] + rest, true, layers);
  }

  /**
   * resolveRequiredPlaceholders, one placeholder at a time: a placeholder without a value
   * fails naming it; otherwise it becomes its value and the rest of the text must resolve too.
   */
  lemma ResolveRequiredStep(layers: seq<Layer>, a: string, n: string, rest: string)
    requires NoOpening(a) && Suffix !in n
    ensures ResolveRequiredPlaceholders(layers, a + Prefix + n + [Suffix] + rest) ==
            if Lookup(layers, n).None? then Failure(UnresolvablePlaceholder(n))
            else if ResolveRequiredPlaceholders(layers, rest).Failure? then ResolveRequiredPlaceholders(layers, rest)
            else Success(a + (Lookup(layers, n).value + ResolveRequiredPlaceholders(layers, rest).value))
  {
    ExpandPlaceholderStep(a, n, rest, a + Prefix + n + [Suffix] + rest, false, layers);
  }

  /** One scanning step: the literal before the first placeholder, the placeholder, then the rest of the text. */
  lemma ParseStep(t: string, i: nat, j: nat)
    requires FindPrefix(t, 0) == Some(i) && FindSuffix(t, i + 2) == Some(j)
    ensures Parse(t) == Lead(t[..i]) + [Placeholder(t[i + 2..j])] + Parse(t[j + 1..])
  {
  }

  /** Expanding a segment that succeeds in front of others that succeed. */
  lemma ExpandStep(seg: Segment, rest: seq<Segment>, layers: seq<Layer>, ignoreUnresolvable: bool, head: string, tail: string)
    requires ExpandSegment(seg, layers, ignoreUnresolvable) == Success(head)
    requires Expand(rest, layers, ignoreUnresolvable) == Success(tail)
    ensures Expand([seg] + rest, layers, ignoreUnresolvable) == Success(head + tail)
  {
    ExpandCons(seg, rest, layers, ignoreUnresolvable);
  }

}
