/**
 * The placeholder example the resolver's tests check, worked through the model:
 * with foo=bar, "pre-${foo}-${unresolvable}-post" resolves leniently to
 * "pre-bar-${unresolvable}-post", and in required mode fails naming `unresolvable`.
 */
module PlaceholderExamples {
  import opened Wrappers
  import opened Errors
  import opened PropertyLookup
  import opened Placeholders

  /** Text without a `$` is one literal run. */
  lemma ParsePlain(c: string)
    requires c != [] && '$' !in c
    ensures Parse(c) == [Literal(c)]
  {
    assert FindPrefix(c, 0).None?;
  }

  /** Text without a `$` has no `${` in it. */
  lemma NoDollarNoOpening(a: string)
    requires '$' !in a
    ensures NoOpening(a)
  {
  }

  /** A non-empty literal without `$`, then a placeholder whose name has no `}`, then the rest of the text. */
  lemma ParseOne(a: string, n: string, rest: string, t: string)
    requires a != [] && '$' !in a && Suffix !in n
    requires t == a + Prefix + n + [Suffix] + rest
    ensures Parse(t) == [Literal(a), Placeholder(n)] + Parse(rest)
  {
    NoDollarNoOpening(a);
    ParsePlaceholderStep(a, n, rest, t);
  }

  /** Literal, placeholder, literal, scanned back into those three segments. */
  lemma ParseOnePlaceholder(b: string, u: string, c: string, r: string)
    requires b != [] && c != [] && '$' !in b && '$' !in c && Suffix !in u
    requires r == b + Prefix + u + [Suffix] + c
    ensures Parse(r) == [Literal(b), Placeholder(u), Literal(c)]
  {
    ParsePlain(c);
    ParseOne(b, u, c, r);
  }

  /** Literal, placeholder, literal, placeholder, literal, scanned back into those five segments. */
  lemma ParseTwoPlaceholders(a: string, n: string, b: string, u: string, c: string, t: string)
    requires a != [] && b != [] && c != []
    requires '$' !in a && '$' !in b && '$' !in c && Suffix !in n && Suffix !in u
    requires t == a + Prefix + n + [Suffix] + (b + Prefix + u + [Suffix] + c)
    ensures Parse(t) == [Literal(a), Placeholder(n), Literal(b), Placeholder(u), Literal(c)]
  {
    var r := b + Prefix + u + [Suffix] + c;
    ParseOnePlaceholder(b, u, c, r);
    ParseOne(a, n, r, t);
  }

  /** The tests' example text, cut into its literal runs and placeholder names. */
  lemma ExampleTextParts(t: string)
    requires t == "pre-${foo}-${unresolvable}-post"
    ensures t == "pre-" + Prefix + "foo" + [Suffix] + ("-" + Prefix + "unresolvable" + [Suffix] + "-post")
  {
  }

  /** The tests' example, scanned: "pre-${foo}-${unresolvable}-post". */
  lemma ParseExample(t: string)
    requires t == "pre-${foo}-${unresolvable}-post"
    ensures Parse(t) ==
            [Literal("pre-"), Placeholder("foo"), Literal("-"), Placeholder("unresolvable"), Literal("-post")]
  {
    ExampleTextParts(t);
    ParseTwoPlaceholders("pre-", "foo", "-", "unresolvable", "-post", t);
  }

  /**
   * The shape of the tests' example: literal, resolvable placeholder, literal,
   * unresolvable placeholder, literal.
   */
  lemma ExpandResolvedThenUnresolved(layers: seq<Layer>, a: string, n: string, v: string, b: string, u: string, c: string)
    requires Lookup(layers, n) == Some(v) && Lookup(layers, u) == None
    ensures Expand([Literal(a), Placeholder(n), Literal(b), Placeholder(u), Literal(c)], layers, true)
            == Success(a + (v + (b + (Written(Placeholder(u)) + c))))
    ensures Expand([Literal(a), Placeholder(n), Literal(b), Placeholder(u), Literal(c)], layers, false)
            == Failure(UnresolvablePlaceholder(u))
  {
    var s4 := [Literal(c)];
    var s3 := [Placeholder(u)] + s4;
    var s2 := [Literal(b)] + s3;
    var s1 := [Placeholder(n)] + s2;
    assert [Literal(c)] + [] == s4;
    ExpandStep(Literal(c), [], layers, true, c, "");
    assert c + "" == c;
    ExpandStep(Placeholder(u), s4, layers, true, Written(Placeholder(u)), c);
    ExpandStep(Literal(b), s3, layers, true, b, Written(Placeholder(u)) + c);
    ExpandStep(Placeholder(n), s2, layers, true, v, b + (Written(Placeholder(u)) + c));
    ExpandStep(Literal(a), s1, layers, true, a, v + (b + (Written(Placeholder(u)) + c)));
    ExpandCons(Placeholder(u), s4, layers, false);
    ExpandCons(Literal(b), s3, layers, false);
    ExpandCons(Placeholder(n), s2, layers, false);
    ExpandCons(Literal(a), s1, layers, false);
    assert [Literal(a)] + s1 == [Literal(a), Placeholder(n), Literal(b), Placeholder(u), Literal(c)];
  }

  /** The lenient expansion of the example spells out the expected text. */
  lemma ExampleText(w: string)
    requires w == Written(Placeholder("unresolvable"))
    ensures "pre-" + ("bar" + ("-" + (w + "-post"))) == "pre-bar-${unresolvable}-post"
  {
    assert w == "${" + "unresolvable" + "}";
  }

  /** The tests' example: with foo=bar, "pre-${foo}-${unresolvable}-post". */
  lemma PlaceholderExample(layers: seq<Layer>, text: string)
    requires layers == [map["foo" := Some("bar")]]
    requires text == "pre-${foo}-${unresolvable}-post"
    ensures ResolvePlaceholders(layers, text) == "pre-bar-${unresolvable}-post"
    ensures ResolveRequiredPlaceholders(layers, text) == Failure(UnresolvablePlaceholder("unresolvable"))
  {
    assert Lookup(layers, "foo") == Some("bar");
    assert Lookup(layers, "unresolvable") == None;
    ParseExample(text);
    ExpandResolvedThenUnresolved(layers, "pre-", "foo", "bar", "-", "unresolvable", "-post");
    ExampleText(Written(Placeholder("unresolvable")));
  }
}
