/** The failures the property resolver reports to its callers. */
module Errors {

  datatype Error =
    | MissingProperty(key: string)                          // a required key that no source defines
    | ConversionFailed(value: string, targetType: string)   // a value with no conversion to the target type
    | UnresolvablePlaceholder(name: string)                 // a `${name}` with no value in required mode
    | DuplicateSourceName(name: string)                     // a source added under a name already present
    | UnknownSourceName(name: string)                       // a replacement for a name not present

  const PlaceholderMessagePrefix: string := "Could not resolve placeholder '"
  const PlaceholderMessageSuffix: string := "'"

  /** The message of the failure raised for an unresolvable placeholder. */
  function PlaceholderMessage(name: string): (msg: string)
    ensures |msg| == |PlaceholderMessagePrefix| + |name| + |PlaceholderMessageSuffix|
    ensures msg[|PlaceholderMessagePrefix|..|PlaceholderMessagePrefix| + |name|] == name
  {
    PlaceholderMessagePrefix + name + PlaceholderMessageSuffix
  }

  /** The message identifies the placeholder: two different names never give the same message. */
  lemma PlaceholderMessageIdentifiesName(a: string, b: string)
    requires PlaceholderMessage(a) == PlaceholderMessage(b)
    ensures a == b
  {
    var p := |PlaceholderMessagePrefix|;
    assert |a| == |b|;
    calc {
      a;
      PlaceholderMessage(a)[p..p + |a|];
      PlaceholderMessage(b)[p..p + |b|];
      b;
    }
  }

  /** The message the tests expect for the placeholder `unresolvable`. */
  lemma UnresolvableMessage(name: string)
    requires name == "unresolvable"
    ensures PlaceholderMessage(name) == "Could not resolve placeholder 'unresolvable'"
  {
  }
}
