/**
 * The surface of the `fluent-bundle` crate that the loaders use, reduced to
 * what the loaders can observe: parsed resources are lists of messages, a
 * bundle is a message store keyed by id, adding a resource refuses ids that
 * are already present, and formatting is a caller-supplied function.
 * Fluent syntax, terms, selectors and number formatting are not modelled.
 */
module Fluent {
  import opened Base
  import opened LangId

  /** A `FluentValue` argument: text or a number. */
  datatype Value = Text(text: string) | Number(n: int)

  /** Named formatting arguments. */
  type Args = map<string, Value>

  /** A parsed pattern; only the formatter looks inside it. */
  datatype Pattern = Pattern(source: string)

  datatype Attribute = Attribute(id: string, value: Pattern)

  /** A message: an optional value pattern and a list of attributes. */
  datatype Message = Message(id: string, value: Option<Pattern>, attributes: seq<Attribute>)

  /** A parsed `FluentResource`: its messages in file order. */
  datatype Resource = Resource(body: seq<Message>)

  /** A `FluentBundle`: its locales, its messages by id, and the isolation option customisers typically switch off. */
  datatype Bundle = Bundle(locales: seq<Tag>, messages: map<string, Message>, useIsolating: bool)

  datatype FormatError = FormatError(description: string)

  /** What `format_pattern` yields: the text and the errors it pushed. */
  datatype Formatted = Formatted(text: string, errors: seq<FormatError>)

  /** `bundle.format_pattern(pattern, args, &mut errors)`, supplied by the caller of every lookup. */
  type Formatter = (Bundle, Pattern, Option<Args>) -> Formatted

  /** A bundle customiser: `Fn(&mut FluentBundle)` as a function from the bundle before to the bundle after. */
  type Customizer = Bundle -> Bundle

  /** `FluentError::Overriding`: a resource entry whose id the bundle already holds. */
  datatype BundleError = Overriding(id: string)

  /** `FluentBundle::new(&[lang])`: no messages, isolation on. */
  function NewBundle(lang: Tag): (b: Bundle)
    ensures b.locales == [lang] && b.messages == map[]
  {
    Bundle([lang], map[], true)
  }

  /** `bundle.get_message(id)`. */
  function GetMessage(b: Bundle, id: string): (r: Option<Message>)
    ensures r.Some? <==> id in b.messages
    ensures r.Some? ==> r.value == b.messages[id]
  {
    if id in b.messages then Some(b.messages[id]) else None
  }

  /** The ids of a list of messages, in order. */
  function Ids(ms: seq<Message>): (r: seq<string>)
    ensures |r| == |ms|
    ensures forall i :: 0 <= i < |ms| ==> r[i] == ms[i].id
  {
    seq(|ms|, i requires 0 <= i < |ms| => ms[i].id)
  }

  /**
   * The entry loop of `add_resource`: each message is inserted unless its id
   * is already present, in which case an overriding error is recorded and the
   * message is skipped.
   */
  function AddMessages(entries: map<string, Message>, ms: seq<Message>): (map<string, Message>, seq<BundleError>)
    decreases |ms|
  {
    if |ms| == 0 then (entries, [])
    else if ms[0].id in entries then
      var (after, errors) := AddMessages(entries, ms[1..]);
      (after, [Overriding(ms[0].id)] + errors)
    else AddMessages(entries[ms[0].id := ms[0]], ms[1..])
  }

  /** `bundle.add_resource(res)`: the extended bundle, or the overriding errors. */
  function AddResource(b: Bundle, res: Resource): (r: Result<Bundle, seq<BundleError>>)
  {
    var (after, errors) := AddMessages(b.messages, res.body);
    if |errors| == 0 then Ok(b.(messages := after)) else Err(errors)
  }
}
