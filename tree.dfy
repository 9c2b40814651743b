/** The decoded XML tree that the RSS parser walks.

    An XML document decoded into dictionaries is a nest of mappings (elements
    with children or attributes, attribute names prefixed with `@`), lists
    (repeated sibling elements), strings (text-only elements and attribute
    values) and `None` (empty elements). The parser only ever looks things up
    in it, so all that is modelled here is the shape, Python's truthiness of
    each shape, and the two lookup forms the parser uses. */
module Tree {

  datatype Option<+T> = None | Some(value: T)

  /** `Null` is Python's `None`: the decoder's value for an empty element, and
      also what `d.get(key, None)` yields for an absent key. */
  datatype Node =
    | Null
    | Str(text: string)
    | Seq(elems: seq<Node>)
    | Map(fields: map<string, Node>)

  /** Python's truth value of a decoded value: `None` and empty containers
      are false. */
  predicate Truthy(n: Node) {
    match n
    case Null => false
    case Str(s) => s != ""
    case Seq(xs) => xs != []
    case Map(m) => m != map[]
  }

  /** `d.get(key, None)` on a mapping. */
  function Get(m: map<string, Node>, key: string): (r: Node)
    ensures key in m ==> r == m[key]
    ensures key !in m ==> r == Null
  {
    if key in m then m[key] else Null
  }

  /** `d.get(key, default)` on a mapping: the default is used only when the
      key is absent, never when it is present with a `None` value. */
  function GetOr(m: map<string, Node>, key: string, default: Node): (r: Node)
    ensures key in m ==> r == m[key]
    ensures key !in m ==> r == default
  {
    if key in m then m[key] else default
  }

  /** Python's `s.startswith(prefix)`. */
  predicate StartsWith(s: string, prefix: string) {
    |prefix| <= |s| && s[..|prefix|] == prefix
  }
}
