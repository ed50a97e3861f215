/** A loaded YAML document as `yaml.safe_load` returns it, and Python's
    subscript `node[key]` along a path of mapping keys. */
module YamlDoc {
  import opened Wrappers

  /** A document node: a string, any other scalar (number, boolean, null,
      timestamp), a list, or a mapping with string keys. */
  datatype Node =
    | Str(s: string)
    | Scalar(repr: string)
    | List(items: seq<Node>)
    | Mapping(fields: map<string, Node>)

  /** The exceptions the image rewrite can raise. */
  datatype Error = ParameterNotFound(name: string) | KeyError(key: string) | TypeError

  /** `node[key]`: a missing key raises `KeyError`; subscripting a list, a
      string or another scalar with a string raises `TypeError`. */
  function Index(n: Node, key: string): (r: Result<Node, Error>)
    ensures r.Success? <==> n.Mapping? && key in n.fields
    ensures r.Success? ==> r.value == n.fields[key]
    ensures n.Mapping? && key !in n.fields ==> r == Failure(KeyError(key))
    ensures !n.Mapping? ==> r == Failure(TypeError)
  {
    match n
    case Mapping(fields) => if key in fields then Success(fields[key]) else Failure(KeyError(key))
    case _ => Failure(TypeError)
  }

  /** `node[path[0]][path[1]]...`, failing at the first step that raises. */
  function Lookup(n: Node, path: seq<string>): (r: Result<Node, Error>)
    ensures path == [] ==> r == Success(n)
    ensures path != [] && !n.Mapping? ==> r == Failure(TypeError)
    ensures path != [] && n.Mapping? && path[0] !in n.fields ==> r == Failure(KeyError(path[0]))
    ensures r.Success? && path != [] ==> n.Mapping? && path[0] in n.fields
    decreases path
  {
    if path == [] then Success(n)
    else
      var child :- Index(n, path[0]);
      Lookup(child, path[1..])
  }

  /** `b` is `a` with at most the node at `path` replaced: along the path
      both are mappings with the same keys, and every field off the path is
      the same. */
  ghost predicate AgreeExcept(a: Node, b: Node, path: seq<string>)
    decreases path
  {
    path == [] ||
      (&& a.Mapping? && b.Mapping?
       && path[0] in a.fields
       && a.fields.Keys == b.fields.Keys
       && (forall k :: k in a.fields && k != path[0] ==> b.fields[k] == a.fields[k])
       && AgreeExcept(a.fields[path[0]], b.fields[path[0]], path[1..]))
  }

  /** The document after an in-place assignment to the node at `path`. */
  function Replace(n: Node, path: seq<string>, v: Node): (r: Node)
    requires Lookup(n, path).Success?
    ensures Lookup(r, path) == Success(v)
    ensures AgreeExcept(n, r, path)
    decreases path
  {
    if path == [] then v
    else
      var key := path[0];
      Mapping(n.fields[key := Replace(n.fields[key], path[1..], v)])
  }

  /** Writing back the node already at `path` gives the same document. */
  lemma {:induction false} ReplaceWithCurrent(n: Node, path: seq<string>)
    requires Lookup(n, path).Success?
    ensures Replace(n, path, Lookup(n, path).value) == n
    decreases path
  {
    if path != [] {
      var key := path[0];
      ReplaceWithCurrent(n.fields[key], path[1..]);
      assert n.fields[key := n.fields[key]] == n.fields;
    }
  }
}
