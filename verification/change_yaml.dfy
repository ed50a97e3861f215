/** The container loop of `update_image_from_ssm`
    (argoCD_main/change_yaml.py): read the image name from the parameter
    store, then set `image` on every container under
    `spec.template.spec.containers` that already has that key. */
module ChangeYaml {
  import opened Wrappers
  import opened Ssm
  import opened YamlDoc
  import PyStrings

  const CONTAINERS_PATH := ["spec", "template", "spec", "containers"]
  const IMAGE := "image"

  /** Whether `if 'image' in c: c['image'] = v` goes through for one element
      of the container list: a mapping always does; a string does unless it
      contains the substring `image`; a list does unless it holds the string
      `image` (assignment by string index raises); any other scalar is not
      iterable. */
  predicate Rewritable(c: Node) {
    match c
    case Mapping(_) => true
    case Str(s) => !PyStrings.Contains(s, IMAGE)
    case List(items) => Str(IMAGE) !in items
    case Scalar(_) => false
  }

  /** `after` is `before` with `image` set to `image` if a mapping already had
      that key: same keys, all other fields equal; anything that is not a
      mapping is unchanged. */
  ghost predicate ContainerUpdated(before: Node, after: Node, image: string) {
    match before
    case Mapping(f) =>
      && after.Mapping?
      && after.fields.Keys == f.Keys
      && (forall k :: k in f && k != IMAGE ==> after.fields[k] == f[k])
      && (IMAGE in f ==> after.fields[IMAGE] == Str(image))
    case _ => after == before
  }

  /** One iteration of the container loop. */
  function RewriteContainer(c: Node, image: string): (r: Result<Node, Error>)
    ensures r.Success? <==> Rewritable(c)
    ensures r.Failure? ==> r.error == TypeError
    ensures r.Success? ==> ContainerUpdated(c, r.value, image)
  {
    match c
    case Mapping(f) => Success(if IMAGE in f then Mapping(f[IMAGE := Str(image)]) else c)
    case Str(s) => if PyStrings.Contains(s, IMAGE) then Failure(TypeError) else Success(c)
    case List(items) => if Str(IMAGE) in items then Failure(TypeError) else Success(c)
    case Scalar(_) => Failure(TypeError)
  }

  /** The loop over a container list, in order; the first raising element
      aborts it. Count and order are kept and each element is updated. */
  function RewriteAll(items: seq<Node>, image: string): (r: Result<seq<Node>, Error>)
    ensures r.Success? <==> forall k :: 0 <= k < |items| ==> Rewritable(items[k])
    ensures r.Failure? ==> r.error == TypeError
    ensures r.Success? ==> |r.value| == |items|
    ensures r.Success? ==> forall k :: 0 <= k < |items| ==> ContainerUpdated(items[k], r.value[k], image)
    decreases |items|
  {
    if items == [] then Success([])
    else
      var c :- RewriteContainer(items[0], image);
      var cs :- RewriteAll(items[1..], image);
      assert forall k :: 1 <= k < |items| ==> items[k] == items[1..][k - 1];
      Success([c] + cs)
  }

  /** Whether `for container in containers` runs without raising: a list
      whose elements are all rewritable; a string (each one-character
      element is too short to contain `image`); a mapping none of whose keys
      contains `image`. Other scalars are not iterable. */
  predicate Iterable(containers: Node) {
    match containers
    case List(items) => forall k :: 0 <= k < |items| ==> Rewritable(items[k])
    case Str(_) => true
    case Mapping(f) => forall key :: key in f ==> !PyStrings.Contains(key, IMAGE)
    case Scalar(_) => false
  }

  /** A container list keeps its length and order and each element is
      updated; any other node is left as it was. */
  ghost predicate ContainersUpdated(before: Node, after: Node, image: string) {
    if before.List? then
      && after.List?
      && |after.items| == |before.items|
      && forall k :: 0 <= k < |before.items| ==> ContainerUpdated(before.items[k], after.items[k], image)
    else after == before
  }

  /** The whole `for` loop over the node found at the containers path. */
  function RewriteContainers(containers: Node, image: string): (r: Result<Node, Error>)
    ensures r.Success? <==> Iterable(containers)
    ensures r.Failure? ==> r.error == TypeError
    ensures r.Success? ==> ContainersUpdated(containers, r.value, image)
  {
    match containers
    case List(items) =>
      var updated :- RewriteAll(items, image);
      Success(List(updated))
    case Str(_) => Success(containers)
    case Mapping(f) =>
      if exists key :: key in f && PyStrings.Contains(key, IMAGE) then Failure(TypeError) else Success(containers)
    case Scalar(_) => Failure(TypeError)
  }

  /** `update_image_from_ssm` from the parameter read to the document that is
      dumped: the parameter is read first, so a missing one fails whatever
      the document; then the containers path is followed, failing on the
      first missing key before anything is written; then one image value
      is used for every container. Nothing outside the containers node
      changes. */
  function UpdateImageFromSsm(store: ParamStore, paramName: string, doc: Node): (r: Result<Node, Error>)
    ensures paramName !in store ==> r == Failure(ParameterNotFound(paramName))
    ensures paramName in store && Lookup(doc, CONTAINERS_PATH).Failure? ==>
              r == Failure(Lookup(doc, CONTAINERS_PATH).error)
    ensures r.Failure? && paramName in store && Lookup(doc, CONTAINERS_PATH).Success? ==> r.error == TypeError
    ensures r.Success? <==>
              paramName in store && Lookup(doc, CONTAINERS_PATH).Success? && Iterable(Lookup(doc, CONTAINERS_PATH).value)
    ensures r.Success? ==>
              && AgreeExcept(doc, r.value, CONTAINERS_PATH)
              && Lookup(r.value, CONTAINERS_PATH).Success?
              && ContainersUpdated(Lookup(doc, CONTAINERS_PATH).value, Lookup(r.value, CONTAINERS_PATH).value, store[paramName].value)
  {
    match GetParameter(store, paramName)
    case None => Failure(ParameterNotFound(paramName))
    case Some(param) =>
      var containers :- Lookup(doc, CONTAINERS_PATH);
      var updated :- RewriteContainers(containers, param.value);
      Success(Replace(doc, CONTAINERS_PATH, updated))
  }

  /** A mapping container without `image` comes out exactly as it went in:
      no key is added. */
  lemma NoImageKeyUnchanged(before: Node, after: Node, image: string)
    requires before.Mapping? && IMAGE !in before.fields
    requires ContainerUpdated(before, after, image)
    ensures after == before
  {
  }

  /** Rewriting an already rewritten container changes nothing. */
  lemma RewriteContainerIdempotent(c: Node, image: string)
    requires RewriteContainer(c, image).Success?
    ensures RewriteContainer(RewriteContainer(c, image).value, image) == RewriteContainer(c, image)
  {
    if c.Mapping? && IMAGE in c.fields {
      var f := c.fields[IMAGE := Str(image)];
      assert f[IMAGE := Str(image)] == f;
    }
  }

  lemma {:induction false} RewriteAllIdempotent(items: seq<Node>, image: string)
    requires RewriteAll(items, image).Success?
    ensures RewriteAll(RewriteAll(items, image).value, image) == RewriteAll(items, image)
    decreases |items|
  {
    if items != [] {
      var c := RewriteContainer(items[0], image).value;
      var cs := RewriteAll(items[1..], image).value;
      RewriteContainerIdempotent(items[0], image);
      RewriteAllIdempotent(items[1..], image);
      var out := [c] + cs;
      assert out[0] == c && out[1..] == cs;
    }
  }

  /** Running the update on its own output with the same parameter gives
      the same document again. */
  lemma UpdateIdempotent(store: ParamStore, paramName: string, doc: Node)
    requires UpdateImageFromSsm(store, paramName, doc).Success?
    ensures UpdateImageFromSsm(store, paramName, UpdateImageFromSsm(store, paramName, doc).value)
         == UpdateImageFromSsm(store, paramName, doc)
  {
    var image := store[paramName].value;
    var containers := Lookup(doc, CONTAINERS_PATH).value;
    var updated := RewriteContainers(containers, image).value;
    var out := Replace(doc, CONTAINERS_PATH, updated);
    assert Lookup(out, CONTAINERS_PATH) == Success(updated);
    if containers.List? {
      RewriteAllIdempotent(containers.items, image);
    }
    assert RewriteContainers(updated, image) == Success(updated);
    ReplaceWithCurrent(out, CONTAINERS_PATH);
  }

  /** Following a path is following its first `i` keys, then the rest. */
  lemma {:induction false} LookupSplit(n: Node, path: seq<string>, i: nat)
    requires i <= |path| && Lookup(n, path[..i]).Success?
    ensures Lookup(n, path) == Lookup(Lookup(n, path[..i]).value, path[i..])
    decreases i
  {
    if i > 0 {
      assert path[..i][0] == path[0];
      assert path[..i][1..] == path[1..][..i - 1];
      LookupSplit(n.fields[path[0]], path[1..], i - 1);
      assert path[1..][i - 1..] == path[i..];
    }
  }

  /** If the document lacks any of `spec`, `template`, `spec`, `containers`
      on the way down, the update raises `KeyError` for that key and
      produces no document. */
  lemma MissingKeyFails(store: ParamStore, paramName: string, doc: Node, i: nat)
    requires paramName in store && i < |CONTAINERS_PATH|
    requires Lookup(doc, CONTAINERS_PATH[..i]).Success?
    requires Lookup(doc, CONTAINERS_PATH[..i]).value.Mapping?
    requires CONTAINERS_PATH[i] !in Lookup(doc, CONTAINERS_PATH[..i]).value.fields
    ensures UpdateImageFromSsm(store, paramName, doc) == Failure(KeyError(CONTAINERS_PATH[i]))
  {
    LookupSplit(doc, CONTAINERS_PATH, i);
  }

  /** Every container that had `image` now carries the same parameter value. */
  lemma ImagesAgree(store: ParamStore, paramName: string, doc: Node, j: nat, k: nat)
    requires UpdateImageFromSsm(store, paramName, doc).Success?
    requires Lookup(doc, CONTAINERS_PATH).value.List?
    requires j < |Lookup(doc, CONTAINERS_PATH).value.items| && k < |Lookup(doc, CONTAINERS_PATH).value.items|
    requires var before := Lookup(doc, CONTAINERS_PATH).value.items;
             before[j].Mapping? && IMAGE in before[j].fields && before[k].Mapping? && IMAGE in before[k].fields
    ensures var after := Lookup(UpdateImageFromSsm(store, paramName, doc).value, CONTAINERS_PATH).value.items;
            after[j].fields[IMAGE] == after[k].fields[IMAGE] == Str(store[paramName].value)
  {
  }
}
