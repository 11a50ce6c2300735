/**
 * The parsed configuration tree (AConfig) the skin builder reads, and the
 * accessors it uses: `aconfig_find` (first child with a given name),
 * `aconfig_str`, `aconfig_int` and `aconfig_unsigned` (value of that child,
 * or a default when there is none).
 */
module Config {
  import opened Wrappers
  import opened Numbers

  /** A tree node: its name, its scalar value and its ordered children. */
  datatype Node = Node(name: string, value: string, children: seq<Node>)

  /** The index of the first of `nodes` whose name is `key`. */
  function FirstNamed(nodes: seq<Node>, key: string): (r: Option<nat>)
    ensures r.Some? ==> r.value < |nodes| && nodes[r.value].name == key
  {
    if nodes == [] then None
    else if nodes[0].name == key then Some(0)
    else match FirstNamed(nodes[1..], key)
      case None => None
      case Some(i) => Some(i + 1)
  }

  /** `aconfig_find`: the first child of `n` named `key`. */
  function Find(n: Node, key: string): (r: Option<Node>)
    ensures r.Some? ==> r.value.name == key
  {
    match FirstNamed(n.children, key)
    case None => None
    case Some(i) => Some(n.children[i])
  }

  /** The search finds the first node of the list with the name, and nothing when none has it. */
  lemma {:induction false} FirstNamedFirst(nodes: seq<Node>, key: string)
    ensures FirstNamed(nodes, key).None? <==> forall i :: 0 <= i < |nodes| ==> nodes[i].name != key
    ensures FirstNamed(nodes, key).Some? ==> forall i :: 0 <= i < FirstNamed(nodes, key).value ==> nodes[i].name != key
  {
    if nodes != [] && nodes[0].name != key {
      FirstNamedFirst(nodes[1..], key);
      assert forall i :: 1 <= i < |nodes| ==> nodes[i] == nodes[1..][i - 1];
    }
  }

  /** A lookup fails exactly when no child has the name; a found child has it and is the first such child. */
  lemma FindFirst(n: Node, key: string)
    ensures Find(n, key).None? <==> forall i :: 0 <= i < |n.children| ==> n.children[i].name != key
    ensures Find(n, key).Some? ==> exists i :: 0 <= i < |n.children| && Find(n, key).value == n.children[i] && n.children[i].name == key &&
                                              forall k :: 0 <= k < i ==> n.children[k].name != key
  {
    FirstNamedFirst(n.children, key);
  }

  /** `aconfig_str(n, key, NULL)`. */
  function Str(n: Node, key: string): (r: Option<string>)
    ensures r.Some? <==> Find(n, key).Some?
    ensures r.Some? ==> r.value == Find(n, key).value.value
  {
    match Find(n, key)
    case None => None
    case Some(c) => Some(c.value)
  }

  /** `aconfig_int(n, key, def)`: the child's value read by `strtol` with base 0. */
  function Int(n: Node, key: string, def: int): (r: int)
    ensures Find(n, key).None? ==> r == def
    ensures Find(n, key).Some? ==> r == ParseInt(Find(n, key).value.value)
  {
    match Find(n, key)
    case None => def
    case Some(c) => ParseInt(c.value)
  }

  const UINT_RANGE: nat := 0x1_0000_0000

  /** `aconfig_unsigned(n, key, def)`: the parsed value converted to a 32-bit `unsigned`. */
  function Unsigned(n: Node, key: string, def: nat): (r: nat)
    requires def < UINT_RANGE
    ensures r < UINT_RANGE
    ensures Find(n, key).None? ==> r == def
    ensures Find(n, key).Some? ==> r == ParseInt(Find(n, key).value.value) % UINT_RANGE
  {
    match Find(n, key)
    case None => def
    case Some(c) => ParseInt(c.value) % UINT_RANGE
  }
}
