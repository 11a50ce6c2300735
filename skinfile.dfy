/**
 * The skin file: `skin_file_load_from_v1`, `skin_file_load_from_v2`,
 * `skin_file_create_from_aconfig` and `skin_file_free` of
 * android/skin/file.c.
 *
 * What a configuration loads to is stated by functions over the lists of
 * part and layout nodes (`BuiltNodes`, `AnchoringNodes`, `LoadedImages`,
 * `Requests`, ...), each defined one node from the end so that a loop turn
 * adds one term. The longer proofs start with `hide *` and take the facts
 * they need from the small lemmas that unfold those definitions one step
 * (`NodesLast`, `PartsFromLast`, `AnchoringLast`, ...): left visible, the
 * definitions of parts and displays unfold down to the configuration
 * accessors in every proof obligation.
 */
module SkinFiles {
  import opened Wrappers
  import opened Config
  import opened Geometry
  import opened Collaborators
  import opened Parts
  import opened Layouts

  /** SKIN_ROTATION_270: rotations count quarter turns. */
  const ROTATION_270: int := 3

  /** The fixed colour of the two synthesised v1 layouts. */
  const V1_COLOR: nat := 0xff80_8080

  /** SkinFile: the version and the part and layout lists, both kept in source order. */
  class SkinFile {
    var version: int
    var parts: seq<Part>
    var layouts: seq<Layout>

    /** `ANEW0(file)`. */
    constructor ()
      ensures version == 0 && parts == [] && layouts == []
    {
      version, parts, layouts := 0, [], [];
    }
  }

  /** The objects of a list are pairwise distinct. */
  predicate Distinct<T(==)>(s: seq<T>)
  {
    forall i, j :: 0 <= i < j < |s| ==> s[i] != s[j]
  }

  // ---------------------------------------------------------------- what a list of parts or layouts holds

  /** The image references a list of parts holds. */
  ghost function PartImages(parts: seq<Part>): multiset<Image>
    reads (set p | p in parts)`background, (set p | p in parts)`buttons
  {
    if parts == [] then multiset{} else parts[0].Images() + PartImages(parts[1..])
  }

  lemma PartImagesCons(parts: seq<Part>)
    requires parts != []
    ensures PartImages(parts) == parts[0].Images() + PartImages(parts[1..])
  {
  }

  lemma PartImagesNil(parts: seq<Part>)
    requires parts == []
    ensures PartImages(parts) == multiset{}
  {
  }

  lemma PartImagesOne(p: Part)
    ensures PartImages([p]) == p.Images()
  {
    hide *;
    PartImagesCons([p]);
    PartImagesNil([p][1..]);
    UnionNil(p.Images());
  }

  lemma {:induction false} PartImagesSnoc(parts: seq<Part>, p: Part)
    ensures PartImages(parts + [p]) == PartImages(parts) + p.Images()
  {
    hide *;
    if parts != [] {
      PartImagesCons(parts + [p]);
      PartImagesCons(parts);
      assert (parts + [p])[0] == parts[0];
      assert (parts + [p])[1..] == parts[1..] + [p];
      PartImagesSnoc(parts[1..], p);
      UnionAssoc(parts[0].Images(), PartImages(parts[1..]), p.Images());
    } else {
      assert parts + [p] == [p];
      PartImagesNil(parts);
      PartImagesOne(p);
    }
  }

  /** The image references a list of layouts holds. */
  ghost function LayoutImages(layouts: seq<Layout>): multiset<Image>
    reads (set l | l in layouts)`onionImage
  {
    if layouts == [] then multiset{} else layouts[0].Images() + LayoutImages(layouts[1..])
  }

  lemma LayoutImagesCons(layouts: seq<Layout>)
    requires layouts != []
    ensures LayoutImages(layouts) == layouts[0].Images() + LayoutImages(layouts[1..])
  {
  }

  lemma LayoutImagesNil(layouts: seq<Layout>)
    requires layouts == []
    ensures LayoutImages(layouts) == multiset{}
  {
  }

  lemma {:induction false} LayoutImagesSnoc(layouts: seq<Layout>, l: Layout)
    ensures LayoutImages(layouts + [l]) == LayoutImages(layouts) + l.Images()
  {
    if layouts != [] {
      assert (layouts + [l])[1..] == layouts[1..] + [l];
      LayoutImagesSnoc(layouts[1..], l);
    }
  }

  /** The image references the part built from `node` holds (buttons taken from `container`). */
  function NodeImages(node: Node, container: string, env: Env): multiset<Image>
    requires AllCharmapReady(ButtonNodes(node, container), env)
  {
    BackgroundImages(BackgroundOf(node, env)) + ButtonImages(Reverse(ButtonsOf(ButtonNodes(node, container), env)))
  }

  /** A built part holds the images its node names. */
  lemma NodeImagesOfPart(part: Part, node: Node, container: string, env: Env)
    requires AllCharmapReady(ButtonNodes(node, container), env) && BuiltFrom(part, node, container, env)
    ensures part.Images() == NodeImages(node, container, env)
  {
  }

  /** The image references the v2 part loop leaves held: those of the parts that build. */
  function LoadedImages(nodes: seq<Node>, env: Env): multiset<Image>
    requires PartNodesReady(nodes, env)
  {
    if nodes == [] then multiset{}
    else
      var last := nodes[|nodes| - 1];
      LoadedImages(nodes[..|nodes| - 1], env) + if PartFails(last, "buttons", env) then multiset{} else NodeImages(last, "buttons", env)
  }

  /** The image reference the layout built from `node` holds: its onion image, when found. */
  function LayoutNodeImages(node: Node, env: Env): multiset<Image>
  {
    match Find(node, "onion")
    case None => multiset{}
    case Some(onion) => if OnionImage(onion, env).Some? then multiset{OnionImage(onion, env).value} else multiset{}
  }

  /** A built layout holds the onion image its node names. */
  lemma NodeImagesOfLayout(l: Layout, node: Node, parts: seq<Part>, env: Env)
    requires LayoutBuiltFrom(l, node, parts, env)
    ensures l.Images() == LayoutNodeImages(node, env)
  {
  }

  /** The image references the v2 layout loop leaves held: those of the layouts that build. */
  function AnchoredImages(nodes: seq<Node>, parts: seq<Part>, env: Env): multiset<Image>
  {
    if nodes == [] then multiset{}
    else
      var last := nodes[|nodes| - 1];
      AnchoredImages(nodes[..|nodes| - 1], parts, env) + if LocationsOf(last.children, parts) != [] then LayoutNodeImages(last, env) else multiset{}
  }

  /** The `free_framebuffer` calls tearing a list of parts down makes, in list order. */
  ghost function PartTeardowns(parts: seq<Part>): seq<Option<Framebuffer>>
    reads (set p | p in parts)`display
  {
    if parts == [] then [] else PartTeardowns(parts[..|parts| - 1]) + DisplayTeardown(parts[|parts| - 1].display)
  }

  lemma PartTeardownsNil(parts: seq<Part>)
    requires parts == []
    ensures PartTeardowns(parts) == []
  {
  }

  lemma PartTeardownsLast(parts: seq<Part>)
    requires parts != []
    ensures PartTeardowns(parts) == PartTeardowns(parts[..|parts| - 1]) + DisplayTeardown(parts[|parts| - 1].display)
  {
  }

  /** The names of a list of entities, in list order, each given by `name`. */
  function Names<T>(xs: seq<T>, name: T -> string): (names: seq<string>)
    ensures |names| == |xs| && forall i :: 0 <= i < |xs| ==> names[i] == name(xs[i])
  {
    if xs == [] then [] else Names(xs[..|xs| - 1], name) + [name(xs[|xs| - 1])]
  }

  /** A part's name (names never change). */
  const PartName: Part -> string := (p: Part) => p.name

  // ---------------------------------------------------------------- framebuffer requests and releases

  /** The framebuffers a sequence of `free_framebuffer` calls releases (a call on NULL releases nothing). */
  function Released(freed: seq<Option<Framebuffer>>): multiset<Framebuffer>
  {
    if freed == [] then multiset{}
    else Released(freed[..|freed| - 1]) + if freed[|freed| - 1].Some? then multiset{freed[|freed| - 1].value} else multiset{}
  }

  lemma ReleasedNil()
    ensures Released([]) == multiset{}
  {
  }

  lemma {:induction false} ReleasedAppend(a: seq<Option<Framebuffer>>, b: seq<Option<Framebuffer>>)
    ensures Released(a + b) == Released(a) + Released(b)
    decreases |b|
  {
    if b != [] {
      var n := |b| - 1;
      assert (a + b)[..|a + b| - 1] == a + b[..n];
      ReleasedAppend(a, b[..n]);
    } else {
      assert a + b == a;
    }
  }

  /** Tearing a display down releases exactly the framebuffer its building requested. */
  lemma TeardownReleases(d: Display)
    requires DisplayWellFormed(d)
    ensures Released(DisplayTeardown(d)) == multiset(FramebuffersOf(d))
  {
    if d.hasFramebufferFactory {
      assert DisplayTeardown(d)[..0] == [];
    }
  }

  /** The framebuffer requests building parts from `nodes` makes, in order. */
  function Requests(nodes: seq<Node>, env: Env): seq<Framebuffer>
  {
    if nodes == [] then [] else Requests(nodes[..|nodes| - 1], env) + FramebuffersOf(DisplayOf(nodes[|nodes| - 1], env))
  }

  /** The `free_framebuffer` calls tearing down parts built from `nodes` makes, in order. */
  function Teardowns(nodes: seq<Node>, env: Env): seq<Option<Framebuffer>>
  {
    if nodes == [] then [] else Teardowns(nodes[..|nodes| - 1], env) + DisplayTeardown(DisplayOf(nodes[|nodes| - 1], env))
  }

  /** The `free_framebuffer` calls the v2 part loop makes for the parts that fail to build, in order. */
  function FailedTeardowns(nodes: seq<Node>, env: Env): seq<Option<Framebuffer>>
    requires PartNodesReady(nodes, env)
  {
    if nodes == [] then []
    else
      var last := nodes[|nodes| - 1];
      FailedTeardowns(nodes[..|nodes| - 1], env) + if PartFails(last, "buttons", env) then DisplayTeardown(DisplayOf(last, env)) else []
  }

  /** Tearing down the parts built from `nodes` releases every framebuffer building them requested, once. */
  lemma {:induction false} TeardownsRelease(nodes: seq<Node>, env: Env)
    ensures Released(Teardowns(nodes, env)) == multiset(Requests(nodes, env))
  {
    if nodes != [] {
      var front, last := nodes[..|nodes| - 1], nodes[|nodes| - 1];
      TeardownsRelease(front, env);
      ReleasedAppend(Teardowns(front, env), DisplayTeardown(DisplayOf(last, env)));
      TeardownReleases(DisplayOf(last, env));
    }
  }

  /**
   * After the v2 part loop, every framebuffer it requested is either
   * released already (its part failed) or held by a part that was built.
   */
  lemma {:induction false} LoadReleases(nodes: seq<Node>, env: Env)
    requires PartNodesReady(nodes, env)
    ensures Released(FailedTeardowns(nodes, env)) + multiset(Requests(BuiltNodes(nodes, env), env)) == multiset(Requests(nodes, env))
  {
    hide *;
    if nodes == [] {
      NodesNil(nodes, env);
      ReleasedNil();
    } else {
      var front, last := nodes[..|nodes| - 1], nodes[|nodes| - 1];
      NodesLast(nodes, env);
      LoadReleases(front, env);
      var d, b := DisplayOf(last, env), BuiltNodes(front, env);
      TeardownReleases(d);
      if PartFails(last, "buttons", env) {
        ReleasedAppend(FailedTeardowns(front, env), DisplayTeardown(d));
        AppendNil(b);
        UnionSwap(Released(FailedTeardowns(front, env)), multiset(Requests(b, env)), multiset(FramebuffersOf(d)));
      } else {
        AppendNil(FailedTeardowns(front, env));
        NodesLast(b + [last], env);
        assert (b + [last])[..|b|] == b;
        UnionAssoc(Released(FailedTeardowns(front, env)), multiset(Requests(b, env)), multiset(FramebuffersOf(d)));
      }
    }
  }

  // ---------------------------------------------------------------- what a configuration loads to

  /** Every part node of a list has a charmap when a button of it resolves. */
  predicate PartNodesReady(nodes: seq<Node>, env: Env)
  {
    nodes == [] ||
    (PartNodesReady(nodes[..|nodes| - 1], env) && AllCharmapReady(ButtonNodes(nodes[|nodes| - 1], "buttons"), env))
  }

  /** The v2 part nodes that build a part, in source order. */
  function BuiltNodes(nodes: seq<Node>, env: Env): (built: seq<Node>)
    requires PartNodesReady(nodes, env)
    ensures |built| <= |nodes|
  {
    if nodes == [] then []
    else
      var last := nodes[|nodes| - 1];
      BuiltNodes(nodes[..|nodes| - 1], env) + (if PartFails(last, "buttons", env) then [] else [last])
  }

  lemma {:induction false} PartNodesReadyPrefix(nodes: seq<Node>, i: nat, env: Env)
    requires PartNodesReady(nodes, env) && i <= |nodes|
    ensures PartNodesReady(nodes[..i], env)
    ensures i < |nodes| ==> AllCharmapReady(ButtonNodes(nodes[i], "buttons"), env)
    decreases |nodes|
  {
    if i < |nodes| {
      var front := nodes[..|nodes| - 1];
      PartNodesReadyPrefix(front, i, env);
      assert front[..i] == nodes[..i];
      if i < |front| {
        assert front[i] == nodes[i];
      }
    } else {
      assert nodes[..i] == nodes;
    }
  }

  /** One more node: the built list grows by that node exactly when its part builds, and the framebuffer logs by what building it does. */
  lemma NodeStep(nodes: seq<Node>, i: nat, env: Env)
    requires PartNodesReady(nodes, env) && i < |nodes|
    ensures PartNodesReady(nodes[..i], env) && PartNodesReady(nodes[..i + 1], env)
    ensures AllCharmapReady(ButtonNodes(nodes[i], "buttons"), env)
    ensures BuiltNodes(nodes[..i + 1], env) ==
              BuiltNodes(nodes[..i], env) + (if PartFails(nodes[i], "buttons", env) then [] else [nodes[i]])
    ensures Requests(nodes[..i + 1], env) == Requests(nodes[..i], env) + FramebuffersOf(DisplayOf(nodes[i], env))
    ensures FailedTeardowns(nodes[..i + 1], env) ==
              FailedTeardowns(nodes[..i], env) + (if PartFails(nodes[i], "buttons", env) then DisplayTeardown(DisplayOf(nodes[i], env)) else [])
    ensures LoadedImages(nodes[..i + 1], env) ==
              LoadedImages(nodes[..i], env) + (if PartFails(nodes[i], "buttons", env) then multiset{} else NodeImages(nodes[i], "buttons", env))
  {
    PartNodesReadyPrefix(nodes, i, env);
    PartNodesReadyPrefix(nodes, i + 1, env);
    assert nodes[..i + 1][..i] == nodes[..i];
  }

  /** The functions over part nodes on the empty list. */
  lemma NodesNil(nodes: seq<Node>, env: Env)
    requires nodes == []
    ensures PartNodesReady(nodes, env) && BuiltNodes(nodes, env) == [] && LoadedImages(nodes, env) == multiset{}
    ensures Requests(nodes, env) == [] && Teardowns(nodes, env) == [] && FailedTeardowns(nodes, env) == []
  {
  }

  /** The functions over part nodes, one node from the end. */
  lemma NodesLast(nodes: seq<Node>, env: Env)
    requires nodes != []
    ensures var front, last := nodes[..|nodes| - 1], nodes[|nodes| - 1];
      && (PartNodesReady(nodes, env) <==> PartNodesReady(front, env) && AllCharmapReady(ButtonNodes(last, "buttons"), env))
      && Requests(nodes, env) == Requests(front, env) + FramebuffersOf(DisplayOf(last, env))
      && Teardowns(nodes, env) == Teardowns(front, env) + DisplayTeardown(DisplayOf(last, env))
    ensures var front, last := nodes[..|nodes| - 1], nodes[|nodes| - 1];
      PartNodesReady(nodes, env) ==>
        && BuiltNodes(nodes, env) == BuiltNodes(front, env) + (if PartFails(last, "buttons", env) then [] else [last])
        && FailedTeardowns(nodes, env) ==
             FailedTeardowns(front, env) + (if PartFails(last, "buttons", env) then DisplayTeardown(DisplayOf(last, env)) else [])
        && LoadedImages(nodes, env) ==
             LoadedImages(front, env) + (if PartFails(last, "buttons", env) then multiset{} else NodeImages(last, "buttons", env))
  {
  }

  /** A node's name. */
  const NodeName: Node -> string := (n: Node) => n.name

  /** A layout node anchors some part named in `names`: one of its "part..." children names one. */
  predicate Anchors(layout: Node, names: seq<string>)
  {
    exists i :: 0 <= i < |layout.children| && IsPartEntry(layout.children[i].name) &&
                Str(layout.children[i], "name").Some? && Str(layout.children[i], "name").value in names
  }

  /** The configuration is a v2 one: its root has a `parts` child. */
  predicate IsV2(root: Node)
  {
    Find(root, "parts").Some?
  }

  /** The children of the root's first child named `key`, none when there is no such child. */
  function ChildrenOf(root: Node, key: string): (nodes: seq<Node>)
    ensures Find(root, key).Some? ==> nodes == Find(root, key).value.children
    ensures Find(root, key).None? ==> nodes == []
  {
    match Find(root, key)
    case None => []
    case Some(n) => n.children
  }

  /** Every part node of the configuration has a charmap when a button of it resolves. */
  predicate CharmapReady(root: Node, env: Env)
  {
    if IsV2(root) then PartNodesReady(ChildrenOf(root, "parts"), env)
    else AllCharmapReady(ButtonNodes(root, "button"), env)
  }

  /**
   * The v2 loader succeeds: a `parts` child exists and some part builds, a
   * `layouts` child exists and some layout under it anchors a built part.
   */
  predicate V2Builds(root: Node, env: Env)
    requires PartNodesReady(ChildrenOf(root, "parts"), env)
  {
    var built := BuiltNodes(ChildrenOf(root, "parts"), env);
    && Find(root, "parts").Some?
    && built != []
    && Find(root, "layouts").Some?
    && exists j :: 0 <= j < |ChildrenOf(root, "layouts")| && Anchors(ChildrenOf(root, "layouts")[j], Names(built, NodeName))
  }

  /** A configuration loads: v2 when the v2 loader succeeds and the version is at least 1; v1 when its one part builds. */
  predicate Loads(root: Node, env: Env)
    requires CharmapReady(root, env)
  {
    if IsV2(root) then V2Builds(root, env) && Int(root, "version", 2) > 0 else !PartFails(root, "button", env)
  }

  /** A layout has locations exactly when its node anchors one of the parts, by name. */
  lemma LocationsIffAnchors(layout: Node, parts: seq<Part>)
    ensures LocationsOf(layout.children, parts) != [] <==> Anchors(layout, Names(parts, PartName))
  {
    var nodes := layout.children;
    LocationsOfEmpty(nodes, parts);
    if LocationsOf(nodes, parts) != [] {
      var i :| 0 <= i < |nodes| && IsPartEntry(nodes[i].name) && LocationFrom(nodes[i], parts).Some?;
      var k :| 0 <= k < |parts| && parts[k].name == Str(nodes[i], "name").value;
      assert Names(parts, PartName)[k] == Str(nodes[i], "name").value;
    }
    if Anchors(layout, Names(parts, PartName)) {
      var i :| 0 <= i < |nodes| && IsPartEntry(nodes[i].name) && Str(nodes[i], "name").Some? && Str(nodes[i], "name").value in Names(parts, PartName);
      var k :| 0 <= k < |parts| && Names(parts, PartName)[k] == Str(nodes[i], "name").value;
      assert LocationFrom(nodes[i], parts).Some?;
    }
  }

  /** The v2 layout nodes that build a layout (they resolve at least one location), in source order. */
  function AnchoringNodes(nodes: seq<Node>, parts: seq<Part>): (r: seq<Node>)
    ensures |r| <= |nodes|
  {
    if nodes == [] then []
    else
      var last := nodes[|nodes| - 1];
      AnchoringNodes(nodes[..|nodes| - 1], parts) + (if LocationsOf(last.children, parts) != [] then [last] else [])
  }

  /** One more layout node: the anchoring list and the images held grow exactly when the node anchors a part. */
  lemma AnchoringStep(nodes: seq<Node>, i: nat, parts: seq<Part>, env: Env)
    requires i < |nodes|
    ensures AnchoringNodes(nodes[..i + 1], parts) ==
              AnchoringNodes(nodes[..i], parts) + (if LocationsOf(nodes[i].children, parts) != [] then [nodes[i]] else [])
    ensures AnchoredImages(nodes[..i + 1], parts, env) ==
              AnchoredImages(nodes[..i], parts, env) + (if LocationsOf(nodes[i].children, parts) != [] then LayoutNodeImages(nodes[i], env) else multiset{})
  {
    assert nodes[..i + 1][..i] == nodes[..i];
  }

  /** The functions over layout nodes on the empty list. */
  lemma AnchoringNil(nodes: seq<Node>, parts: seq<Part>, env: Env)
    requires nodes == []
    ensures AnchoringNodes(nodes, parts) == [] && AnchoredImages(nodes, parts, env) == multiset{}
  {
  }

  /** The functions over layout nodes, one node from the end. */
  lemma AnchoringLast(nodes: seq<Node>, parts: seq<Part>, env: Env)
    requires nodes != []
    ensures var front, last := nodes[..|nodes| - 1], nodes[|nodes| - 1];
      && AnchoringNodes(nodes, parts) == AnchoringNodes(front, parts) + (if LocationsOf(last.children, parts) != [] then [last] else [])
      && AnchoredImages(nodes, parts, env) ==
           AnchoredImages(front, parts, env) + (if LocationsOf(last.children, parts) != [] then LayoutNodeImages(last, env) else multiset{})
  {
  }

  /** Every anchoring node resolves at least one location. */
  lemma {:induction false} AnchoringNodesResolve(nodes: seq<Node>, parts: seq<Part>)
    ensures forall j :: 0 <= j < |AnchoringNodes(nodes, parts)| ==> LocationsOf(AnchoringNodes(nodes, parts)[j].children, parts) != []
  {
    if nodes != [] {
      var front := nodes[..|nodes| - 1];
      AnchoringNodesResolve(front, parts);
    }
  }

  /** No layout builds exactly when no layout node anchors a part. */
  lemma {:induction false} AnchoringNodesEmpty(nodes: seq<Node>, parts: seq<Part>)
    ensures AnchoringNodes(nodes, parts) == [] <==> forall j :: 0 <= j < |nodes| ==> !Anchors(nodes[j], Names(parts, PartName))
  {
    if nodes != [] {
      var front := nodes[..|nodes| - 1];
      AnchoringNodesEmpty(front, parts);
      LocationsIffAnchors(nodes[|nodes| - 1], parts);
      assert forall j :: 0 <= j < |front| ==> front[j] == nodes[j];
    }
  }

  // ---------------------------------------------------------------- the built file

  /** `part` is the v2 part built from `node`. */
  ghost predicate PartFrom(part: Part, node: Node, env: Env)
    reads part
  {
    AllCharmapReady(ButtonNodes(node, "buttons"), env) && BuiltFrom(part, node, "buttons", env) && part.Valid()
  }

  /** The parts of a v2 file: one distinct part per building node, in the same order. */
  ghost predicate PartsFrom(parts: seq<Part>, built: seq<Node>, env: Env)
    reads set p | p in parts
  {
    && |parts| == |built|
    && (parts == [] ||
        (PartsFrom(parts[..|parts| - 1], built[..|built| - 1], env) &&
         PartFrom(parts[|parts| - 1], built[|built| - 1], env) &&
         parts[|parts| - 1] !in parts[..|parts| - 1]))
  }

  lemma PartsFromSnoc(parts: seq<Part>, built: seq<Node>, p: Part, n: Node, env: Env)
    requires PartsFrom(parts, built, env) && PartFrom(p, n, env) && p !in parts
    ensures PartsFrom(parts + [p], built + [n], env)
  {
    assert (parts + [p])[..|parts|] == parts && (built + [n])[..|built|] == built;
  }

  /** `PartsFrom`, one part from the end. */
  lemma PartsFromLast(parts: seq<Part>, built: seq<Node>, env: Env)
    requires PartsFrom(parts, built, env)
    ensures |parts| == |built|
    ensures parts != [] ==>
              var n := |parts| - 1;
              PartsFrom(parts[..n], built[..n], env) && PartFrom(parts[n], built[n], env) && parts[n] !in parts[..n]
  {
  }

  /** A part built from a node carries the node's name and holds the images it names. */
  lemma PartFromFacts(part: Part, node: Node, env: Env)
    requires PartFrom(part, node, env)
    ensures AllCharmapReady(ButtonNodes(node, "buttons"), env) && part.name == node.name && part.Valid()
    ensures part.Images() == NodeImages(node, "buttons", env)
  {
  }

  /** Element-wise reading of `PartsFrom`: each part is built from the node at its index, under its name, and no part occurs twice. */
  lemma {:induction false} PartsFromAt(parts: seq<Part>, built: seq<Node>, env: Env)
    requires PartsFrom(parts, built, env)
    ensures Distinct(parts)
    ensures forall k :: 0 <= k < |parts| ==> PartFrom(parts[k], built[k], env)
    ensures Names(parts, PartName) == Names(built, NodeName)
  {
    hide *;
    PartsFromLast(parts, built, env);
    if parts == [] {
      DistinctNil(parts);
    } else {
      var n := |parts| - 1;
      PartsFromAt(parts[..n], built[..n], env);
      DistinctSnoc(parts[..n], parts[n]);
      assert parts[..n] + [parts[n]] == parts;
      PartFromFacts(parts[n], built[n], env);
      NamesSnoc(parts, built);
    }
  }

  /** Lists of parts and nodes that agree on all names but the last, and on the last, agree on all. */
  lemma NamesSnoc(parts: seq<Part>, built: seq<Node>)
    requires parts != [] && |parts| == |built|
    requires Names(parts[..|parts| - 1], PartName) == Names(built[..|built| - 1], NodeName)
    requires parts[|parts| - 1].name == built[|built| - 1].name
    ensures Names(parts, PartName) == Names(built, NodeName)
  {
    var n := |parts| - 1;
    var a, b := Names(parts, PartName), Names(built, NodeName);
    forall k | 0 <= k < |parts|
      ensures a[k] == b[k]
    {
      if k < n {
        assert parts[..n][k] == parts[k] && built[..n][k] == built[k];
        assert Names(parts[..n], PartName)[k] == Names(built[..n], NodeName)[k];
      }
    }
  }

  /** The parts built from `built` make the teardown calls building from those nodes predicts. */
  lemma {:induction false} PartsTeardowns(parts: seq<Part>, built: seq<Node>, env: Env)
    requires PartsFrom(parts, built, env)
    ensures PartTeardowns(parts) == Teardowns(built, env)
  {
    if parts != [] {
      PartsTeardowns(parts[..|parts| - 1], built[..|built| - 1], env);
    }
  }

  /** The parts built from the part nodes hold exactly the images the v2 part loop leaves held. */
  lemma {:induction false} PartsImages(parts: seq<Part>, nodes: seq<Node>, env: Env)
    requires PartNodesReady(nodes, env) && PartsFrom(parts, BuiltNodes(nodes, env), env)
    ensures PartImages(parts) == LoadedImages(nodes, env)
  {
    hide *;
    PartsFromLast(parts, BuiltNodes(nodes, env), env);
    if nodes == [] {
      NodesNil(nodes, env);
      PartImagesNil(parts);
    } else {
      var front, last := nodes[..|nodes| - 1], nodes[|nodes| - 1];
      NodesLast(nodes, env);
      var b := BuiltNodes(front, env);
      if PartFails(last, "buttons", env) {
        AppendNil(b);
        PartsImages(parts, front, env);
        UnionNil(LoadedImages(front, env));
      } else {
        var n := |parts| - 1;
        assert (b + [last])[..|b|] == b && (b + [last])[|b|] == last;
        PartsImages(parts[..n], front, env);
        PartImagesSnoc(parts[..n], parts[n]);
        PartFromFacts(parts[n], last, env);
        assert parts[..n] + [parts[n]] == parts;
      }
    }
  }

  /** The layouts of a v2 file: one distinct layout per anchoring node, in the same order. */
  ghost predicate LayoutsFrom(layouts: seq<Layout>, built: seq<Node>, parts: seq<Part>, env: Env)
    reads set l | l in layouts
  {
    && |layouts| == |built|
    && (layouts == [] ||
        (LayoutsFrom(layouts[..|layouts| - 1], built[..|built| - 1], parts, env) &&
         LayoutBuiltFrom(layouts[|layouts| - 1], built[|built| - 1], parts, env) &&
         layouts[|layouts| - 1] !in layouts[..|layouts| - 1]))
  }

  lemma LayoutsFromSnoc(layouts: seq<Layout>, built: seq<Node>, l: Layout, n: Node, parts: seq<Part>, env: Env)
    requires LayoutsFrom(layouts, built, parts, env) && LayoutBuiltFrom(l, n, parts, env) && l !in layouts
    ensures LayoutsFrom(layouts + [l], built + [n], parts, env)
  {
    assert (layouts + [l])[..|layouts|] == layouts && (built + [n])[..|built|] == built;
  }

  lemma LayoutsFromNil(layouts: seq<Layout>, built: seq<Node>, parts: seq<Part>, env: Env)
    requires layouts == [] && built == []
    ensures LayoutsFrom(layouts, built, parts, env)
  {
  }

  /** `LayoutsFrom`, one layout from the end. */
  lemma LayoutsFromLast(layouts: seq<Layout>, built: seq<Node>, parts: seq<Part>, env: Env)
    requires LayoutsFrom(layouts, built, parts, env)
    ensures |layouts| == |built|
    ensures layouts != [] ==>
              var n := |layouts| - 1;
              && LayoutsFrom(layouts[..n], built[..n], parts, env)
              && LayoutBuiltFrom(layouts[n], built[n], parts, env) && layouts[n] !in layouts[..n]
  {
  }

  /** Element-wise reading of `LayoutsFrom`: each layout is built from the node at its index, and no layout occurs twice. */
  lemma {:induction false} LayoutsFromAt(layouts: seq<Layout>, built: seq<Node>, parts: seq<Part>, env: Env)
    requires LayoutsFrom(layouts, built, parts, env)
    ensures Distinct(layouts)
    ensures forall k :: 0 <= k < |layouts| ==> LayoutBuiltFrom(layouts[k], built[k], parts, env)
  {
    hide *;
    LayoutsFromLast(layouts, built, parts, env);
    if layouts == [] {
      DistinctNil(layouts);
    } else {
      var n := |layouts| - 1;
      LayoutsFromAt(layouts[..n], built[..n], parts, env);
      DistinctSnoc(layouts[..n], layouts[n]);
      assert layouts[..n] + [layouts[n]] == layouts;
      assert forall k :: 0 <= k < n ==> layouts[..n][k] == layouts[k] && built[..n][k] == built[k];
    }
  }

  /** The two layouts a v1 file synthesises around its one part. */
  ghost predicate V1Layouts(layouts: seq<Layout>, part: Part)
    reads layouts, part
  {
    && |layouts| == 2 && layouts[0] != layouts[1]
    && V1Layout(layouts[0], Location(part, Pos(0, 0), 0), part.rect.size, 1)
    && V1Layout(layouts[1], Location(part, Pos(0, part.rect.size.w), ROTATION_270),
                Size(part.rect.size.h, part.rect.size.w), 0)
  }

  /** The layouts built from the anchoring nodes hold exactly the images the v2 layout loop leaves held. */
  lemma {:induction false} LayoutsImages(layouts: seq<Layout>, nodes: seq<Node>, parts: seq<Part>, env: Env)
    requires LayoutsFrom(layouts, AnchoringNodes(nodes, parts), parts, env)
    ensures LayoutImages(layouts) == AnchoredImages(nodes, parts, env)
  {
    hide *;
    LayoutsFromLast(layouts, AnchoringNodes(nodes, parts), parts, env);
    if nodes == [] {
      AnchoringNil(nodes, parts, env);
      LayoutImagesNil(layouts);
    } else {
      var front, last := nodes[..|nodes| - 1], nodes[|nodes| - 1];
      AnchoringLast(nodes, parts, env);
      var b := AnchoringNodes(front, parts);
      if LocationsOf(last.children, parts) == [] {
        AppendNil(b);
        LayoutsImages(layouts, front, parts, env);
        UnionNil(AnchoredImages(front, parts, env));
      } else {
        var n := |layouts| - 1;
        assert (b + [last])[..|b|] == b && (b + [last])[|b|] == last;
        LayoutsImages(layouts[..n], front, parts, env);
        LayoutImagesSnoc(layouts[..n], layouts[n]);
        NodeImagesOfLayout(layouts[n], last, parts, env);
        assert layouts[..n] + [layouts[n]] == layouts;
      }
    }
  }

  /** A synthesised v1 layout: one location, the fixed colour, a keyboard switch event, and nothing else set. */
  ghost predicate V1Layout(l: Layout, loc: Location, size: Size, eventValue: int)
    reads l
  {
    && l.locations == [loc] && l.size == size && l.color == V1_COLOR
    && l.event == Event(EV_SW, 0, eventValue)
    && l.name == None && !l.hasDpadRotation && l.dpadRotation == 0 && l.dpadUpKeycode == 0
    && l.onionImage == None && l.onionAlpha == 0 && l.onionRotation == 0
  }

  /**
   * A loaded file: a positive version, at least one part and one layout,
   * distinct objects, every part's box bounds its panels, every layout holds
   * at least one location, and every location refers to one of the file's
   * own parts.
   */
  ghost predicate FileValid(file: SkinFile)
    reads file, (set p | p in file.parts), (set l | l in file.layouts)
  {
    && file.parts != [] && file.layouts != [] && file.version > 0
    && Distinct(file.parts) && Distinct(file.layouts)
    && (forall k :: 0 <= k < |file.parts| ==> file.parts[k].Valid())
    && (forall j :: 0 <= j < |file.layouts| ==> file.layouts[j].locations != [])
    && (forall j, m :: 0 <= j < |file.layouts| && 0 <= m < |file.layouts[j].locations| ==>
          file.layouts[j].locations[m].part in file.parts)
  }

  // ---------------------------------------------------------------- v1

  /**
   * `skin_file_load_from_v1`: one part from the root (buttons under
   * "button"), then two layouts around it: unrotated at the part's size with
   * event value 1, and turned 270 degrees, anchored at (0, part width), with
   * the size swapped and event value 0.
   */
  method LoadFromV1(file: SkinFile, root: Node, env: Env, ledger: Ledger) returns (ok: bool)
    requires file.parts == [] && file.layouts == []
    requires AllCharmapReady(ButtonNodes(root, "button"), env)
    modifies file, ledger
    ensures ok <==> !PartFails(root, "button", env)
    ensures ok ==> |file.parts| == 1 && file.parts[0].Valid() && BuiltFrom(file.parts[0], root, "button", env)
    ensures ok ==> V1Layouts(file.layouts, file.parts[0])
    ensures (forall p :: p in file.parts ==> fresh(p)) && (forall l :: l in file.layouts ==> fresh(l))
    ensures ok ==> file.version == 1
    ensures !ok ==> file.parts == [] && file.layouts == []
    ensures ledger.held == old(ledger.held) + PartImages(file.parts)
    ensures ledger.created == old(ledger.created) + FramebuffersOf(DisplayOf(root, env))
    ensures ledger.freed == old(ledger.freed) + if ok then [] else DisplayTeardown(DisplayOf(root, env))
  {
    hide *;
    var part := CreatePart(root, "button", env, ledger);
    if part == null {
      PartImagesNil(file.parts);
      UnionNil(ledger.held);
      return false;
    }
    file.parts := [part];
    for nn := 0 to 2
      modifies file`layouts
      invariant |file.layouts| == nn && file.parts == [part]
      invariant forall l :: l in file.layouts ==> fresh(l)
      invariant nn >= 1 ==> V1Layout(file.layouts[0], Location(part, Pos(0, 0), 0), part.rect.size, 1)
      invariant nn == 2 ==> file.layouts[0] != file.layouts[1] &&
                            V1Layout(file.layouts[1], Location(part, Pos(0, part.rect.size.w), ROTATION_270),
                                     Size(part.rect.size.h, part.rect.size.w), 0)
    {
      var loc, size, eventValue;
      if nn == 0 {
        loc, size, eventValue := Location(part, Pos(0, 0), 0), part.rect.size, 1;
      } else {
        loc, size, eventValue := Location(part, Pos(0, part.rect.size.w), ROTATION_270), Size(part.rect.size.h, part.rect.size.w), 0;
      }
      var layout := NewV1Layout(loc, size, eventValue);
      file.layouts := file.layouts + [layout];
    }
    file.version := 1;
    assert file.layouts == [file.layouts[0], file.layouts[1]];
    V1LayoutsPair(file.layouts[0], file.layouts[1], part);
    PartImagesOne(part);
    AppendNil(old(ledger.freed));
    ok := true;
  }

  /** The two layouts built by the v1 loop make the v1 pair. */
  lemma V1LayoutsPair(l0: Layout, l1: Layout, part: Part)
    requires l0 != l1
    requires V1Layout(l0, Location(part, Pos(0, 0), 0), part.rect.size, 1)
    requires V1Layout(l1, Location(part, Pos(0, part.rect.size.w), ROTATION_270), Size(part.rect.size.h, part.rect.size.w), 0)
    ensures V1Layouts([l0, l1], part)
  {
  }

  /** One synthesised v1 layout. */
  method NewV1Layout(loc: Location, size: Size, eventValue: int) returns (l: Layout)
    ensures fresh(l) && V1Layout(l, loc, size, eventValue)
  {
    l := new Layout();
    l.color := V1_COLOR;
    l.event := Event(EV_SW, 0, eventValue);
    l.locations := [loc];
    l.size := size;
  }

  // ---------------------------------------------------------------- v2

  /** The part loop of the v2 loader: one part per building node, appended in source order. */
  method LoadParts(nodes: seq<Node>, env: Env, ledger: Ledger) returns (parts: seq<Part>)
    requires PartNodesReady(nodes, env)
    modifies ledger
    ensures PartsFrom(parts, BuiltNodes(nodes, env), env) && forall p :: p in parts ==> fresh(p)
    ensures ledger.held == old(ledger.held) + LoadedImages(nodes, env)
    ensures ledger.created == old(ledger.created) + Requests(nodes, env)
    ensures ledger.freed == old(ledger.freed) + FailedTeardowns(nodes, env)
  {
    hide *;
    parts := [];
    NodesNil(nodes[..0], env);
    NothingLoaded(nodes[..0], env, ledger.held, ledger.created, ledger.freed);
    UnionNil(ledger.held);
    for i := 0 to |nodes|
      invariant PartNodesReady(nodes[..i], env) && PartsFrom(parts, BuiltNodes(nodes[..i], env), env)
      invariant forall p :: p in parts ==> fresh(p)
      invariant ledger.held == old(ledger.held) + LoadedImages(nodes[..i], env)
      invariant ledger.created == old(ledger.created) + Requests(nodes[..i], env)
      invariant ledger.freed == old(ledger.freed) + FailedTeardowns(nodes[..i], env)
    {
      parts := LoadPart(parts, nodes, i, env, ledger, old(ledger.held), old(ledger.created), old(ledger.freed));
    }
    assert nodes[..|nodes|] == nodes;
  }

  /** One turn of the part loop: build a part from `nodes[i]` and append it when it builds. */
  method LoadPart(parts: seq<Part>, nodes: seq<Node>, i: nat, env: Env, ledger: Ledger,
                  ghost held0: multiset<Image>, ghost created0: seq<Framebuffer>, ghost freed0: seq<Option<Framebuffer>>)
    returns (parts': seq<Part>)
    requires PartNodesReady(nodes, env) && i < |nodes|
    requires PartNodesReady(nodes[..i], env) && PartsFrom(parts, BuiltNodes(nodes[..i], env), env)
    requires ledger.held == held0 + LoadedImages(nodes[..i], env)
    requires ledger.created == created0 + Requests(nodes[..i], env)
    requires ledger.freed == freed0 + FailedTeardowns(nodes[..i], env)
    modifies ledger
    ensures PartNodesReady(nodes[..i + 1], env) && PartsFrom(parts', BuiltNodes(nodes[..i + 1], env), env)
    ensures forall p :: p in parts' ==> p in parts || fresh(p)
    ensures ledger.held == held0 + LoadedImages(nodes[..i + 1], env)
    ensures ledger.created == created0 + Requests(nodes[..i + 1], env)
    ensures ledger.freed == freed0 + FailedTeardowns(nodes[..i + 1], env)
  {
    hide *;
    PartNodesReadyPrefix(nodes, i, env);
    var part := CreatePart(nodes[i], "buttons", env, ledger);
    if part != null {
      PartBuiltStep(nodes, i, env, held0, created0, freed0);
      PartsFromSnoc(parts, BuiltNodes(nodes[..i], env), part, nodes[i], env);
      NodeImagesOfPart(part, nodes[i], "buttons", env);
      parts' := parts + [part];
    } else {
      PartFailedStep(nodes, i, env, held0, created0, freed0);
      parts' := parts;
    }
  }

  /** The bookkeeping of a turn of the part loop whose part builds. */
  lemma PartBuiltStep(nodes: seq<Node>, i: nat, env: Env,
                      held0: multiset<Image>, created0: seq<Framebuffer>, freed0: seq<Option<Framebuffer>>)
    requires PartNodesReady(nodes, env) && i < |nodes|
    requires AllCharmapReady(ButtonNodes(nodes[i], "buttons"), env) && !PartFails(nodes[i], "buttons", env)
    ensures PartNodesReady(nodes[..i], env) && PartNodesReady(nodes[..i + 1], env)
    ensures BuiltNodes(nodes[..i + 1], env) == BuiltNodes(nodes[..i], env) + [nodes[i]]
    ensures held0 + LoadedImages(nodes[..i], env) + NodeImages(nodes[i], "buttons", env) == held0 + LoadedImages(nodes[..i + 1], env)
    ensures created0 + Requests(nodes[..i], env) + FramebuffersOf(DisplayOf(nodes[i], env)) == created0 + Requests(nodes[..i + 1], env)
    ensures freed0 + FailedTeardowns(nodes[..i], env) == freed0 + FailedTeardowns(nodes[..i + 1], env)
  {
    NodeStep(nodes, i, env);
    UnionAssoc(held0, LoadedImages(nodes[..i], env), NodeImages(nodes[i], "buttons", env));
    AppendAssoc(created0, Requests(nodes[..i], env), FramebuffersOf(DisplayOf(nodes[i], env)));
    AppendNil(FailedTeardowns(nodes[..i], env));
  }

  /** The bookkeeping of a turn of the part loop whose part fails to build. */
  lemma PartFailedStep(nodes: seq<Node>, i: nat, env: Env,
                       held0: multiset<Image>, created0: seq<Framebuffer>, freed0: seq<Option<Framebuffer>>)
    requires PartNodesReady(nodes, env) && i < |nodes|
    requires AllCharmapReady(ButtonNodes(nodes[i], "buttons"), env) && PartFails(nodes[i], "buttons", env)
    ensures PartNodesReady(nodes[..i], env) && PartNodesReady(nodes[..i + 1], env)
    ensures BuiltNodes(nodes[..i + 1], env) == BuiltNodes(nodes[..i], env)
    ensures held0 + LoadedImages(nodes[..i], env) == held0 + LoadedImages(nodes[..i + 1], env)
    ensures created0 + Requests(nodes[..i], env) + FramebuffersOf(DisplayOf(nodes[i], env)) == created0 + Requests(nodes[..i + 1], env)
    ensures freed0 + FailedTeardowns(nodes[..i], env) + DisplayTeardown(DisplayOf(nodes[i], env)) ==
              freed0 + FailedTeardowns(nodes[..i + 1], env)
  {
    NodeStep(nodes, i, env);
    AppendNil(BuiltNodes(nodes[..i], env));
    AppendAssoc(created0, Requests(nodes[..i], env), FramebuffersOf(DisplayOf(nodes[i], env)));
    AppendAssoc(freed0, FailedTeardowns(nodes[..i], env), DisplayTeardown(DisplayOf(nodes[i], env)));
  }

  /** The layout loop of the v2 loader: one layout per anchoring node, appended in source order. */
  method LoadLayouts(parts: seq<Part>, nodes: seq<Node>, env: Env, ledger: Ledger) returns (layouts: seq<Layout>)
    modifies ledger
    ensures LayoutsFrom(layouts, AnchoringNodes(nodes, parts), parts, env) && forall l :: l in layouts ==> fresh(l)
    ensures ledger.held == old(ledger.held) + AnchoredImages(nodes, parts, env)
    ensures ledger.created == old(ledger.created) && ledger.freed == old(ledger.freed)
  {
    hide *;
    layouts := [];
    AnchoringNil(nodes[..0], parts, env);
    LayoutsFromNil(layouts, AnchoringNodes(nodes[..0], parts), parts, env);
    UnionNil(ledger.held);
    for i := 0 to |nodes|
      invariant LayoutsFrom(layouts, AnchoringNodes(nodes[..i], parts), parts, env)
      invariant forall l :: l in layouts ==> fresh(l)
      invariant ledger.held == old(ledger.held) + AnchoredImages(nodes[..i], parts, env)
      invariant ledger.created == old(ledger.created) && ledger.freed == old(ledger.freed)
    {
      layouts := LoadLayout(layouts, parts, nodes, i, env, ledger, old(ledger.held));
    }
    assert nodes[..|nodes|] == nodes;
  }

  /** One turn of the layout loop: build a layout from `nodes[i]` against the parts and append it when it builds. */
  method LoadLayout(layouts: seq<Layout>, parts: seq<Part>, nodes: seq<Node>, i: nat, env: Env, ledger: Ledger,
                    ghost held0: multiset<Image>)
    returns (layouts': seq<Layout>)
    requires i < |nodes|
    requires LayoutsFrom(layouts, AnchoringNodes(nodes[..i], parts), parts, env)
    requires ledger.held == held0 + AnchoredImages(nodes[..i], parts, env)
    modifies ledger
    ensures LayoutsFrom(layouts', AnchoringNodes(nodes[..i + 1], parts), parts, env)
    ensures forall l :: l in layouts' ==> l in layouts || fresh(l)
    ensures ledger.held == held0 + AnchoredImages(nodes[..i + 1], parts, env)
    ensures ledger.created == old(ledger.created) && ledger.freed == old(ledger.freed)
  {
    hide *;
    AnchoringStep(nodes, i, parts, env);
    var layout := CreateLayout(nodes[i], parts, env, ledger);
    if layout != null {
      LayoutsFromSnoc(layouts, AnchoringNodes(nodes[..i], parts), layout, nodes[i], parts, env);
      NodeImagesOfLayout(layout, nodes[i], parts, env);
      UnionAssoc(held0, AnchoredImages(nodes[..i], parts, env), layout.Images());
      layouts' := layouts + [layout];
    } else {
      AppendNil(AnchoringNodes(nodes[..i], parts));
      UnionNil(AnchoredImages(nodes[..i], parts, env));
      layouts' := layouts;
    }
  }

  /**
   * `skin_file_load_from_v2`: the parts under `parts` (at least one must
   * build), then the layouts under `layouts` against those parts (at least
   * one must build); version 2 on success. On failure the partial file is
   * left for the caller to free.
   */
  method LoadFromV2(file: SkinFile, root: Node, env: Env, ledger: Ledger) returns (ok: bool)
    requires file.parts == [] && file.layouts == []
    requires PartNodesReady(ChildrenOf(root, "parts"), env)
    modifies file, ledger
    ensures ok <==> V2Builds(root, env)
    ensures ok ==> file.version == 2 && file.parts != [] && file.layouts != []
    ensures PartsFrom(file.parts, BuiltNodes(ChildrenOf(root, "parts"), env), env)
    ensures LayoutsFrom(file.layouts, AnchoringNodes(ChildrenOf(root, "layouts"), file.parts), file.parts, env) || file.layouts == []
    ensures ok ==> LayoutsFrom(file.layouts, AnchoringNodes(ChildrenOf(root, "layouts"), file.parts), file.parts, env)
    ensures (forall p :: p in file.parts ==> fresh(p)) && (forall l :: l in file.layouts ==> fresh(l))
    ensures ledger.held == old(ledger.held) + PartImages(file.parts) + LayoutImages(file.layouts)
    ensures ledger.created == old(ledger.created) + Requests(ChildrenOf(root, "parts"), env)
    ensures ledger.freed == old(ledger.freed) + FailedTeardowns(ChildrenOf(root, "parts"), env)
  {
    hide *;
    if Find(root, "parts").None? {
      NothingLoaded(ChildrenOf(root, "parts"), env, ledger.held, ledger.created, ledger.freed);
      V2BuildsIff(root, env, file.parts);
      return false;
    }
    var parts := LoadParts(ChildrenOf(root, "parts"), env, ledger);
    PartsImages(parts, ChildrenOf(root, "parts"), env);
    file.parts := parts;
    V2BuildsIff(root, env, parts);
    LayoutImagesNil(file.layouts);
    UnionNil(old(ledger.held) + PartImages(parts));
    if parts == [] {
      return false;
    }
    ok := LoadV2Layouts(file, root, env, ledger);
  }

  /** The layout half of `skin_file_load_from_v2`, once some part has been built. */
  method LoadV2Layouts(file: SkinFile, root: Node, env: Env, ledger: Ledger) returns (ok: bool)
    requires file.parts != [] && file.layouts == []
    modifies file`layouts, file`version, ledger
    ensures ok <==> Find(root, "layouts").Some? && AnchoringNodes(ChildrenOf(root, "layouts"), file.parts) != []
    ensures ok ==> file.version == 2 && file.layouts != []
    ensures LayoutsFrom(file.layouts, AnchoringNodes(ChildrenOf(root, "layouts"), file.parts), file.parts, env) || file.layouts == []
    ensures ok ==> LayoutsFrom(file.layouts, AnchoringNodes(ChildrenOf(root, "layouts"), file.parts), file.parts, env)
    ensures forall l :: l in file.layouts ==> fresh(l)
    ensures ledger.held == old(ledger.held) + LayoutImages(file.layouts)
    ensures ledger.created == old(ledger.created) && ledger.freed == old(ledger.freed)
  {
    hide *;
    LayoutImagesNil(file.layouts);
    UnionNil(ledger.held);
    if Find(root, "layouts").None? {
      return false;
    }
    var layouts := LoadLayouts(file.parts, ChildrenOf(root, "layouts"), env, ledger);
    LayoutsImages(layouts, ChildrenOf(root, "layouts"), file.parts, env);
    LayoutsFromLast(layouts, AnchoringNodes(ChildrenOf(root, "layouts"), file.parts), file.parts, env);
    file.layouts := layouts;
    if layouts == [] {
      return false;
    }
    file.version := 2;
    ok := true;
  }

  /** Loading from no part nodes builds nothing and logs nothing. */
  lemma NothingLoaded(nodes: seq<Node>, env: Env,
                      held: multiset<Image>, created: seq<Framebuffer>, freed: seq<Option<Framebuffer>>)
    requires nodes == []
    ensures PartNodesReady(nodes, env) && PartsFrom([], BuiltNodes(nodes, env), env)
    ensures held == held + PartImages([]) + LayoutImages([])
    ensures created == created + Requests(nodes, env) && freed == freed + FailedTeardowns(nodes, env)
  {
  }

  /** The v2 loader's success, read off the parts it built: some part, and some layout node anchoring one of them. */
  lemma V2BuildsIff(root: Node, env: Env, parts: seq<Part>)
    requires PartNodesReady(ChildrenOf(root, "parts"), env)
    requires PartsFrom(parts, BuiltNodes(ChildrenOf(root, "parts"), env), env)
    ensures V2Builds(root, env) <==>
              Find(root, "parts").Some? && parts != [] && Find(root, "layouts").Some? &&
              AnchoringNodes(ChildrenOf(root, "layouts"), parts) != []
  {
    PartsFromAt(parts, BuiltNodes(ChildrenOf(root, "parts"), env), env);
    AnchoringNodesEmpty(ChildrenOf(root, "layouts"), parts);
  }

  // ---------------------------------------------------------------- framebuffers of a whole file

  /** The framebuffer requests loading the configuration makes, in order. */
  function FileRequests(root: Node, env: Env): seq<Framebuffer>
  {
    if IsV2(root) then Requests(ChildrenOf(root, "parts"), env) else FramebuffersOf(DisplayOf(root, env))
  }

  /** The `free_framebuffer` calls made while loading: those of the parts that fail to build. */
  function LoadingTeardowns(root: Node, env: Env): seq<Option<Framebuffer>>
    requires CharmapReady(root, env)
  {
    if IsV2(root) then FailedTeardowns(ChildrenOf(root, "parts"), env)
    else if PartFails(root, "button", env) then DisplayTeardown(DisplayOf(root, env))
    else []
  }

  /** The `free_framebuffer` calls freeing the loaded parts makes, in order. */
  function FreeingTeardowns(root: Node, env: Env): seq<Option<Framebuffer>>
    requires CharmapReady(root, env)
  {
    if IsV2(root) then Teardowns(BuiltNodes(ChildrenOf(root, "parts"), env), env)
    else if PartFails(root, "button", env) then []
    else DisplayTeardown(DisplayOf(root, env))
  }

  /**
   * Whatever happens to the loaded file, the framebuffers released while
   * loading and when freeing the parts are exactly the ones requested, each once.
   */
  lemma TeardownsReleaseAll(root: Node, env: Env)
    requires CharmapReady(root, env)
    ensures Released(LoadingTeardowns(root, env) + FreeingTeardowns(root, env)) == multiset(FileRequests(root, env))
  {
    ReleasedAppend(LoadingTeardowns(root, env), FreeingTeardowns(root, env));
    if IsV2(root) {
      var nodes := ChildrenOf(root, "parts");
      LoadReleases(nodes, env);
      TeardownsRelease(BuiltNodes(nodes, env), env);
    } else {
      TeardownReleases(DisplayOf(root, env));
    }
  }

  // ---------------------------------------------------------------- create and free

  /**
   * `skin_file_create_from_aconfig`: v2 when the root has a `parts` child,
   * then the version from `version` (default 2), which must be at least 1;
   * v1 otherwise, at version 1. Any failure frees what was built and yields
   * no file: every image reference taken is given back, and the framebuffers
   * released are those of the failed parts and then those of the built ones.
   */
  method CreateFromConfig(root: Node, env: Env, ledger: Ledger) returns (file: SkinFile?)
    requires CharmapReady(root, env)
    modifies ledger
    ensures file != null <==> Loads(root, env)
    ensures file != null ==> fresh(file) && FileValid(file)
    ensures file != null ==> file.version == if IsV2(root) then Int(root, "version", 2) else 1
    ensures file != null && IsV2(root) ==>
              PartsFrom(file.parts, BuiltNodes(ChildrenOf(root, "parts"), env), env) &&
              LayoutsFrom(file.layouts, AnchoringNodes(ChildrenOf(root, "layouts"), file.parts), file.parts, env)
    ensures file != null && !IsV2(root) ==>
              |file.parts| == 1 && BuiltFrom(file.parts[0], root, "button", env) && V1Layouts(file.layouts, file.parts[0])
    ensures file != null ==> ledger.held == old(ledger.held) + PartImages(file.parts) + LayoutImages(file.layouts)
    ensures file == null ==> ledger.held == old(ledger.held)
    ensures ledger.created == old(ledger.created) + FileRequests(root, env)
    ensures file != null ==> ledger.freed == old(ledger.freed) + LoadingTeardowns(root, env) &&
                             PartTeardowns(file.parts) == FreeingTeardowns(root, env)
    ensures file == null ==> ledger.freed == old(ledger.freed) + LoadingTeardowns(root, env) + FreeingTeardowns(root, env)
  {
    hide *;
    file := new SkinFile();
    var ok;
    if IsV2(root) {
      ok := CreateV2(file, root, env, ledger);
    } else {
      ok := CreateV1(file, root, env, ledger);
    }
    if !ok {
      FileFree(file, ledger, old(ledger.held));
      file := null;
    }
  }

  /** The v2 branch of `skin_file_create_from_aconfig`, up to the decision to free. */
  method CreateV2(file: SkinFile, root: Node, env: Env, ledger: Ledger) returns (ok: bool)
    requires file.parts == [] && file.layouts == [] && IsV2(root) && CharmapReady(root, env)
    modifies file, ledger
    ensures ok <==> Loads(root, env)
    ensures ok ==> FileValid(file) && file.version == Int(root, "version", 2)
    ensures PartsFrom(file.parts, BuiltNodes(ChildrenOf(root, "parts"), env), env)
    ensures ok ==> LayoutsFrom(file.layouts, AnchoringNodes(ChildrenOf(root, "layouts"), file.parts), file.parts, env)
    ensures (forall p :: p in file.parts ==> fresh(p)) && (forall l :: l in file.layouts ==> fresh(l))
    ensures Distinct(file.parts) && PartTeardowns(file.parts) == FreeingTeardowns(root, env)
    ensures ledger.held == old(ledger.held) + PartImages(file.parts) + LayoutImages(file.layouts)
    ensures ledger.created == old(ledger.created) + FileRequests(root, env)
    ensures ledger.freed == old(ledger.freed) + LoadingTeardowns(root, env)
  {
    hide *;
    V2Facts(root, env);
    ok := LoadFromV2(file, root, env, ledger);
    PartsFromAt(file.parts, BuiltNodes(ChildrenOf(root, "parts"), env), env);
    PartsTeardowns(file.parts, BuiltNodes(ChildrenOf(root, "parts"), env), env);
    if ok {
      file.version := Int(root, "version", 2);
      ok := file.version > 0;
      if ok {
        V2FileValid(file, root, env);
      }
    }
  }

  /** What a v2 configuration loads to, read through the v2 lists of part nodes. */
  lemma V2Facts(root: Node, env: Env)
    requires IsV2(root) && CharmapReady(root, env)
    ensures PartNodesReady(ChildrenOf(root, "parts"), env)
    ensures Loads(root, env) <==> V2Builds(root, env) && Int(root, "version", 2) > 0
    ensures FileRequests(root, env) == Requests(ChildrenOf(root, "parts"), env)
    ensures LoadingTeardowns(root, env) == FailedTeardowns(ChildrenOf(root, "parts"), env)
    ensures FreeingTeardowns(root, env) == Teardowns(BuiltNodes(ChildrenOf(root, "parts"), env), env)
  {
  }

  /** A v2 file with some part and some layout, built from the configuration, is a valid file. */
  lemma V2FileValid(file: SkinFile, root: Node, env: Env)
    requires PartNodesReady(ChildrenOf(root, "parts"), env)
    requires PartsFrom(file.parts, BuiltNodes(ChildrenOf(root, "parts"), env), env)
    requires LayoutsFrom(file.layouts, AnchoringNodes(ChildrenOf(root, "layouts"), file.parts), file.parts, env)
    requires file.parts != [] && file.layouts != [] && file.version > 0
    ensures FileValid(file)
  {
    hide *;
    var built := BuiltNodes(ChildrenOf(root, "parts"), env);
    PartsFromAt(file.parts, built, env);
    forall k | 0 <= k < |file.parts|
      ensures file.parts[k].Valid()
    {
      PartFromFacts(file.parts[k], built[k], env);
    }
    LayoutsValid(file.layouts, ChildrenOf(root, "layouts"), file.parts, env);
    FileValidIntro(file);
  }

  /** The conditions of `FileValid`, one by one. */
  lemma FileValidIntro(file: SkinFile)
    requires file.parts != [] && file.layouts != [] && file.version > 0
    requires Distinct(file.parts) && Distinct(file.layouts)
    requires forall k :: 0 <= k < |file.parts| ==> file.parts[k].Valid()
    requires forall j :: 0 <= j < |file.layouts| ==> file.layouts[j].locations != []
    requires forall j, m :: 0 <= j < |file.layouts| && 0 <= m < |file.layouts[j].locations| ==> file.layouts[j].locations[m].part in file.parts
    ensures FileValid(file)
  {
  }

  /**
   * The layouts built from the anchoring nodes against `parts` are distinct,
   * each holds at least one location, and they only refer to those parts.
   */
  lemma LayoutsValid(layouts: seq<Layout>, nodes: seq<Node>, parts: seq<Part>, env: Env)
    requires LayoutsFrom(layouts, AnchoringNodes(nodes, parts), parts, env)
    ensures Distinct(layouts)
    ensures forall j :: 0 <= j < |layouts| ==> layouts[j].locations != []
    ensures forall j, m :: 0 <= j < |layouts| && 0 <= m < |layouts[j].locations| ==> layouts[j].locations[m].part in parts
  {
    var built := AnchoringNodes(nodes, parts);
    LayoutsFromAt(layouts, built, parts, env);
    AnchoringNodesResolve(nodes, parts);
    forall j | 0 <= j < |layouts|
      ensures layouts[j].locations != []
      ensures forall m :: 0 <= m < |layouts[j].locations| ==> layouts[j].locations[m].part in parts
    {
      LocationsOfResolve(built[j].children, parts);
    }
  }

  /** The v1 branch of `skin_file_create_from_aconfig`, up to the decision to free. */
  method CreateV1(file: SkinFile, root: Node, env: Env, ledger: Ledger) returns (ok: bool)
    requires file.parts == [] && file.layouts == [] && !IsV2(root) && CharmapReady(root, env)
    modifies file, ledger
    ensures ok <==> Loads(root, env)
    ensures ok ==> FileValid(file) && file.version == 1
    ensures ok ==> |file.parts| == 1 && BuiltFrom(file.parts[0], root, "button", env) && V1Layouts(file.layouts, file.parts[0])
    ensures !ok ==> file.parts == [] && file.layouts == []
    ensures (forall p :: p in file.parts ==> fresh(p)) && (forall l :: l in file.layouts ==> fresh(l))
    ensures Distinct(file.parts) && PartTeardowns(file.parts) == FreeingTeardowns(root, env)
    ensures ledger.held == old(ledger.held) + PartImages(file.parts) + LayoutImages(file.layouts)
    ensures ledger.created == old(ledger.created) + FileRequests(root, env)
    ensures ledger.freed == old(ledger.freed) + LoadingTeardowns(root, env)
  {
    hide *;
    V1Facts(root, env);
    ok := LoadFromV1(file, root, env, ledger);
    if ok {
      file.version := 1;
      V1FileValid(file);
      BuiltFromDisplay(file.parts[0], root, "button", env);
      PartTeardownsLast(file.parts);
      PartTeardownsNil(file.parts[..0]);
    } else {
      DistinctNil(file.parts);
      PartTeardownsNil(file.parts);
      LayoutImagesNil(file.layouts);
    }
    UnionNil(old(ledger.held) + PartImages(file.parts));
  }

  /** What a v1 configuration loads to: the one part built from the root. */
  lemma V1Facts(root: Node, env: Env)
    requires !IsV2(root) && CharmapReady(root, env)
    ensures AllCharmapReady(ButtonNodes(root, "button"), env)
    ensures Loads(root, env) <==> !PartFails(root, "button", env)
    ensures FileRequests(root, env) == FramebuffersOf(DisplayOf(root, env))
    ensures LoadingTeardowns(root, env) == if PartFails(root, "button", env) then DisplayTeardown(DisplayOf(root, env)) else []
    ensures FreeingTeardowns(root, env) == if PartFails(root, "button", env) then [] else DisplayTeardown(DisplayOf(root, env))
  {
  }

  /** A v1 file, its one part and its two synthesised layouts, is a valid file holding no onion image. */
  lemma V1FileValid(file: SkinFile)
    requires |file.parts| == 1 && file.parts[0].Valid()
    requires V1Layouts(file.layouts, file.parts[0]) && file.version == 1
    ensures FileValid(file) && Distinct(file.parts)
    ensures LayoutImages(file.layouts) == multiset{}
  {
    var l0, l1 := file.layouts[0], file.layouts[1];
    assert file.layouts == [l0] + [l1] && [l0] == [] + [l0];
    LayoutImagesNil([]);
    LayoutImagesSnoc([], l0);
    LayoutImagesSnoc([l0], l1);
  }

  /** The display of a built part is the one its node describes. */
  lemma BuiltFromDisplay(part: Part, root: Node, container: string, env: Env)
    requires AllCharmapReady(ButtonNodes(root, container), env) && BuiltFrom(part, root, container, env)
    ensures part.display == DisplayOf(root, env)
  {
  }

  /**
   * `skin_file_free`: every layout first (locations and onion image), then
   * every part (background, framebuffer and buttons), each list in order.
   */
  method FileFree(file: SkinFile, ledger: Ledger, ghost others: multiset<Image>)
    requires ledger.held == others + PartImages(file.parts) + LayoutImages(file.layouts)
    requires Distinct(file.parts)
    modifies file`parts, file`layouts, (set p | p in file.parts)`buttons, (set l | l in file.layouts)`locations, ledger
    ensures ledger.held == others
    ensures ledger.freed == old(ledger.freed) + old(PartTeardowns(file.parts))
    ensures ledger.created == old(ledger.created)
    ensures file.parts == [] && file.layouts == []
  {
    hide *;
    FreeLayouts(file.layouts, ledger, others + PartImages(file.parts));
    file.layouts := [];
    FreeParts(file.parts, ledger, others);
    file.parts := [];
  }

  /** The layout walk of `skin_file_free`. */
  method FreeLayouts(layouts: seq<Layout>, ledger: Ledger, ghost others: multiset<Image>)
    requires ledger.held == others + LayoutImages(layouts)
    modifies (set l | l in layouts)`locations, ledger
    ensures ledger.held == others
    ensures ledger.created == old(ledger.created) && ledger.freed == old(ledger.freed)
  {
    hide *;
    assert layouts[0..] == layouts;
    for i := 0 to |layouts|
      invariant ledger.held == others + LayoutImages(layouts[i..])
      invariant ledger.created == old(ledger.created) && ledger.freed == old(ledger.freed)
    {
      LayoutImagesCons(layouts[i..]);
      assert layouts[i..][0] == layouts[i] && layouts[i..][1..] == layouts[i + 1..];
      UnionShift(others, layouts[i].Images(), LayoutImages(layouts[i + 1..]));
      FreeLayout(layouts[i], ledger, others + LayoutImages(layouts[i + 1..]));
    }
    LayoutImagesNil(layouts[|layouts|..]);
    UnionNil(others);
  }

  /** The part walk of `skin_file_free`: each part's framebuffer is released as it goes. */
  method FreeParts(parts: seq<Part>, ledger: Ledger, ghost others: multiset<Image>)
    requires ledger.held == others + PartImages(parts)
    requires Distinct(parts)
    modifies (set p | p in parts)`buttons, ledger
    ensures ledger.held == others
    ensures ledger.freed == old(ledger.freed) + PartTeardowns(parts)
    ensures ledger.created == old(ledger.created)
  {
    hide *;
    assert parts[0..] == parts && parts[..0] == [];
    PartTeardownsNil(parts[..0]);
    AppendNil(ledger.freed);
    for i := 0 to |parts|
      invariant ledger.held == others + PartImages(parts[i..])
      invariant ledger.freed == old(ledger.freed) + PartTeardowns(parts[..i])
      invariant ledger.created == old(ledger.created)
    {
      FreePartAt(parts, i, ledger, others, old(ledger.freed));
    }
    assert parts[..|parts|] == parts;
    PartImagesNil(parts[|parts|..]);
    UnionNil(others);
  }

  /** One turn of the part walk. */
  method FreePartAt(parts: seq<Part>, i: nat, ledger: Ledger, ghost others: multiset<Image>, ghost freed0: seq<Option<Framebuffer>>)
    requires i < |parts| && Distinct(parts)
    requires ledger.held == others + PartImages(parts[i..])
    requires ledger.freed == freed0 + PartTeardowns(parts[..i])
    modifies (parts[i] as Part)`buttons, ledger
    ensures ledger.held == others + PartImages(parts[i + 1..])
    ensures ledger.freed == freed0 + PartTeardowns(parts[..i + 1])
    ensures ledger.created == old(ledger.created)
  {
    hide *;
    PartImagesCons(parts[i..]);
    assert parts[i..][0] == parts[i] && parts[i..][1..] == parts[i + 1..];
    PartTeardownsLast(parts[..i + 1]);
    assert parts[..i + 1][..i] == parts[..i] && parts[..i + 1][i] == parts[i];
    DistinctNotIn(parts, i);
    UnionShift(others, parts[i].Images(), PartImages(parts[i + 1..]));
    FreePart(parts[i], ledger, others + PartImages(parts[i + 1..]));
    AppendAssoc(freed0, PartTeardowns(parts[..i]), DisplayTeardown(parts[i].display));
  }

  // ---------------------------------------------------------------- multiset, sequence and list algebra
  // The proofs above call these by name instead of leaving the solver to find them.

  /** Adding nothing to a multiset leaves it as it was. */
  lemma UnionNil<T>(a: multiset<T>)
    ensures a + multiset{} == a
  {
  }

  /** Multiset union regroups. */
  lemma UnionAssoc<T>(a: multiset<T>, b: multiset<T>, c: multiset<T>)
    ensures (a + b) + c == a + (b + c)
  {
  }

  /** Multiset union lets the first of two added terms move to the end. */
  lemma UnionShift<T>(a: multiset<T>, b: multiset<T>, c: multiset<T>)
    ensures a + (b + c) == (a + c) + b
  {
  }

  /** Multiset union lets a term move past another. */
  lemma UnionSwap<T>(a: multiset<T>, b: multiset<T>, c: multiset<T>)
    ensures (a + c) + b == (a + b) + c
  {
  }

  /** Appending nothing leaves a sequence as it was. */
  lemma AppendNil<T>(a: seq<T>)
    ensures a + [] == a
  {
  }

  /** Sequence concatenation regroups. */
  lemma AppendAssoc<T>(a: seq<T>, b: seq<T>, c: seq<T>)
    ensures (a + b) + c == a + (b + c)
  {
  }

  /** The empty list is free of repetitions. */
  lemma DistinctNil<T>(s: seq<T>)
    requires s == []
    ensures Distinct(s)
  {
  }

  /** Appending an object not yet in a list keeps it free of repetitions. */
  lemma DistinctSnoc<T>(s: seq<T>, x: T)
    requires Distinct(s) && x !in s
    ensures Distinct(s + [x])
  {
  }

  /** An object of a list free of repetitions occurs nowhere else in it. */
  lemma DistinctNotIn<T>(s: seq<T>, i: nat)
    requires Distinct(s) && i < |s|
    ensures s[i] !in s[i + 1..] && s[i] !in s[..i]
  {
  }
}
