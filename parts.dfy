/**
 * Backgrounds, displays, buttons and parts: `skin_background_init_from`,
 * `skin_display_init_from`/`_done`, `skin_button_create_from`/`_free`,
 * `skin_part_create_from_v1`/`_v2` and `skin_part_free` of android/skin/file.c.
 */
module Parts {
  import opened Wrappers
  import opened Config
  import opened Geometry
  import opened Collaborators

  /** SkinBackground: an optional image placed at (x, y); `valid` iff the image was found. */
  datatype Background = Background(image: Option<Image>, rect: Rect, valid: bool)

  /** The zero-initialised background of a new part. */
  const NoBackground := Background(None, ZeroRect, false)

  /**
   * SkinDisplay: the emulated screen's rectangle, rotation and depth, whether a
   * framebuffer factory was recorded, and the framebuffer obtained from it.
   */
  datatype Display = Display(
    rect: Rect,
    rotation: int,
    bpp: int,
    valid: bool,
    hasFramebufferFactory: bool,
    framebuffer: Option<Framebuffer>)

  /** The zero-initialised display of a new part. */
  const NoDisplay := Display(ZeroRect, 0, 0, false, false, None)

  /** SkinButton: named after its node, sized by its image, mapped to a keycode (0 when unknown). */
  datatype Button = Button(name: string, rect: Rect, image: Image, keycode: int)

  // ---------------------------------------------------------------- background

  /** `skin_background_init_from`. */
  function BackgroundFrom(node: Node, env: Env): (bg: Background)
    ensures bg.valid <==> bg.image.Some?
    ensures bg.valid <==> Str(node, "image").Some? && FindImage(env, Str(node, "image").value).Some?
    ensures bg.valid ==> bg.image == FindImage(env, Str(node, "image").value)
    ensures bg.valid ==> bg.rect == Rect(Pos(Int(node, "x", 0), Int(node, "y", 0)), bg.image.value.size)
    ensures !bg.valid ==> bg == NoBackground
  {
    match Str(node, "image")
    case None => NoBackground
    case Some(file) =>
      match FindImage(env, file)
      case None => NoBackground
      case Some(img) => Background(Some(img), Rect(Pos(Int(node, "x", 0), Int(node, "y", 0)), img.size), true)
  }

  /** A part's background: built from its `background` child when there is one. */
  function BackgroundOf(root: Node, env: Env): Background
  {
    match Find(root, "background")
    case None => NoBackground
    case Some(node) => BackgroundFrom(node, env)
  }

  function BackgroundImages(bg: Background): multiset<Image>
  {
    if bg.image.Some? then multiset{bg.image.value} else multiset{}
  }

  // ---------------------------------------------------------------- display

  /**
   * What every display satisfies: valid iff its size is positive; a framebuffer
   * only for a valid display with a factory, sized like the display turned
   * back by its rotation, at the display's depth.
   */
  predicate DisplayWellFormed(d: Display)
  {
    && d.valid == (d.rect.size.w > 0 && d.rect.size.h > 0)
    && (d.framebuffer.Some? ==> d.valid && d.hasFramebufferFactory)
    && (d.framebuffer.Some? ==>
          var turned := RotateSize(d.rect.size, -d.rotation);
          d.framebuffer.value == Framebuffer(turned.w, turned.h, d.bpp))
  }

  /**
   * The display `skin_display_init_from` fills in from its settings: valid iff
   * the size is positive, and a framebuffer is requested exactly when it is
   * valid and a factory was passed.
   */
  function NewDisplay(rect: Rect, rotation: int, bpp: int, hasFramebufferFactory: bool): (d: Display)
    ensures DisplayWellFormed(d)
    ensures d.rect == rect && d.rotation == rotation && d.bpp == bpp
    ensures d.hasFramebufferFactory == hasFramebufferFactory
    ensures d.framebuffer.Some? <==> d.valid && hasFramebufferFactory
  {
    var valid := rect.size.w > 0 && rect.size.h > 0;
    var fb :=
      if valid && hasFramebufferFactory then
        var turned := RotateSize(rect.size, -rotation);
        Some(Framebuffer(turned.w, turned.h, bpp))
      else None;
    Display(rect, rotation, bpp, valid, hasFramebufferFactory, fb)
  }

  /** `skin_display_init_from`: position and size default to 0, rotation to 0, depth to 16. */
  function DisplayFrom(node: Node, env: Env): (d: Display)
    ensures DisplayWellFormed(d) && d.hasFramebufferFactory == env.hasFramebufferFactory
    ensures d.rect == Rect(Pos(Int(node, "x", 0), Int(node, "y", 0)), Size(Int(node, "width", 0), Int(node, "height", 0)))
    ensures d.rotation == Unsigned(node, "rotation", 0) && d.bpp == Int(node, "bpp", 16)
    ensures d.valid <==> Int(node, "width", 0) > 0 && Int(node, "height", 0) > 0
    ensures d.framebuffer.Some? <==> d.valid && env.hasFramebufferFactory
  {
    NewDisplay(
      Rect(Pos(Int(node, "x", 0), Int(node, "y", 0)), Size(Int(node, "width", 0), Int(node, "height", 0))),
      Unsigned(node, "rotation", 0),
      Int(node, "bpp", 16),
      env.hasFramebufferFactory)
  }

  /** A part's display: built from its `display` child when there is one. */
  function DisplayOf(root: Node, env: Env): (d: Display)
    ensures DisplayWellFormed(d)
  {
    match Find(root, "display")
    case None => NoDisplay
    case Some(node) => DisplayFrom(node, env)
  }

  /** The framebuffer requests made while building `d`. */
  function FramebuffersOf(d: Display): seq<Framebuffer>
  {
    if d.framebuffer.Some? then [d.framebuffer.value] else []
  }

  /** `skin_display_done`: the release calls it makes (one iff a factory was recorded). */
  function DisplayTeardown(d: Display): seq<Option<Framebuffer>>
  {
    if d.hasFramebufferFactory then [d.framebuffer] else []
  }

  /** A display with no framebuffer factory is released without any call, one with a factory by exactly one. */
  lemma DisplayTeardownOnce(root: Node, env: Env)
    ensures |DisplayTeardown(DisplayOf(root, env))| == (if Find(root, "display").Some? && env.hasFramebufferFactory then 1 else 0)
    ensures FramebuffersOf(DisplayOf(root, env)) != [] ==> DisplayTeardown(DisplayOf(root, env)) == [Some(FramebuffersOf(DisplayOf(root, env))[0])]
  {
  }

  // ---------------------------------------------------------------- buttons

  /** The image named by a button node, if the node names one and it is found. */
  function ButtonImage(node: Node, env: Env): Option<Image>
  {
    match Str(node, "image")
    case None => None
    case Some(file) => FindImage(env, file)
  }

  /** The charmap is only consulted for a button whose image was found. */
  predicate CharmapReady(node: Node, env: Env)
  {
    env.charmap.Some? || ButtonImage(node, env).None?
  }

  /** `skin_button_create_from`: no button without an image; an unknown key name gives keycode 0. */
  function ButtonFrom(node: Node, env: Env): (b: Option<Button>)
    requires CharmapReady(node, env)
    ensures b.Some? <==> ButtonImage(node, env).Some?
    ensures b.Some? ==> b.value.name == node.name && b.value.image == ButtonImage(node, env).value
    ensures b.Some? ==> b.value.rect == Rect(Pos(Int(node, "x", 0), Int(node, "y", 0)), b.value.image.size)
    ensures b.Some? ==> b.value.keycode == env.charmap.value.translateName(node.name)
  {
    match ButtonImage(node, env)
    case None => None
    case Some(img) =>
      Some(Button(node.name, Rect(Pos(Int(node, "x", 0), Int(node, "y", 0)), img.size), img,
                  env.charmap.value.translateName(node.name)))
  }

  /** The children of a part's button container: `button` in v1 files, `buttons` in v2 files. */
  function ButtonNodes(root: Node, container: string): seq<Node>
  {
    match Find(root, container)
    case None => []
    case Some(c) => c.children
  }

  /** Every node of the list has a charmap to consult if its image is found. */
  predicate AllCharmapReady(nodes: seq<Node>, env: Env)
  {
    nodes == [] || (AllCharmapReady(nodes[..|nodes| - 1], env) && CharmapReady(nodes[|nodes| - 1], env))
  }

  /** Readiness holds for every prefix and every single node of a ready list. */
  lemma {:induction false} CharmapReadyPrefix(nodes: seq<Node>, i: nat, env: Env)
    requires AllCharmapReady(nodes, env) && i <= |nodes|
    ensures AllCharmapReady(nodes[..i], env)
    ensures i < |nodes| ==> CharmapReady(nodes[i], env)
  {
    if i == |nodes| {
      assert nodes[..i] == nodes;
    } else {
      var front := nodes[..|nodes| - 1];
      CharmapReadyPrefix(front, i, env);
      assert front[..i] == nodes[..i];
    }
  }

  /** The buttons built from `nodes`, in source order, skipping those that fail. */
  function ButtonsOf(nodes: seq<Node>, env: Env): (bs: seq<Button>)
    requires AllCharmapReady(nodes, env)
    ensures |bs| <= |nodes|
  {
    if nodes == [] then []
    else
      var last := nodes[|nodes| - 1];
      ButtonsOf(nodes[..|nodes| - 1], env) + (match ButtonFrom(last, env) case None => [] case Some(b) => [b])
  }

  /** A node whose image is found always gives a button, whatever its key name; others give none. */
  lemma {:induction false} ButtonsOfKeepsResolved(nodes: seq<Node>, env: Env)
    requires AllCharmapReady(nodes, env)
    ensures |ButtonsOf(nodes, env)| == |ResolvedNodes(nodes, env)|
    ensures forall k :: 0 <= k < |ButtonsOf(nodes, env)| ==>
              ButtonFrom(ResolvedNodes(nodes, env)[k], env) == Some(ButtonsOf(nodes, env)[k])
  {
    if nodes != [] {
      ButtonsOfKeepsResolved(nodes[..|nodes| - 1], env);
    }
  }

  /** The nodes whose image is found, in source order. */
  function ResolvedNodes(nodes: seq<Node>, env: Env): (rs: seq<Node>)
    ensures forall k :: 0 <= k < |rs| ==> rs[k] in nodes && ButtonImage(rs[k], env).Some?
    ensures AllCharmapReady(nodes, env) && rs != [] ==> env.charmap.Some?
  {
    if nodes == [] then []
    else
      var last := nodes[|nodes| - 1];
      ResolvedNodes(nodes[..|nodes| - 1], env) + (if ButtonImage(last, env).Some? then [last] else [])
  }

  function ButtonImages(bs: seq<Button>): multiset<Image>
  {
    if bs == [] then multiset{} else multiset{bs[0].image} + ButtonImages(bs[1..])
  }

  function ButtonRects(bs: seq<Button>): (rs: seq<Rect>)
    ensures |rs| == |bs| && forall i :: 0 <= i < |bs| ==> rs[i] == bs[i].rect
  {
    if bs == [] then [] else ButtonRects(bs[..|bs| - 1]) + [bs[|bs| - 1].rect]
  }

  // ---------------------------------------------------------------- list order

  /** The order a list built by prepending ends up in. */
  function Reverse<T>(s: seq<T>): (r: seq<T>)
    ensures |r| == |s|
  {
    if s == [] then [] else [s[|s| - 1]] + Reverse(s[..|s| - 1])
  }

  lemma ReverseSnoc<T>(s: seq<T>, x: T)
    ensures Reverse(s + [x]) == [x] + Reverse(s)
  {
    assert (s + [x])[..|s|] == s;
  }

  /** The k-th element of the reversed list is the k-th from the end of the original. */
  lemma {:induction false} ReverseAt<T>(s: seq<T>, k: nat)
    requires k < |s|
    ensures Reverse(s)[k] == s[|s| - 1 - k]
  {
    if k > 0 {
      ReverseAt(s[..|s| - 1], k - 1);
    }
  }

  // ---------------------------------------------------------------- part

  /** The rectangles a part's bounding box is accumulated from, in the order it merges them. */
  function Contributors(bg: Background, d: Display, buttons: seq<Button>): (rs: seq<Rect>)
    ensures rs == [] <==> !bg.valid && !d.valid && buttons == []
  {
    (if bg.valid then [bg.rect] else []) + (if d.valid then [d.rect] else []) + ButtonRects(buttons)
  }

  /** The part's bounding rectangle encloses its valid background, its valid display and every button. */
  lemma PartBoundsEnclose(bg: Background, d: Display, buttons: seq<Button>)
    requires BoundingRect(Contributors(bg, d, buttons)).Some?
    ensures bg.valid ==> Encloses(BoundingRect(Contributors(bg, d, buttons)).value, bg.rect)
    ensures d.valid ==> Encloses(BoundingRect(Contributors(bg, d, buttons)).value, d.rect)
    ensures forall i :: 0 <= i < |buttons| ==> Encloses(BoundingRect(Contributors(bg, d, buttons)).value, buttons[i].rect)
  {
    var rs := Contributors(bg, d, buttons);
    BoundingRectEncloses(rs);
    var pre := |rs| - |buttons|;
    if bg.valid { assert rs[0] == bg.rect; }
    if d.valid { assert rs[pre - 1] == d.rect; }
    forall i | 0 <= i < |buttons|
      ensures Encloses(BoundingRect(rs).value, buttons[i].rect)
    {
      assert rs[pre + i] == buttons[i].rect;
    }
  }

  /** The part's bounding rectangle is the smallest that encloses all its valid children. */
  lemma PartBoundsLeast(bg: Background, d: Display, buttons: seq<Button>, outer: Rect)
    requires BoundingRect(Contributors(bg, d, buttons)).Some?
    requires bg.valid ==> Encloses(outer, bg.rect)
    requires d.valid ==> Encloses(outer, d.rect)
    requires forall i :: 0 <= i < |buttons| ==> Encloses(outer, buttons[i].rect)
    ensures Encloses(outer, BoundingRect(Contributors(bg, d, buttons)).value)
  {
    var rs := Contributors(bg, d, buttons);
    var pre := |rs| - |buttons|;
    forall i | 0 <= i < |rs|
      ensures Encloses(outer, rs[i])
    {
      if i >= pre {
        assert rs[i] == buttons[i - pre].rect;
      }
    }
    BoundingRectLeast(rs, outer);
  }

  /** Merging one more button into the box. */
  lemma BoundStep(pre: seq<Rect>, buttons: seq<Button>, i: nat)
    requires i < |buttons|
    ensures Accumulate(pre + ButtonRects(buttons[..i + 1])) == Update(Accumulate(pre + ButtonRects(buttons[..i])), buttons[i].rect)
  {
    assert buttons[..i + 1][..i] == buttons[..i];
    assert pre + ButtonRects(buttons[..i + 1]) == (pre + ButtonRects(buttons[..i])) + [buttons[i].rect];
    AccumulateSnoc(pre + ButtonRects(buttons[..i]), buttons[i].rect);
  }

  /** The bounding-box step of the part builders: background, display, then the button list. */
  method BoundPart(bg: Background, d: Display, buttons: seq<Button>) returns (r: Option<Rect>)
    ensures r == BoundingRect(Contributors(bg, d, buttons))
  {
    var box := Empty;
    if bg.valid {
      box := Update(box, bg.rect);
    }
    if d.valid {
      box := Update(box, d.rect);
    }
    var pre := (if bg.valid then [bg.rect] else []) + (if d.valid then [d.rect] else []);
    assert box == Accumulate(pre);
    for i := 0 to |buttons|
      invariant box == Accumulate(pre + ButtonRects(buttons[..i]))
    {
      BoundStep(pre, buttons, i);
      box := Update(box, buttons[i].rect);
    }
    assert buttons[..|buttons|] == buttons;
    r := ToRect(box);
  }

  /** SkinPart. The name is set once, right after allocation; the builder fills the rest. */
  class Part {
    const name: string
    var background: Background
    var display: Display
    var buttons: seq<Button>
    var rect: Rect

    /** `ANEW0(part); part->name = ...`. */
    constructor (name: string)
      ensures this.name == name && background == NoBackground && display == NoDisplay
      ensures buttons == [] && rect == ZeroRect
    {
      this.name := name;
      background, display, buttons, rect := NoBackground, NoDisplay, [], ZeroRect;
    }

    /** The invariant of a built part: its rectangle is the bounding box of its valid children. */
    ghost predicate Valid()
      reads this
    {
      && BoundingRect(Contributors(background, display, buttons)) == Some(rect)
      && background.valid == background.image.Some?
      && DisplayWellFormed(display)
    }

    /** The image references this part holds. */
    ghost function Images(): multiset<Image>
      reads this`background, this`buttons
    {
      BackgroundImages(background) + ButtonImages(buttons)
    }
  }

  /** `part` was built from `root`, with buttons taken from the `container` child. */
  ghost predicate BuiltFrom(part: Part, root: Node, container: string, env: Env)
    reads part
    requires AllCharmapReady(ButtonNodes(root, container), env)
  {
    && part.name == root.name
    && part.background == BackgroundOf(root, env)
    && part.display == DisplayOf(root, env)
    && part.buttons == Reverse(ButtonsOf(ButtonNodes(root, container), env))
  }

  /** Whether building a part from `root` fails: none of its children is valid. */
  predicate PartFails(root: Node, container: string, env: Env)
    requires AllCharmapReady(ButtonNodes(root, container), env)
  {
    Contributors(BackgroundOf(root, env), DisplayOf(root, env), ButtonsOf(ButtonNodes(root, container), env)) == []
  }

  /** Building fails exactly when the bounding box over the children, buttons in list order, stays empty. */
  lemma PartFailsIff(root: Node, container: string, env: Env)
    requires AllCharmapReady(ButtonNodes(root, container), env)
    ensures PartFails(root, container, env) <==>
              BoundingRect(Contributors(BackgroundOf(root, env), DisplayOf(root, env), Reverse(ButtonsOf(ButtonNodes(root, container), env)))).None?
  {
  }

  /**
   * `skin_part_create_from_v1` (container "button") and `skin_part_create_from_v2`
   * (container "buttons"): build the children, prepend each button, bound the
   * valid children, and release everything when nothing was valid.
   */
  method CreatePart(root: Node, container: string, env: Env, ledger: Ledger) returns (part: Part?)
    requires AllCharmapReady(ButtonNodes(root, container), env)
    modifies ledger
    ensures part == null <==> PartFails(root, container, env)
    ensures part != null ==> fresh(part) && part.Valid() && BuiltFrom(part, root, container, env)
    ensures part != null ==> ledger.held == old(ledger.held) + part.Images() && ledger.freed == old(ledger.freed)
    ensures part == null ==> ledger.held == old(ledger.held)
    ensures part == null ==> ledger.freed == old(ledger.freed) + DisplayTeardown(DisplayOf(root, env))
    ensures ledger.created == old(ledger.created) + FramebuffersOf(DisplayOf(root, env))
  {
    var p := new Part(root.name);
    InitPanels(p, root, env, ledger);
    AddButtons(p, ButtonNodes(root, container), env, ledger);
    PartFailsIff(root, container, env);
    part := FinishPart(p, ledger, old(ledger.held));
  }

  /** The last step of the part builders: bound the children, then keep the part or free it. */
  method FinishPart(p: Part, ledger: Ledger, ghost others: multiset<Image>) returns (part: Part?)
    requires ledger.held == others + p.Images()
    requires p.background.valid == p.background.image.Some? && DisplayWellFormed(p.display)
    modifies p`rect, p`buttons, ledger
    ensures part == null <==> BoundingRect(Contributors(p.background, p.display, old(p.buttons))).None?
    ensures part != null ==> part == p && p.Valid() && p.buttons == old(p.buttons) && ledger.held == others + p.Images()
    ensures part == null ==> ledger.held == others && ledger.freed == old(ledger.freed) + DisplayTeardown(p.display)
    ensures part != null ==> ledger.freed == old(ledger.freed)
    ensures ledger.created == old(ledger.created)
  {
    var r := BoundPart(p.background, p.display, p.buttons);
    if r.None? {
      FreePart(p, ledger, others);
      part := null;
    } else {
      p.rect := r.value;
      part := p;
    }
  }

  /** The background and display steps of the part builders. */
  method InitPanels(p: Part, root: Node, env: Env, ledger: Ledger)
    requires p.background == NoBackground && p.display == NoDisplay
    modifies p`background, p`display, ledger
    ensures p.background == BackgroundOf(root, env) && p.display == DisplayOf(root, env)
    ensures ledger.held == old(ledger.held) + BackgroundImages(p.background)
    ensures ledger.created == old(ledger.created) + FramebuffersOf(p.display)
    ensures ledger.freed == old(ledger.freed)
  {
    var node := Find(root, "background");
    if node.Some? {
      p.background := BackgroundFrom(node.value, env);
      if p.background.image.Some? {
        ledger.Acquire(p.background.image.value);
      }
    }
    node := Find(root, "display");
    if node.Some? {
      p.display := DisplayFrom(node.value, env);
      if p.display.framebuffer.Some? {
        ledger.CreateFramebuffer(p.display.framebuffer.value);
      }
    }
  }

  /** One more node either adds its button at the end or, when its image is not found, nothing. */
  lemma ButtonsOfStep(nodes: seq<Node>, i: nat, env: Env)
    requires AllCharmapReady(nodes, env) && i < |nodes|
    ensures AllCharmapReady(nodes[..i], env) && AllCharmapReady(nodes[..i + 1], env) && CharmapReady(nodes[i], env)
    ensures ButtonsOf(nodes[..i + 1], env) ==
              ButtonsOf(nodes[..i], env) + (match ButtonFrom(nodes[i], env) case None => [] case Some(b) => [b])
  {
    CharmapReadyPrefix(nodes, i, env);
    CharmapReadyPrefix(nodes, i + 1, env);
    assert nodes[..i + 1][..i] == nodes[..i];
    assert nodes[..i + 1][i] == nodes[i];
  }

  lemma ButtonImagesCons(b: Button, bs: seq<Button>)
    ensures ButtonImages([b] + bs) == multiset{b.image} + ButtonImages(bs)
  {
    assert ([b] + bs)[1..] == bs;
  }

  /** The button loop of the part builders: each button built is prepended to the part's list. */
  method AddButtons(p: Part, nodes: seq<Node>, env: Env, ledger: Ledger)
    requires AllCharmapReady(nodes, env)
    requires p.buttons == []
    modifies p`buttons, ledger
    ensures p.buttons == Reverse(ButtonsOf(nodes, env))
    ensures ledger.held == old(ledger.held) + ButtonImages(p.buttons)
    ensures ledger.created == old(ledger.created) && ledger.freed == old(ledger.freed)
  {
    for i := 0 to |nodes|
      invariant AllCharmapReady(nodes[..i], env)
      invariant p.buttons == Reverse(ButtonsOf(nodes[..i], env))
      invariant ledger.held == old(ledger.held) + ButtonImages(p.buttons)
      invariant ledger.created == old(ledger.created) && ledger.freed == old(ledger.freed)
    {
      AddButton(p, nodes, i, env, ledger, old(ledger.held));
    }
    assert nodes[..|nodes|] == nodes;
  }

  /** One turn of the button loop: the button of node `i`, if any, goes to the front of the list. */
  method AddButton(p: Part, nodes: seq<Node>, i: nat, env: Env, ledger: Ledger, ghost others: multiset<Image>)
    requires AllCharmapReady(nodes, env) && i < |nodes|
    requires AllCharmapReady(nodes[..i], env) && p.buttons == Reverse(ButtonsOf(nodes[..i], env))
    requires ledger.held == others + ButtonImages(p.buttons)
    modifies p`buttons, ledger
    ensures AllCharmapReady(nodes[..i + 1], env) && p.buttons == Reverse(ButtonsOf(nodes[..i + 1], env))
    ensures ledger.held == others + ButtonImages(p.buttons)
    ensures ledger.created == old(ledger.created) && ledger.freed == old(ledger.freed)
  {
    ButtonsOfStep(nodes, i, env);
    var b := ButtonFrom(nodes[i], env);
    if b.Some? {
      ReverseSnoc(ButtonsOf(nodes[..i], env), b.value);
      ButtonImagesCons(b.value, p.buttons);
      p.buttons := [b.value] + p.buttons;
      ledger.Acquire(b.value.image);
    } else {
      assert ButtonsOf(nodes[..i + 1], env) == ButtonsOf(nodes[..i], env);
    }
  }

  /** `skin_part_free`: releases the background image, the framebuffer and every button image. */
  method FreePart(part: Part, ledger: Ledger, ghost others: multiset<Image>)
    requires ledger.held == others + part.Images()
    modifies part`buttons, ledger
    ensures ledger.held == others
    ensures ledger.freed == old(ledger.freed) + DisplayTeardown(part.display)
    ensures ledger.created == old(ledger.created)
    ensures part.buttons == []
  {
    if part.background.image.Some? {
      ledger.Release(part.background.image.value);
    }
    assert ledger.held == others + ButtonImages(part.buttons);
    if part.display.hasFramebufferFactory {
      ledger.FreeFramebuffer(part.display.framebuffer);
    }
    ReleaseButtons(part.buttons, ledger, others);
    part.buttons := [];
  }

  /** The button walk of `skin_part_free`: one release per button, in list order. */
  method ReleaseButtons(buttons: seq<Button>, ledger: Ledger, ghost others: multiset<Image>)
    requires ledger.held == others + ButtonImages(buttons)
    modifies ledger
    ensures ledger.held == others
    ensures ledger.created == old(ledger.created) && ledger.freed == old(ledger.freed)
  {
    for i := 0 to |buttons|
      invariant ledger.held == others + ButtonImages(buttons[i..])
      invariant ledger.created == old(ledger.created) && ledger.freed == old(ledger.freed)
    {
      assert buttons[i..] == [buttons[i]] + buttons[i + 1..];
      ButtonImagesCons(buttons[i], buttons[i + 1..]);
      ledger.Release(buttons[i].image);
    }
  }
}
