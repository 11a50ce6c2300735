/**
 * Locations and layouts: `skin_location_create_from_v2`,
 * `skin_layout_event_decode`, `skin_layout_create_from_v2`,
 * `skin_layout_free` and the two queries `skin_layout_get_display` and
 * `skin_layout_get_dpad_rotation` of android/skin/file.c.
 */
module Layouts {
  import opened Wrappers
  import opened Numbers
  import opened Config
  import opened Geometry
  import opened Collaborators
  import opened Parts

  // ---------------------------------------------------------------- trigger event

  /** The only entry of the event-name table: switch events. */
  const EV_SW: int := 0x05

  /** A hardware event (type, code, value); a layout's trigger closes it. */
  datatype Event = Event(kind: int, code: int, value: int)

  /** The trigger of a v2 layout without an `event` key, and of the first v1 layout: close the keyboard. */
  const KeyboardClosed := Event(EV_SW, 0, 1)

  /** The trigger fields of a freshly zeroed layout, kept when decoding fails. */
  const NoEvent := Event(0, 0, 0)

  /** An entry of the event-name table: a type name and its type number. */
  datatype EventName = EventName(name: string, kind: int)

  /** The event-name table; the C array ends with a NULL sentinel, which the sequence's length replaces. */
  const EVENT_NAMES: seq<EventName> := [EventName("EV_SW", EV_SW)]

  /**
   * The table scan: the type number of the first entry named `name`, `None`
   * when no entry is.
   */
  function LookupEvent(table: seq<EventName>, name: string): (r: Option<int>)
    ensures r.None? <==> forall i :: 0 <= i < |table| ==> table[i].name != name
    ensures r.Some? ==> exists i :: 0 <= i < |table| && table[i] == EventName(name, r.value) &&
                                    forall k :: 0 <= k < i ==> table[k].name != name
  {
    if table == [] then None
    else if table[0].name == name then Some(table[0].kind)
    else
      var r := LookupEvent(table[1..], name);
      assert forall k :: 1 <= k < |table| ==> table[k] == table[1..][k - 1];
      r
  }

  /** The type number of the event name, looked up in the table. */
  function EventType(name: string): Option<int>
  {
    LookupEvent(EVENT_NAMES, name)
  }

  /** With the table as it stands, "EV_SW" is the only known name, and it means type 5. */
  lemma EventTypeSwitch(name: string)
    ensures EventType(name).Some? <==> name == "EV_SW"
    ensures EventType(name).Some? ==> EventType(name).value == EV_SW
  {
    assert EVENT_NAMES[0].name == "EV_SW";
  }

  /** `strchr` from position `from`: the first occurrence of `c` at or after it. */
  function IndexOf(s: string, c: char, from: nat): (r: Option<nat>)
    requires from <= |s|
    ensures r.None? <==> forall i :: from <= i < |s| ==> s[i] != c
    ensures r.Some? ==> from <= r.value < |s| && s[r.value] == c
    ensures r.Some? ==> forall i :: from <= i < r.value ==> s[i] != c
    decreases |s| - from
  {
    if from == |s| then None
    else if s[from] == c then Some(from)
    else IndexOf(s, c, from + 1)
  }

  /**
   * `skin_layout_event_decode`: "<TYPE>:<CODE>:<VALUE>" with a known type
   * name before the first colon; code and value read by `strtol` in base 0.
   * `None` when a colon is missing or the name is unknown.
   */
  function EventDecode(text: string): Option<Event>
  {
    match IndexOf(text, ':', 0)
    case None => None
    case Some(x) =>
      match IndexOf(text, ':', x + 1)
      case None => None
      case Some(y) =>
        match EventType(text[..x])
        case None => None
        case Some(kind) => Some(Event(kind, ParseInt(text[x + 1..]), ParseInt(text[y + 1..])))
  }

  /**
   * What decoding accepts: exactly the texts that start with "EV_SW:" and
   * hold a second colon later on; the code is read after the first colon,
   * the value after the second.
   */
  lemma EventDecodeAccepts(text: string)
    ensures EventDecode(text).Some? <==>
              |text| >= 6 && text[..6] == "EV_SW:" && exists j :: 6 <= j < |text| && text[j] == ':'
    ensures EventDecode(text).Some? ==>
              var y := IndexOf(text, ':', 6).value;
              EventDecode(text).value == Event(EV_SW, ParseInt(text[6..]), ParseInt(text[y + 1..]))
  {
    if |text| >= 6 && text[..6] == "EV_SW:" {
      SwitchPrefix(text);
      EventTypeSwitch(text[..5]);
    } else if EventDecode(text).Some? {
      DecodedPrefix(text);
    }
  }

  /** A text starting with "EV_SW:" has its first colon at 5, after the type name. */
  lemma SwitchPrefix(text: string)
    requires |text| >= 6 && text[..6] == "EV_SW:"
    ensures IndexOf(text, ':', 0) == Some(5) && text[..5] == "EV_SW"
  {
    assert text[5] == ':';
    assert forall i :: 0 <= i < 5 ==> text[i] == "EV_SW:"[i];
  }

  /** A decoded text starts with "EV_SW:". */
  lemma DecodedPrefix(text: string)
    requires EventDecode(text).Some?
    ensures |text| >= 6 && text[..6] == "EV_SW:"
  {
    var x := IndexOf(text, ':', 0).value;
    assert IndexOf(text, ':', x + 1).Some?;
    assert EventType(text[..x]).Some?;
    EventTypeSwitch(text[..x]);
    assert text[..x] == "EV_SW";
    assert |text[..x]| == x == 5;
    assert text[5] == ':';
    assert forall i :: 0 <= i < 5 ==> text[i] == text[..x][i];
  }

  /** The event text a skin author writes for type EV_SW, code `code` and value `value`. */
  function EventText(code: int, value: int): string
  {
    "EV_SW:" + Decimal(code) + ":" + Decimal(value)
  }

  /** Round trip: decoding the written text gives back the switch event. */
  lemma EventDecodeText(code: int, value: int)
    ensures EventDecode(EventText(code, value)) == Some(Event(EV_SW, code, value))
  {
    var c, v := Decimal(code), Decimal(value);
    NoColonInDecimal(code);
    EventDecodeFields(c, v);
    assert c + ":" + v == c + (":" + v) && v == v + "";
    ParseDecimal(code, ":" + v);
    ParseDecimal(value, "");
  }

  /** The same event written with a hexadecimal code, as "EV_SW:0x<hex>:<value>", decodes too. */
  lemma EventDecodeHexCode(code: nat, value: int)
    ensures EventDecode("EV_SW:" + Hex(code) + ":" + Decimal(value)) == Some(Event(EV_SW, code, value))
  {
    var h, v := Hex(code), Decimal(value);
    NoColonInHex(code);
    EventDecodeFields(h, v);
    assert h + ":" + v == h + (":" + v) && v == v + "";
    ParseHex(code, ":" + v);
    ParseDecimal(value, "");
  }

  /** With no colon in the code text, the code is read from it onwards and the value after the next colon. */
  lemma EventDecodeFields(c: string, v: string)
    requires forall i :: 0 <= i < |c| ==> c[i] != ':'
    ensures EventDecode("EV_SW:" + c + ":" + v) == Some(Event(EV_SW, ParseInt(c + ":" + v), ParseInt(v)))
  {
    var text := "EV_SW:" + c + ":" + v;
    assert text[..6] == "EV_SW:";
    assert text[6..] == c + ":" + v;
    var y := 6 + |c|;
    assert text[y] == ':';
    assert forall i :: 6 <= i < y ==> text[i] == c[i - 6];
    assert IndexOf(text, ':', 6) == Some(y);
    assert text[y + 1..] == v;
    EventDecodeAccepts(text);
  }

  lemma NoColonInHex(n: nat)
    ensures forall i :: 0 <= i < |Hex(n)| ==> Hex(n)[i] != ':'
  {
    var d := Digits(n, 16);
    assert Hex(n) == "0x" + d;
    assert forall i :: 0 <= i < |d| ==> IsDigit(d[i], 16);
  }

  lemma NoColonInDecimal(n: int)
    ensures forall i :: 0 <= i < |Decimal(n)| ==> Decimal(n)[i] != ':'
  {
    var d := Digits(if n < 0 then -n else n, 10);
    assert forall i :: 0 <= i < |d| ==> IsDigit(d[i], 10);
  }

  // ---------------------------------------------------------------- colour and onion

  /**
   * `aconfig_unsigned(...) | 0xff000000`: the 32-bit colour setting with its
   * alpha byte forced to 0xff and its red, green and blue bytes kept.
   */
  function LayoutColor(setting: nat): nat
    requires setting < UINT_RANGE
  {
    0xff00_0000 + setting % 0x100_0000
  }

  /** The colour is a 32-bit value whose top byte is 0xff and whose low three bytes are the setting's. */
  lemma LayoutColorOpaque(setting: nat)
    requires setting < UINT_RANGE
    ensures LayoutColor(setting) < UINT_RANGE
    ensures LayoutColor(setting) / 0x100_0000 == 0xff
    ensures LayoutColor(setting) % 0x100_0000 == setting % 0x100_0000
  {
  }

  /** C's `/` on `int`: the quotient truncated toward zero. */
  function DivTrunc(a: int, b: int): int
    requires b > 0
  {
    if a >= 0 then a / b else -((-a) / b)
  }

  /** `(256*alpha)/100`: the onion alpha rescaled from 0..100 to 0..256. */
  function OnionAlpha(alpha: int): int
  {
    DivTrunc(256 * alpha, 100)
  }

  /** For a non-negative setting the rescaled alpha is 256/100 of it rounded down; a negative one is rounded toward zero. */
  lemma OnionAlphaRounding(alpha: int)
    ensures alpha >= 0 ==> OnionAlpha(alpha) * 100 <= 256 * alpha < OnionAlpha(alpha) * 100 + 100
    ensures OnionAlpha(alpha) == -OnionAlpha(-alpha)
  {
  }

  /** The scale ends and the default: 0 stays 0, 100 becomes 256, the default 50 becomes 128; between them it is monotone. */
  lemma OnionAlphaScale(a: int, b: int)
    requires 0 <= a <= b
    ensures OnionAlpha(0) == 0 && OnionAlpha(50) == 128 && OnionAlpha(100) == 256
    ensures OnionAlpha(a) <= OnionAlpha(b)
    ensures b <= 100 ==> 0 <= OnionAlpha(a) <= OnionAlpha(b) <= 256
  {
    OnionAlphaRounding(a);
    OnionAlphaRounding(b);
    OnionAlphaRounding(50);
    OnionAlphaRounding(100);
    assert OnionAlpha(50) * 100 <= 12800 < OnionAlpha(50) * 100 + 100;
    assert OnionAlpha(100) * 100 <= 25600 < OnionAlpha(100) * 100 + 100;
    assert OnionAlpha(a) * 100 <= 256 * a <= 256 * b < OnionAlpha(b) * 100 + 100;
  }

  // ---------------------------------------------------------------- locations

  /** SkinLocation: a part (not owned) placed at an anchor with a rotation. */
  datatype Location = Location(part: Part, anchor: Pos, rotation: int)

  /** The index of the first of `parts` named `name`. */
  function FirstPartNamed(parts: seq<Part>, name: string): (r: Option<nat>)
    ensures r.None? <==> forall i :: 0 <= i < |parts| ==> parts[i].name != name
    ensures r.Some? ==> r.value < |parts| && parts[r.value].name == name
    ensures r.Some? ==> forall i :: 0 <= i < r.value ==> parts[i].name != name
  {
    if parts == [] then None
    else if parts[0].name == name then Some(0)
    else match FirstPartNamed(parts[1..], name)
      case None => None
      case Some(i) => Some(i + 1)
  }

  /**
   * `skin_location_create_from_v2`: nothing without a `name` key or when no
   * part has that name; otherwise the first part so named, at (x, y) with
   * the given rotation (all defaulting to 0).
   */
  function LocationFrom(node: Node, parts: seq<Part>): (r: Option<Location>)
    ensures r.Some? <==> Str(node, "name").Some? && exists i :: 0 <= i < |parts| && parts[i].name == Str(node, "name").value
    ensures r.Some? ==> r.value.anchor == Pos(Int(node, "x", 0), Int(node, "y", 0)) && r.value.rotation == Int(node, "rotation", 0)
    ensures r.Some? ==> exists i :: 0 <= i < |parts| && r.value.part == parts[i] && parts[i].name == Str(node, "name").value &&
                                    forall k :: 0 <= k < i ==> parts[k].name != Str(node, "name").value
  {
    match Str(node, "name")
    case None => None
    case Some(name) =>
      match FirstPartNamed(parts, name)
      case None => None
      case Some(i) => Some(Location(parts[i], Pos(Int(node, "x", 0), Int(node, "y", 0)), Int(node, "rotation", 0)))
  }

  /** The location builder, scanning the part list as the C loop does. */
  method CreateLocation(node: Node, parts: seq<Part>) returns (loc: Option<Location>)
    ensures loc == LocationFrom(node, parts)
  {
    var name := Str(node, "name");
    if name.None? {
      return None;
    }
    var i := 0;
    while i < |parts| && parts[i].name != name.value
      invariant 0 <= i <= |parts|
      invariant forall k :: 0 <= k < i ==> parts[k].name != name.value
    {
      i := i + 1;
    }
    if i == |parts| {
      return None;
    }
    assert FirstPartNamed(parts, name.value) == Some(i);
    loc := Some(Location(parts[i], Pos(Int(node, "x", 0), Int(node, "y", 0)), Int(node, "rotation", 0)));
  }

  /** `memcmp(name, "part", 4) == 0`: the layout children that are locations. */
  predicate IsPartEntry(name: string)
  {
    |name| >= 4 && name[..4] == "part"
  }

  /** The locations of a layout: its "part..." children that resolve, in source order. */
  function LocationsOf(nodes: seq<Node>, parts: seq<Part>): (locs: seq<Location>)
    ensures |locs| <= |nodes|
  {
    if nodes == [] then []
    else
      var last := nodes[|nodes| - 1];
      LocationsOf(nodes[..|nodes| - 1], parts) +
        (if IsPartEntry(last.name) && LocationFrom(last, parts).Some? then [LocationFrom(last, parts).value] else [])
  }

  /** `loc` is what one of the "part..." children of `nodes` resolves to. */
  predicate ResolvedFrom(nodes: seq<Node>, parts: seq<Part>, loc: Location)
  {
    exists i :: 0 <= i < |nodes| && IsPartEntry(nodes[i].name) && LocationFrom(nodes[i], parts) == Some(loc)
  }

  /** Every location comes from a "part..." child and refers to one of the given parts, by its first name match. */
  lemma {:induction false} LocationsOfResolve(nodes: seq<Node>, parts: seq<Part>)
    ensures forall k :: 0 <= k < |LocationsOf(nodes, parts)| ==> ResolvedFrom(nodes, parts, LocationsOf(nodes, parts)[k])
    ensures forall k :: 0 <= k < |LocationsOf(nodes, parts)| ==> LocationsOf(nodes, parts)[k].part in parts
  {
    if nodes != [] {
      var front := nodes[..|nodes| - 1];
      LocationsOfResolve(front, parts);
      var locs := LocationsOf(nodes, parts);
      forall k | 0 <= k < |locs|
        ensures ResolvedFrom(nodes, parts, locs[k])
        ensures locs[k].part in parts
      {
        if k < |LocationsOf(front, parts)| {
          assert locs[k] == LocationsOf(front, parts)[k];
          var i :| 0 <= i < |front| && IsPartEntry(front[i].name) && LocationFrom(front[i], parts) == Some(LocationsOf(front, parts)[k]);
          assert nodes[i] == front[i];
        } else {
          assert LocationFrom(nodes[|nodes| - 1], parts) == Some(locs[k]);
        }
        var i :| 0 <= i < |nodes| && IsPartEntry(nodes[i].name) && LocationFrom(nodes[i], parts) == Some(locs[k]);
        LocationPartIn(nodes[i], parts);
      }
    }
  }

  lemma LocationPartIn(node: Node, parts: seq<Part>)
    ensures LocationFrom(node, parts).Some? ==> LocationFrom(node, parts).value.part in parts
  {
    if LocationFrom(node, parts).Some? {
      var i :| 0 <= i < |parts| && LocationFrom(node, parts).value.part == parts[i];
    }
  }

  /** A layout anchors at least one part exactly when some "part..." child names an existing part. */
  lemma {:induction false} LocationsOfEmpty(nodes: seq<Node>, parts: seq<Part>)
    ensures LocationsOf(nodes, parts) == [] <==>
              forall i :: 0 <= i < |nodes| && IsPartEntry(nodes[i].name) ==> LocationFrom(nodes[i], parts).None?
  {
    if nodes != [] {
      var front := nodes[..|nodes| - 1];
      LocationsOfEmpty(front, parts);
      assert forall i :: 0 <= i < |front| ==> front[i] == nodes[i];
    }
  }

  // ---------------------------------------------------------------- layout

  /** SkinLayout. */
  class Layout {
    var name: Option<string>
    var color: nat
    var event: Event
    var locations: seq<Location>
    var size: Size
    var hasDpadRotation: bool
    var dpadRotation: int
    var dpadUpKeycode: int
    var onionImage: Option<Image>
    var onionAlpha: int
    var onionRotation: int

    /** `ANEW0(layout)`. */
    constructor ()
      ensures name == None && color == 0 && event == NoEvent && locations == [] && size == Size(0, 0)
      ensures !hasDpadRotation && dpadRotation == 0 && dpadUpKeycode == 0
      ensures onionImage == None && onionAlpha == 0 && onionRotation == 0
    {
      name, color, event, locations, size := None, 0, NoEvent, [], Size(0, 0);
      hasDpadRotation, dpadRotation, dpadUpKeycode := false, 0, 0;
      onionImage, onionAlpha, onionRotation := None, 0, 0;
    }

    /** The image reference this layout holds: its onion image, if any. */
    ghost function Images(): multiset<Image>
      reads this`onionImage
    {
      if onionImage.Some? then multiset{onionImage.value} else multiset{}
    }
  }

  /** The trigger of a v2 layout: the default without `event`, the decoded event, or zeros when decoding fails. */
  function TriggerEvent(root: Node): (e: Event)
    ensures Find(root, "event").None? ==> e == KeyboardClosed
    ensures Find(root, "event").Some? ==>
              var t := Find(root, "event").value.value;
              if |t| >= 6 && t[..6] == "EV_SW:" && exists j :: 6 <= j < |t| && t[j] == ':' then
                e == Event(EV_SW, ParseInt(t[6..]), ParseInt(t[IndexOf(t, ':', 6).value + 1..]))
              else
                e == NoEvent
    ensures e != NoEvent ==> e.kind == EV_SW
  {
    match Find(root, "event")
    case None => KeyboardClosed
    case Some(node) =>
      EventDecodeAccepts(node.value);
      match EventDecode(node.value)
      case None => NoEvent
      case Some(e) => e
  }

  /** The onion image named by an `onion` node, if it names one and it is found. */
  function OnionImage(node: Node, env: Env): Option<Image>
  {
    match Str(node, "image")
    case None => None
    case Some(file) => FindImage(env, file)
  }

  /** The settings of `l` (everything but its locations and size) were read from the layout node `root`. */
  ghost predicate SettingsFrom(l: Layout, root: Node, env: Env)
    reads l`name, l`event, l`color, l`hasDpadRotation, l`dpadRotation, l`dpadUpKeycode
    reads l`onionImage, l`onionAlpha, l`onionRotation
  {
    && l.name == Some(root.name)
    && l.event == TriggerEvent(root)
    && l.color == LayoutColor(Unsigned(root, "color", 0x808080))
    && DpadFrom(l, root, env)
    && OnionFrom(l, root, env)
  }

  /** The D-pad settings: an explicit `dpad-rotation`, or else the charmap's D-pad-up keycode (0 without a charmap). */
  ghost predicate DpadFrom(l: Layout, root: Node, env: Env)
    reads l`hasDpadRotation, l`dpadRotation, l`dpadUpKeycode
  {
    match Find(root, "dpad-rotation")
    case Some(_) => l.hasDpadRotation && l.dpadRotation == Int(root, "dpad-rotation", 0) && l.dpadUpKeycode == 0
    case None =>
      !l.hasDpadRotation && l.dpadRotation == 0 &&
      l.dpadUpKeycode == (if env.charmap.Some? then env.charmap.value.dpadUpKeycode else 0)
  }

  /** The onion settings: image, alpha rescaled from its default 50, rotation. */
  ghost predicate OnionFrom(l: Layout, root: Node, env: Env)
    reads l`onionImage, l`onionAlpha, l`onionRotation
  {
    match Find(root, "onion")
    case None => l.onionImage == None && l.onionAlpha == 0 && l.onionRotation == 0
    case Some(node) =>
      l.onionImage == OnionImage(node, env) &&
      l.onionAlpha == OnionAlpha(Int(node, "alpha", 50)) && l.onionRotation == Int(node, "rotation", 0)
  }

  /** `l` was built from the layout node `root` against `parts`. */
  ghost predicate LayoutBuiltFrom(l: Layout, root: Node, parts: seq<Part>, env: Env)
    reads l
  {
    && SettingsFrom(l, root, env)
    && l.size == Size(Int(root, "width", 400), Int(root, "height", 400))
    && l.locations == LocationsOf(root.children, parts)
  }

  /**
   * `skin_layout_create_from_v2`: settings with their defaults, then one
   * location per resolving "part..." child, appended in order; a layout that
   * anchors no part is released and nothing is returned.
   */
  method CreateLayout(root: Node, parts: seq<Part>, env: Env, ledger: Ledger) returns (layout: Layout?)
    modifies ledger
    ensures layout == null <==> LocationsOf(root.children, parts) == []
    ensures layout != null ==> fresh(layout) && LayoutBuiltFrom(layout, root, parts, env) && layout.locations != []
    ensures layout != null ==> ledger.held == old(ledger.held) + layout.Images()
    ensures layout == null ==> ledger.held == old(ledger.held)
    ensures ledger.created == old(ledger.created) && ledger.freed == old(ledger.freed)
  {
    var l := new Layout();
    var width := Int(root, "width", 400);
    var height := Int(root, "height", 400);
    InitSettings(l, root, env, ledger);
    AddLocations(l, root.children, parts);
    if l.locations == [] {
      FreeLayout(l, ledger, old(ledger.held));
      return null;
    }
    l.size := Size(width, height);
    layout := l;
  }

  /** The settings of the layout builder, read in the order the source reads them. */
  method InitSettings(l: Layout, root: Node, env: Env, ledger: Ledger)
    requires l.name == None && l.event == NoEvent && !l.hasDpadRotation && l.dpadRotation == 0 && l.dpadUpKeycode == 0
    requires l.onionImage == None && l.onionAlpha == 0 && l.onionRotation == 0
    modifies l`event, l`name, l`color, l`hasDpadRotation, l`dpadRotation, l`dpadUpKeycode
    modifies l`onionImage, l`onionAlpha, l`onionRotation, ledger
    ensures SettingsFrom(l, root, env)
    ensures ledger.held == old(ledger.held) + l.Images()
    ensures ledger.created == old(ledger.created) && ledger.freed == old(ledger.freed)
  {
    InitEvent(l, root);
    l.name := Some(root.name);
    l.color := LayoutColor(Unsigned(root, "color", 0x808080));
    InitDpad(l, root, env);
    InitOnion(l, root, env, ledger);
  }

  /** The trigger event of the layout builder: decoded when present, the default otherwise. */
  method InitEvent(l: Layout, root: Node)
    requires l.event == NoEvent
    modifies l`event
    ensures l.event == TriggerEvent(root)
  {
    var node := Find(root, "event");
    if node.Some? {
      var e := EventDecode(node.value.value);
      if e.Some? {
        l.event := e.value;
      }
    } else {
      l.event := KeyboardClosed;
    }
  }

  /** The D-pad settings of the layout builder: an explicit rotation, or else the charmap's D-pad-up keycode. */
  method InitDpad(l: Layout, root: Node, env: Env)
    requires !l.hasDpadRotation && l.dpadRotation == 0 && l.dpadUpKeycode == 0
    modifies l`hasDpadRotation, l`dpadRotation, l`dpadUpKeycode
    ensures DpadFrom(l, root, env)
  {
    var node := Find(root, "dpad-rotation");
    if node.Some? {
      l.dpadRotation := Int(root, "dpad-rotation", 0);
      l.hasDpadRotation := true;
    } else if env.charmap.Some? {
      l.dpadUpKeycode := env.charmap.value.dpadUpKeycode;
    }
  }

  /** The onion settings of the layout builder; a found onion image is acquired. */
  method InitOnion(l: Layout, root: Node, env: Env, ledger: Ledger)
    requires l.onionImage == None && l.onionAlpha == 0 && l.onionRotation == 0
    modifies l`onionImage, l`onionAlpha, l`onionRotation, ledger
    ensures OnionFrom(l, root, env)
    ensures ledger.held == old(ledger.held) + l.Images()
    ensures ledger.created == old(ledger.created) && ledger.freed == old(ledger.freed)
  {
    var node := Find(root, "onion");
    if node.Some? {
      l.onionImage := OnionImage(node.value, env);
      if l.onionImage.Some? {
        ledger.Acquire(l.onionImage.value);
      }
      l.onionAlpha := OnionAlpha(Int(node.value, "alpha", 50));
      l.onionRotation := Int(node.value, "rotation", 0);
    }
  }

  /** The child loop of the layout builder: each resolving "part..." child is appended. */
  method AddLocations(l: Layout, nodes: seq<Node>, parts: seq<Part>)
    requires l.locations == []
    modifies l`locations
    ensures l.locations == LocationsOf(nodes, parts)
  {
    for i := 0 to |nodes|
      invariant l.locations == LocationsOf(nodes[..i], parts)
    {
      assert nodes[..i + 1][..i] == nodes[..i];
      assert nodes[..i + 1][i] == nodes[i];
      if IsPartEntry(nodes[i].name) {
        var loc := CreateLocation(nodes[i], parts);
        if loc.Some? {
          l.locations := l.locations + [loc.value];
        }
      }
    }
    assert nodes[..|nodes|] == nodes;
  }

  /** `skin_layout_free`: drops the locations and releases the onion image. */
  method FreeLayout(layout: Layout, ledger: Ledger, ghost others: multiset<Image>)
    requires ledger.held == others + layout.Images()
    modifies layout`locations, ledger
    ensures ledger.held == others
    ensures ledger.created == old(ledger.created) && ledger.freed == old(ledger.freed)
    ensures layout.locations == []
  {
    layout.locations := [];
    if layout.onionImage.Some? {
      ledger.Release(layout.onionImage.value);
    }
  }

  // ---------------------------------------------------------------- queries

  /** The parts a list of locations refers to. */
  ghost function PartsOf(locs: seq<Location>): set<Part>
  {
    set i | 0 <= i < |locs| :: locs[i].part
  }

  /** The display of the first location whose part has a valid display. */
  function FirstValidDisplay(locs: seq<Location>): (r: Option<Display>)
    reads PartsOf(locs)
    ensures r.None? <==> forall i :: 0 <= i < |locs| ==> !locs[i].part.display.valid
    ensures r.Some? ==> r.value.valid && exists i :: 0 <= i < |locs| && locs[i].part.display == r.value &&
                                                    forall k :: 0 <= k < i ==> !locs[k].part.display.valid
  {
    if locs == [] then None
    else
      assert PartsOf(locs[1..]) <= PartsOf(locs) by {
        forall i | 0 <= i < |locs| - 1 ensures locs[1..][i].part in PartsOf(locs) {
          assert locs[1..][i] == locs[i + 1];
        }
      }
      if locs[0].part.display.valid then Some(locs[0].part.display)
      else
        var r := FirstValidDisplay(locs[1..]);
        assert forall i :: 1 <= i < |locs| ==> locs[i] == locs[1..][i - 1];
        r
  }

  /** `skin_layout_get_display`. */
  method GetDisplay(layout: Layout) returns (d: Option<Display>)
    ensures d == FirstValidDisplay(layout.locations)
  {
    var locs := layout.locations;
    for i := 0 to |locs|
      invariant forall k :: 0 <= k < i ==> !locs[k].part.display.valid
    {
      if locs[i].part.display.valid {
        return Some(locs[i].part.display);
      }
    }
    return None;
  }

  /** Some button of the list has the keycode. */
  predicate HasKey(buttons: seq<Button>, keycode: int)
  {
    exists j :: 0 <= j < |buttons| && buttons[j].keycode == keycode
  }

  /** The index of the first location whose part has a button with the keycode. */
  function FirstLocationWithKey(locs: seq<Location>, keycode: int): (r: Option<nat>)
    reads PartsOf(locs)
    ensures r.None? <==> forall i :: 0 <= i < |locs| ==> !HasKey(locs[i].part.buttons, keycode)
    ensures r.Some? ==> r.value < |locs| && HasKey(locs[r.value].part.buttons, keycode)
    ensures r.Some? ==> forall i :: 0 <= i < r.value ==> !HasKey(locs[i].part.buttons, keycode)
  {
    if locs == [] then None
    else
      assert PartsOf(locs[1..]) <= PartsOf(locs) by {
        forall i | 0 <= i < |locs| - 1 ensures locs[1..][i].part in PartsOf(locs) {
          assert locs[1..][i] == locs[i + 1];
        }
      }
      if HasKey(locs[0].part.buttons, keycode) then Some(0)
      else
        var r := FirstLocationWithKey(locs[1..], keycode);
        assert forall i :: 1 <= i < |locs| ==> locs[i] == locs[1..][i - 1];
        match r
        case None => None
        case Some(i) => Some(i + 1)
  }

  /**
   * The D-pad rotation of a layout: the explicit override if set; otherwise
   * no rotation without a D-pad-up keycode; otherwise the rotation of the first
   * location whose part has a button with that keycode, and no rotation when
   * none has.
   */
  function DpadRotation(layout: Layout): (r: int)
    reads layout, PartsOf(layout.locations)
    ensures layout.hasDpadRotation ==> r == layout.dpadRotation
    ensures !layout.hasDpadRotation && layout.dpadUpKeycode == 0 ==> r == 0
    ensures !layout.hasDpadRotation && layout.dpadUpKeycode != 0 ==>
              forall i :: 0 <= i < |layout.locations| && HasKey(layout.locations[i].part.buttons, layout.dpadUpKeycode) &&
                          (forall k :: 0 <= k < i ==> !HasKey(layout.locations[k].part.buttons, layout.dpadUpKeycode)) ==>
                r == layout.locations[i].rotation
    ensures !layout.hasDpadRotation &&
            (forall i :: 0 <= i < |layout.locations| ==> !HasKey(layout.locations[i].part.buttons, layout.dpadUpKeycode)) ==>
              r == 0
  {
    if layout.hasDpadRotation then layout.dpadRotation
    else if layout.dpadUpKeycode == 0 then 0
    else
      match FirstLocationWithKey(layout.locations, layout.dpadUpKeycode)
      case None => 0
      case Some(i) => layout.locations[i].rotation
  }

  /** `skin_layout_get_dpad_rotation`: searches locations in order, and within each part its buttons in order. */
  method GetDpadRotation(layout: Layout) returns (r: int)
    ensures r == DpadRotation(layout)
  {
    if layout.hasDpadRotation {
      return layout.dpadRotation;
    }
    var keycode := layout.dpadUpKeycode;
    if keycode == 0 {
      return 0;
    }
    var locs := layout.locations;
    for i := 0 to |locs|
      invariant forall k :: 0 <= k < i ==> !HasKey(locs[k].part.buttons, keycode)
    {
      var buttons := locs[i].part.buttons;
      for j := 0 to |buttons|
        invariant forall m :: 0 <= m < j ==> buttons[m].keycode != keycode
      {
        if buttons[j].keycode == keycode {
          return locs[i].rotation;
        }
      }
    }
    return 0;
  }
}
