# Android emulator skin builder, modelled in Dafny

The emulator describes its device skin with a configuration tree (AConfig:
nodes with a name, a value and ordered children). `android/skin/file.c`
turns that tree into a `SkinFile` object graph:

- a list of **parts**, each with an optional background image, an optional
  display and a list of buttons, bounded by a rectangle;
- a list of **layouts**, each placing parts at anchors with a rotation, with
  a trigger event, a colour, D-pad hints and an optional onion overlay.

Two formats exist. A v2 file has a `parts` child and a `layouts` child. A
v1 file is a single part with two fixed layouts synthesised around it.
Any structural failure releases everything built so far and yields no file.

The Dafny project follows the C file's structure:

| file | module | what it holds |
|---|---|---|
| `wrappers.dfy` | `Wrappers` | `Option`, for NULL results and failure codes |
| `numbers.dfy` | `Numbers` | `strtol(s, NULL, 0)` as the loader calls it, and decimal, hexadecimal and octal printers as its partners |
| `config.dfy` | `Config` | the configuration tree and the `aconfig_find`/`_str`/`_int`/`_unsigned` accessors |
| `geometry.dfy` | `Geometry` | rectangles, the min/max bounding box (`skin_box_minmax_*`) and the size part of `skin_rect_rotate` |
| `collaborators.dfy` | `Collaborators` | image lookup, framebuffer factory and charmap, plus a ghost `Ledger` of image references held and framebuffers created and freed |
| `parts.dfy` | `Parts` | background, display, button and part builders, and `skin_part_free` |
| `layouts.dfy` | `Layouts` | event decoding, locations, the v2 layout builder, `skin_layout_free` and the two layout queries |
| `skinfile.dfy` | `SkinFiles` | the v1 and v2 loaders, `skin_file_create_from_aconfig` and `skin_file_free` |

The state the C code mutates stays mutable in the model:

- Parts, layouts and the file are classes whose methods fill them field by field.
- The linked lists are `seq` fields that grow by prepending (buttons) or by appending (parts, layouts, locations), as the C lists do.
- Each builder method is proved against a specification function of the
  configuration tree, e.g. `BuiltFrom`, `LayoutBuiltFrom`, `PartsFrom`, `LayoutsFrom`, `V1Layouts`.
- Resource handling is proved through the ghost `Ledger`:
  - every image reference taken is held by the object graph and given back by the free routines;
  - the framebuffers released while loading and while freeing are exactly the ones requested, each once.

## Model

| member | source | states |
|---|---|---|
| Numbers.SkipSpacesSuffix | android/skin/file.c:417-418 | `strtol` skips exactly the leading white space: what remains is a suffix of the text that does not start with a space |
| Numbers.DigitRunMaximal | android/skin/file.c:417-418 | `strtol` reads the longest run of digits: every character in the run is a digit of the base and the next one is not |
| Numbers.Digits | android/skin/file.c:417-418 | the printed digits of a number in any base from 2 to 16 are one or more digits of that base, led by '0' exactly when the number is 0 |
| Numbers.DigitsValueOf | android/skin/file.c:417-418 | reading printed digits back in the same base gives the number again |
| Numbers.ParseDecimal | android/skin/file.c:417-418 | round trip, decimal branch: base-0 `strtol` reads back any integer printed in decimal, whatever follows it that does not continue the literal (no digit, and after a lone 0 no `x` followed by a hexadecimal digit) |
| Numbers.ParseHex | android/skin/file.c:417-418 | round trip, hexadecimal branch: base-0 `strtol` reads back any `0x` literal, whatever non-hexadecimal text follows it |
| Numbers.ParseOctal | android/skin/file.c:417-418 | round trip, octal branch: base-0 `strtol` reads back any literal with a leading 0 as octal, whatever non-octal text follows it |
| Config.FindFirst | android/skin/file.c:233-241 | the child lookup fails exactly when no child has the name; otherwise it returns a child with that name that no earlier child shares |
| Geometry.Update | android/skin/file.c:257-264 | merging a rectangle into the box yields a non-empty box that covers the rectangle and everything the box covered before |
| Geometry.ToRect | android/skin/file.c:267 | finalising the box fails exactly when nothing was merged; otherwise the rectangle spans the box's corners |
| Geometry.BoundingRectEncloses | android/skin/file.c:255-267 | the bounding rectangle exists iff at least one rectangle was merged, and it encloses every merged rectangle |
| Geometry.BoundingRectTight | android/skin/file.c:255-267 | each edge of the bounding rectangle is the edge of some merged rectangle |
| Geometry.BoundingRectLeast | android/skin/file.c:255-267 | any rectangle enclosing all merged rectangles encloses the bounding rectangle: it is the least enclosing one |
| Geometry.BoundingRectMonotone | android/skin/file.c:255-267 | shrinking one merged rectangle never grows the bounding rectangle |
| Geometry.RotateSize | android/skin/file.c:101 | the size of a rotated rectangle is either its own size or that size with width and height swapped |
| Collaborators.FindImage | android/skin/file.c:20-32 | an image reference exists exactly when the lookup of (directory, file) succeeds, and it carries that file's name and pixel size |
| Parts.BackgroundFrom | android/skin/file.c:44-72 | a background is valid iff it names an image that is found; a valid one holds that image, placed at (x, y) (defaults 0) with the image's size; otherwise the zeroed background |
| Parts.NewDisplay | android/skin/file.c:97-105 | a display is valid iff width and height are positive; a framebuffer is requested iff it is valid and a factory was passed, sized by the rectangle turned back by the rotation, at the display's depth |
| Parts.DisplayFrom | android/skin/file.c:85-118 | the display's box is read from x, y, width and height (default 0), its rotation (default 0) and depth (default 16) from their keys; it is valid iff width and height are positive, a framebuffer is requested iff it is valid and a factory was passed, and it is well formed |
| Parts.DisplayOf | android/skin/file.c:237-239 | a part's display, from its `display` child or zeroed without one, is always well formed |
| Parts.DisplayTeardownOnce | android/skin/file.c:77-83 | tearing a display down calls `free_framebuffer` once iff a display child existed and a factory was passed, and on the requested framebuffer when one was requested |
| Parts.ButtonFrom | android/skin/file.c:133-167 | a button exists iff its image is found; it is named after its node, sized by the image at (x, y), and takes the charmap's keycode, 0 for an unknown name |
| Parts.ButtonsOfKeepsResolved | android/skin/file.c:241-253 | every button node whose image is found gives a button, one per such node and in source order, whatever its key name |
| Parts.ReverseAt | android/skin/file.c:248-251 | prepending each new button leaves the list reversed: position k holds the k-th button from the end of source order |
| Parts.Contributors | android/skin/file.c:255-265 | no rectangle feeds the box exactly when the background and display are invalid and there is no button |
| Parts.PartBoundsEnclose | android/skin/file.c:255-272 | a part's rectangle encloses its valid background, its valid display and every button |
| Parts.PartBoundsLeast | android/skin/file.c:255-272 | a part's rectangle is the smallest enclosing its valid background, valid display and buttons |
| Parts.PartFailsIff | android/skin/file.c:267-270 | a part fails exactly when the box over its children, buttons in list order, cannot be finalised |
| Parts.BoundPart | android/skin/file.c:255-267 | the box loop (background, display, then each button in list order) computes the bounding rectangle of the part's valid children |
| Parts.Part.constructor | android/skin/file.c:230-231 | a new part carries the node's name and is otherwise zeroed |
| Parts.CreatePart | android/skin/file.c:220-327 | both part builders return a part iff some child is valid. A returned part is fresh, built from the node (name, background, display, buttons reversed) and bounded by its box, and the images it holds are taken. On failure every image is given back and only the display teardown is logged. Framebuffer requests are those of the display |
| Parts.InitPanels | android/skin/file.c:233-239 | the background and display come from their children when present; the background image is taken and the display's framebuffer requested |
| Parts.AddButtons | android/skin/file.c:241-253 | the button loop leaves the part's list equal to the buttons in reverse source order, and takes one image reference per button |
| Parts.FinishPart | android/skin/file.c:267-272 | the part is kept with its bounding rectangle iff the box is non-empty; otherwise it is freed, giving back its images and logging its display teardown |
| Parts.FreePart | android/skin/file.c:172-185 | freeing a part gives back every image reference it holds, calls `free_framebuffer` iff a factory was recorded, and empties its button list |
| Parts.ReleaseButtons | android/skin/file.c:179-181 | the button walk gives back one image reference per button |
| Layouts.LookupEvent | android/skin/file.c:407-416 | the table scan yields the type number of the first entry with exactly the given name, and nothing iff no entry has that name |
| Layouts.EventTypeSwitch | android/skin/file.c:390-414 | with the table as it stands, a type name is known iff it is "EV_SW", and it stands for type 5 |
| Layouts.IndexOf | android/skin/file.c:395-400 | `strchr`: fails iff the character does not occur from the start position on; otherwise its first occurrence there |
| Layouts.EventDecodeAccepts | android/skin/file.c:382-420 | decoding succeeds iff the text starts with "EV_SW:" and holds a second colon later on; then the type is 5, the code is read after the first colon and the value after the second |
| Layouts.EventDecodeText | android/skin/file.c:382-420 | round trip: decoding "EV_SW:<code>:<value>" written in decimal gives back that switch event |
| Layouts.EventDecodeHexCode | android/skin/file.c:382-420 | round trip: decoding "EV_SW:0x<code>:<value>", the code written in hexadecimal, gives back that switch event |
| Layouts.EventDecodeFields | android/skin/file.c:395-418 | with no colon in the code text, decoding "EV_SW:<code>:<value>" reads the code from the code text onwards and the value after the second colon |
| Layouts.LayoutColorOpaque | android/skin/file.c:451 | the layout colour is a 32-bit value with alpha byte 0xff and the setting's red, green and blue bytes |
| Layouts.OnionAlphaRounding | android/skin/file.c:471-472 | the onion alpha is 256/100 of the setting rounded toward zero, and is odd-symmetric in it |
| Layouts.OnionAlphaScale | android/skin/file.c:469-472 | the alpha rescaling maps 0 to 0, the default 50 to 128 and 100 to 256, is monotone, and maps 0..100 into 0..256 |
| Layouts.FirstPartNamed | android/skin/file.c:202-204 | the part search finds the first part with the name, and nothing iff no part has it |
| Layouts.LocationFrom | android/skin/file.c:187-218 | a location exists iff the node has a `name` and some part has that name; it points at the first such part, at (x, y) with the rotation (defaults 0) |
| Layouts.CreateLocation | android/skin/file.c:187-218 | the location builder's scan over the part list yields the location `LocationFrom` specifies |
| Layouts.LocationsOfResolve | android/skin/file.c:476-486 | every location of a layout comes from one of its "part..." children and refers to one of the given parts |
| Layouts.LocationsOfEmpty | android/skin/file.c:476-489 | a layout has no location exactly when none of its "part..." children resolves |
| Layouts.TriggerEvent | android/skin/file.c:438-448 | without an `event` key the trigger is type 5, code 0, value 1; with one, it is the switch event whose code is read after "EV_SW:" and whose value is read after the next colon when the text has that form, and all zeros otherwise |
| Layouts.Layout.constructor | android/skin/file.c:433 | a new layout is zeroed: no name, no event, no location, no D-pad hint, no onion |
| Layouts.InitEvent | android/skin/file.c:438-448 | the builder sets the trigger `TriggerEvent` specifies, writing nothing when decoding fails |
| Layouts.InitDpad | android/skin/file.c:454-460 | an explicit `dpad-rotation` sets the override; otherwise the charmap's D-pad-up keycode is recorded, 0 without a charmap |
| Layouts.InitOnion | android/skin/file.c:462-474 | an `onion` child sets the found image (taking its reference), the rescaled alpha (default 50) and the rotation; without one nothing is set |
| Layouts.InitSettings | android/skin/file.c:438-474 | the layout's name, trigger, opaque colour (default 0x808080), D-pad and onion settings are those read from its node, and only the onion image is taken |
| Layouts.AddLocations | android/skin/file.c:476-486 | the child loop appends, in source order, the location of every "part..." child that resolves |
| Layouts.CreateLayout | android/skin/file.c:422-499 | a layout is returned iff some "part..." child resolves. A returned layout is fresh, built from its node with size defaulting to 400x400, and holds its onion image. Otherwise the layout is freed and no reference stays taken |
| Layouts.FreeLayout | android/skin/file.c:332-345 | freeing a layout drops its locations and gives back its onion image reference, if any |
| Layouts.FirstValidDisplay | android/skin/file.c:347-357 | there is none iff no location's part has a valid display; otherwise it is the valid display of the first location whose part has one |
| Layouts.GetDisplay | android/skin/file.c:347-357 | the query returns the display `FirstValidDisplay` specifies |
| Layouts.FirstLocationWithKey | android/skin/file.c:370-376 | the first location whose part has a button with the keycode, and none iff no location's part has one |
| Layouts.DpadRotation | android/skin/file.c:359-379 | the override if set; otherwise 0 without a D-pad-up keycode; otherwise the rotation of the first location whose part has a button with that keycode, and 0 when none has |
| Layouts.GetDpadRotation | android/skin/file.c:359-379 | the nested search over locations and their buttons returns `DpadRotation` |
| SkinFiles.SkinFile.constructor | android/skin/file.c:647 | a new file has version 0 and no part or layout |
| SkinFiles.NewV1Layout | android/skin/file.c:522-568 | a synthesised v1 layout has one location and the fixed colour 0xff808080, a switch event with code 0 and the given value, the given size, and nothing else set |
| SkinFiles.LoadFromV1 | android/skin/file.c:504-576 | loading succeeds iff the root part builds. The file then has that one part, version 1, and exactly two layouts: anchor (0,0), rotation 0, the part's size, event value 1; and anchor (0, part width), rotation 270, size swapped, event value 0. Image and framebuffer bookkeeping follows the part builder |
| SkinFiles.V1FileValid | android/skin/file.c:504-576 | a v1 file is a valid file, and its synthesised layouts hold no image |
| SkinFiles.LoadParts | android/skin/file.c:587-605 | the part loop appends one distinct fresh part per part node that builds, in source order. It takes exactly their images, requests the framebuffers of every node's display, and releases those of the parts that fail |
| SkinFiles.LoadPart | android/skin/file.c:593-604 | one turn of the part loop appends the node's part iff it builds, keeping the loop's bookkeeping |
| SkinFiles.PartsFromAt | android/skin/file.c:587-605 | each loaded part is the one built from the building node at its index, under that node's name, and no part occurs twice |
| SkinFiles.PartsImages | android/skin/file.c:587-605 | the loaded parts hold exactly the image references the part loop left taken |
| SkinFiles.LoadReleases | android/skin/file.c:587-605 | after the part loop, every framebuffer requested has either been released (its part failed) or belongs to a built part |
| SkinFiles.LoadLayouts | android/skin/file.c:613-628 | the layout loop appends one distinct fresh layout per layout node that anchors a loaded part, in source order, and takes exactly their onion images |
| SkinFiles.LoadLayout | android/skin/file.c:616-627 | one turn of the layout loop appends the node's layout iff it anchors a part |
| SkinFiles.LayoutsFromAt | android/skin/file.c:613-628 | each loaded layout is the one built from the anchoring node at its index, and no layout occurs twice |
| SkinFiles.LayoutsImages | android/skin/file.c:613-628 | the loaded layouts hold exactly the onion images the layout loop left taken |
| SkinFiles.LayoutsValid | android/skin/file.c:613-628 | the loaded layouts are distinct, each holds at least one location, and every one of their locations refers to a loaded part |
| SkinFiles.AnchoringNodesResolve | android/skin/file.c:476-489 | every layout node kept for building resolves at least one location, so no empty layout is kept |
| SkinFiles.LocationsIffAnchors | android/skin/file.c:476-489 | a layout node builds a layout iff one of its "part..." children names one of the parts |
| SkinFiles.AnchoringNodesEmpty | android/skin/file.c:613-631 | no layout is loaded exactly when no layout node anchors a loaded part |
| SkinFiles.LoadFromV2 | android/skin/file.c:578-636 | the v2 loader succeeds iff `parts` exists, some part builds, `layouts` exists and some layout anchors a built part; then the version is 2. The parts and, when any, the layouts are those the loops specify, and the partial file is left for the caller to free |
| SkinFiles.LoadV2Layouts | android/skin/file.c:610-636 | with parts loaded, the layout half succeeds iff `layouts` exists and some layout node anchors a part, setting version 2 |
| SkinFiles.V2BuildsIff | android/skin/file.c:578-636 | the v2 loader's success condition, read off the loaded parts: some part, and some layout node anchoring one of them |
| SkinFiles.V2FileValid | android/skin/file.c:578-636 | a v2 file with parts and layouts built from the tree and a positive version is a valid file |
| SkinFiles.CreateV2 | android/skin/file.c:649-660 | the v2 branch succeeds iff the loader does and the `version` key (default 2) is positive, leaving a valid file at that version |
| SkinFiles.CreateV1 | android/skin/file.c:661-667 | the v1 branch succeeds iff the root part builds, leaving a valid file at version 1 |
| SkinFiles.CreateFromConfig | android/skin/file.c:638-673 | a file is returned iff the tree loads (v2 iff the root has `parts`). A returned file is fresh, valid, at the right version, and holds the parts and layouts the tree specifies together with every image reference they took. On failure every reference is given back and the built parts' framebuffers are released after those of the failed parts |
| SkinFiles.TeardownReleases | android/skin/file.c:77-118 | tearing a display down releases exactly the framebuffer building it requested |
| SkinFiles.TeardownsRelease | android/skin/file.c:172-185 | tearing down the parts built from a list of nodes releases every framebuffer building them requested, once |
| SkinFiles.PartsTeardowns | android/skin/file.c:684-686 | freeing the loaded parts makes the `free_framebuffer` calls the building nodes predict, in order |
| SkinFiles.TeardownsReleaseAll | android/skin/file.c:638-691 | over loading and freeing a file, the framebuffers released are exactly those requested, each once |
| SkinFiles.FileFree | android/skin/file.c:675-691 | freeing a file gives back every image reference its layouts and parts hold, makes each part's display teardown in list order, and empties both lists |
| SkinFiles.FreeLayouts | android/skin/file.c:679-682 | the layout walk gives back every onion image reference the layouts hold |
| SkinFiles.FreeParts | android/skin/file.c:684-687 | the part walk gives back every image reference the parts hold and logs their display teardowns in list order |
| SkinFiles.FreePartAt | android/skin/file.c:684-686 | one turn of the part walk frees the next part |

## Left out

- Path joining in `skin_image_find_in` (the 1024-byte buffer) is string plumbing. Image lookup is an abstract function of (directory, file) that may fail.
- Image decoding, reference counting internals, the AConfig parser and framebuffer allocation belong to collaborators. References and framebuffer calls are recorded in a ghost ledger only.
- `SKIN_IMAGE_NONE` is not visible. A missing `image` key for a button or an onion is treated like a failed lookup: no image.
- Integers are unbounded: `int` widths, `strtol` overflow of `long` and unsigned wrap-around of keycodes are not modelled. Only `aconfig_unsigned` reduces modulo 2^32.
- The charmap is dereferenced unconditionally when a button's image is found. Callers must pass one whenever such a button exists (`CharmapReady`), rather than the model covering its absence.
- `dprint` diagnostics are not modelled, including the inverted ternary that prints "<NULL>" for named parts at android/skin/file.c:599.
- The `#if 0` blocks at android/skin/file.c:106-115 and android/skin/file.c:543-559 are dead code and not modelled.
- `AFREE` of buttons, locations, parts, layouts and the file is not modelled. The free routines empty the lists and give back references but do not state deallocation.
- `skin_file_load_from_v2` is split into `LoadFromV2` (parts) and `LoadV2Layouts` (layouts). The two together do what the one C function does.
- Geometry.RotateSize: `skin_rect_rotate` is not visible. The contract states only that the size is kept or swapped. The parity of quarter turns decides which, and only framebuffer sizes depend on it.
- Geometry.Update: `skin_box_minmax_*` are not visible. They are specified by use: a min/max union that fails to finalise when nothing was merged.
- Layouts.GetDisplay: returns the display as a value, where the C function returns the address of the display inside the part.
