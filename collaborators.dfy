/**
 * The collaborators the skin builder calls but does not implement: image
 * lookup (`skin_image_find_in`, `skin_image_w/h`, `skin_image_unref`), the
 * optional framebuffer factory and the optional charmap. Reference counts
 * and framebuffer requests are kept in a ghost `Ledger`.
 */
module Collaborators {
  import opened Wrappers
  import opened Geometry

  /** A held reference to a decoded image, named by its file and carrying its pixel size. */
  datatype Image = Image(file: string, size: Size)

  /** A framebuffer handle, recorded as the (width, height, bits per pixel) request that produced it. */
  datatype Framebuffer = Framebuffer(w: int, h: int, bpp: int)

  /** SkinCharmapFuncs: key name to keycode (0 when unknown) and the D-pad-up keycode. */
  datatype Charmap = Charmap(translateName: string -> int, dpadUpKeycode: int)

  /**
   * What the builder is given besides the tree: the directory images are
   * looked up in, the image lookup itself (the size of the image found at
   * directory/file, or nothing), whether a framebuffer factory was passed,
   * and the charmap if one was passed.
   */
  datatype Env = Env(
    basepath: string,
    lookup: (string, string) -> Option<Size>,
    hasFramebufferFactory: bool,
    charmap: Option<Charmap>)

  /** `skin_image_find_in(basepath, file)`: a reference to the image, or nothing when it is not found. */
  function FindImage(env: Env, file: string): (r: Option<Image>)
    ensures r.Some? <==> env.lookup(env.basepath, file).Some?
    ensures r.Some? ==> r.value.file == file && r.value.size == env.lookup(env.basepath, file).value
  {
    match env.lookup(env.basepath, file)
    case None => None
    case Some(size) => Some(Image(file, size))
  }

  /**
   * The resources the skin holds in its collaborators: the image references
   * currently held, and every framebuffer creation and release request in order
   * (a release of a null handle is `None`).
   */
  class Ledger {
    ghost var held: multiset<Image>
    ghost var created: seq<Framebuffer>
    ghost var freed: seq<Option<Framebuffer>>

    constructor ()
      ensures held == multiset{} && created == [] && freed == []
    {
      held, created, freed := multiset{}, [], [];
    }

    /** A successful image lookup takes one reference. */
    ghost method Acquire(img: Image)
      modifies this
      ensures held == old(held) + multiset{img}
      ensures created == old(created) && freed == old(freed)
    {
      held := held + multiset{img};
    }

    /** `skin_image_unref`: gives back one reference, which must be held. */
    ghost method Release(img: Image)
      requires img in held
      modifies this
      ensures held == old(held) - multiset{img}
      ensures created == old(created) && freed == old(freed)
    {
      held := held - multiset{img};
    }

    /** `create_framebuffer(w, h, bpp)`. */
    ghost method CreateFramebuffer(fb: Framebuffer)
      modifies this
      ensures created == old(created) + [fb]
      ensures held == old(held) && freed == old(freed)
    {
      created := created + [fb];
    }

    /** `free_framebuffer(handle)`. */
    ghost method FreeFramebuffer(fb: Option<Framebuffer>)
      modifies this
      ensures freed == old(freed) + [fb]
      ensures held == old(held) && created == old(created)
    {
      freed := freed + [fb];
    }
  }
}
