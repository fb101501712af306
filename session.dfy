/**
 * The editing session of the photo editor (app.js): the live image and
 * filter table, the drawing surface, the gallery list and the store it is
 * persisted in, and the handlers that change them.
 */
module Editor {
  import opened Wrappers
  import opened Filters
  import opened Presets

  /** A decoded image: an opaque handle to its pixels and its intrinsic size. */
  datatype Img = Img(bitmap: nat, width: nat, height: nat)

  /** What the drawing surface shows: nothing, or an image drawn through a filter expression. */
  datatype Surface = Blank | Drawn(img: Img, effects: seq<Effect>)

  /** The PNG encoding of the surface (`canvas.toDataURL`), kept abstract: its size and what it depicts. */
  datatype Blob = Png(width: nat, height: nat, content: Surface)

  /** One saved gallery item: the rendered image and the filter table at the time of saving. */
  datatype Entry = Entry(image: Blob, filters: Table)

  /** What the surface shows after `render` for a given image and table. */
  function Preview(image: Option<Img>, f: Table): (s: Surface)
    ensures image.None? <==> s == Blank
    ensures image.Some? ==> s.img == image.value && |s.effects| == 8
  {
    match image
    case None => Blank
    case Some(img) => Drawn(img, FilterExpr(f))
  }

  /** The gallery read back from the store: a missing key reads as the empty list. */
  function StoredOrEmpty(stored: Option<seq<Entry>>): seq<Entry> {
    stored.GetOr([])
  }

  class Session {
    /** The image being edited (`state.image`), none when the session is empty. */
    var image: Option<Img>
    /** The live filter table (`state.filters`). */
    var filters: Table
    /** The in-memory gallery list (`imgArr`). */
    var gallery: seq<Entry>
    /** The persisted gallery under the store's fixed key; none when the key is missing. */
    var stored: Option<seq<Entry>>
    /** The size of the drawing surface. */
    var canvasW: nat
    var canvasH: nat
    /** What the drawing surface shows. */
    var surface: Surface

    /**
     * Everything the session invariant asks except that a loaded image is on
     * the surface: the table is complete, the surface has the loaded image's
     * size and is blank when no image is loaded, and the gallery list mirrors
     * the store. Every handler keeps this; `render` then completes it.
     */
    ghost predicate Consistent()
      reads this
    {
      && Shaped(filters)
      && (image.Some? ==> canvasW == image.value.width && canvasH == image.value.height)
      && (image.None? ==> surface == Blank)
      && gallery == StoredOrEmpty(stored)
    }

    /** The session invariant: consistent, and the surface shows the preview of the current state. */
    ghost predicate Valid()
      reads this
    {
      Consistent() && surface == Preview(image, filters)
    }

    /** The session is empty: no image, the default table, a blank surface. */
    ghost predicate Cleared()
      reads this
    {
      image == None && filters == InitialFilters && surface == Blank
    }

    /**
     * Program start: an empty session with the default table, a blank surface of
     * the page's initial size, and the gallery loaded from the store.
     */
    constructor (saved: Option<seq<Entry>>, width: nat, height: nat)
      ensures Valid() && Cleared()
      ensures stored == saved && gallery == StoredOrEmpty(saved)
      ensures canvasW == width && canvasH == height
    {
      DefaultTable();
      image := None;
      filters := InitialFilters;
      surface := Blank;
      canvasW, canvasH := width, height;
      stored := saved;
      gallery := StoredOrEmpty(saved);
    }

    /**
     * `loadState`: reloads the gallery list from the store. On a valid session
     * the list already mirrors the store, so a second call changes nothing.
     */
    method LoadState()
      modifies this`gallery
      ensures gallery == StoredOrEmpty(stored)
      ensures old(Valid()) ==> gallery == old(gallery) && Valid()
    {
      gallery := StoredOrEmpty(stored);
    }

    /**
     * `render`: with no image, nothing happens; otherwise the surface shows the
     * image drawn through the filter expression of the current table.
     */
    method Render()
      requires Consistent()
      modifies this`surface
      ensures Valid()
      ensures image.None? ==> surface == old(surface)
      ensures image.Some? ==> surface == Drawn(image.value, FilterExpr(filters))
    {
      if image.None? {
        return;
      }
      surface := Blank;  // the clear that precedes the draw
      surface := Drawn(image.value, FilterExpr(filters));
    }

    /**
     * The slider handler: parameter `name` takes value `v`, unclamped; every
     * other parameter, the bounds and unit of `name`, the image and the gallery
     * stay as they were, and the preview follows.
     */
    method SliderInput(name: Param, v: int)
      requires Valid()
      modifies this`filters, this`surface
      ensures Valid()
      ensures filters.Get(name) == old(filters.Get(name)).(value := v)
      ensures forall q :: q != name ==> filters.Get(q) == old(filters.Get(q))
    {
      filters := SetValue(filters, name, v);
      Render();
    }

    /**
     * The loop of the preset handler: assigns, key by key in the preset's
     * order, the preset's value to the parameter it names.
     */
    method ApplyPreset(preset: Preset)
      modifies this`filters
      ensures forall p :: filters.Get(p) == old(filters.Get(p)).(value := Lookup(preset, p).GetOr(old(filters.Get(p).value)))
    {
      var i := 0;
      while i < |preset|
        invariant 0 <= i <= |preset|
        invariant filters == Overlay(old(filters), preset[..i])
      {
        assert preset[..i + 1][..i] == preset[..i];
        filters := SetValue(filters, preset[i].param, preset[i].value);
        i := i + 1;
      }
      assert preset[..i] == preset;
    }

    /**
     * The preset handler: an unknown name changes nothing; a known preset
     * gives every parameter the preset's value and keeps every bound and unit.
     * The image and the gallery are untouched, and the preview follows.
     */
    method PresetClicked(name: string)
      requires Valid()
      modifies this`filters, this`surface
      ensures Valid()
      ensures ParseName(name).None? ==> filters == old(filters) && surface == old(surface)
      ensures ParseName(name).Some? ==> forall p ::
        var preset := PresetValues(ParseName(name).value);
        Lookup(preset, p).Some? && filters.Get(p) == old(filters.Get(p)).(value := Lookup(preset, p).value)
    {
      var known := ParseName(name);
      if known.None? {
        return;
      }
      var preset := PresetValues(known.value);
      ApplyPreset(preset);
      forall p ensures Lookup(preset, p).Some? {
        KnownPresetSetsEveryParam(known.value, p);
      }
      Render();
    }

    /**
     * `img.onload`: the decoded image becomes the session's image and the surface
     * takes its size (which blanks it) before the image is rendered. The filter
     * table is kept, so a second image is shown with the current settings.
     */
    method ImageLoaded(img: Img)
      requires Valid()
      modifies this`image, this`canvasW, this`canvasH, this`surface
      ensures Valid()
      ensures image == Some(img) && canvasW == img.width && canvasH == img.height
      ensures surface == Drawn(img, FilterExpr(filters))
    {
      image := Some(img);
      canvasW := img.width;
      canvasH := img.height;
      surface := Blank;
      Render();
    }

    /**
     * `saveState`: with no image, nothing happens. Otherwise the encoded surface
     * and the table as it stood are appended to the list read back from the
     * store, the list is written back, and the session is cleared.
     */
    method SaveState()
      requires Valid()
      modifies this`image, this`filters, this`surface, this`gallery, this`stored
      ensures Valid()
      ensures old(image).None? ==>
        image == old(image) && filters == old(filters) && surface == old(surface)
        && gallery == old(gallery) && stored == old(stored)
      ensures old(image).Some? ==>
        && gallery == old(gallery) + [Entry(Png(canvasW, canvasH, old(surface)), old(filters))]
        && stored == Some(gallery)
        && Cleared()
      ensures old(image).Some? ==>
        gallery[|gallery| - 1].image == Png(old(image).value.width, old(image).value.height,
                                            Drawn(old(image).value, FilterExpr(old(filters))))
    {
      if image.None? {
        return;
      }
      DefaultTable();
      var dataURL := Png(canvasW, canvasH, surface);
      var payload := Entry(dataURL, filters);
      gallery := StoredOrEmpty(stored);
      gallery := gallery + [payload];
      stored := Some(gallery);
      image := None;
      filters := InitialFilters;
      surface := Blank;
    }

    /**
     * The reset handler: the session is cleared and the gallery kept. The second
     * postcondition follows from the first (a cleared session is reset to itself)
     * and is stated only to make idempotence explicit.
     */
    method Reset()
      requires Valid()
      modifies this`image, this`filters, this`surface
      ensures Valid() && Cleared()
      ensures old(Cleared()) ==> image == old(image) && filters == old(filters) && surface == old(surface)
    {
      image := None;
      filters := InitialFilters;
      surface := Blank;
      DefaultTable();
    }

    /**
     * The download handler: with no image there is nothing to offer; otherwise
     * it offers the encoded surface, which shows the image through the current
     * filter expression.
     */
    method Download() returns (href: Option<Blob>)
      requires Valid()
      ensures href.None? <==> image.None?
      ensures href.Some? ==> href.value == Png(image.value.width, image.value.height,
                                               Drawn(image.value, FilterExpr(filters)))
    {
      if image.None? {
        return None;
      }
      href := Some(Png(canvasW, canvasH, surface));
    }

    /**
     * `loadImageFromGallery`: looks the entry up and builds an image from its
     * blob, which is then dropped; the session is never changed.
     */
    method LoadImageFromGallery(index: int) returns (decoded: Option<Blob>)
      ensures decoded.Some? <==> 0 <= index < |gallery|
      ensures decoded.Some? ==> decoded.value == gallery[index].image
    {
      if !(0 <= index < |gallery|) {
        return None;
      }
      var item := gallery[index];
      decoded := Some(item.image);
    }
  }
}
