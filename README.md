# Photo editor editing session

This project models the editing session of a browser photo-filter editor (`app.js`).

The session holds:
- an optional image;
- a table of eight filter parameters, each with a value, slider bounds and a unit;
- a drawing surface;
- a gallery of saved edits, persisted in browser storage under one key.

The handlers change the session:
- a slider sets one parameter's value;
- a preset button overwrites every value with a named preset's values;
- loading an image resizes the surface to the image and draws it;
- saving appends the rendered image and the current table to the gallery, then clears the session;
- reset clears the session;
- download offers the encoded surface.

`render` draws the image through a filter expression. The expression is a fixed sequence of eight primitive effects, each carrying the current value of its parameter.

Files:
- `wrappers.dfy`: `Option`.
- `filters.dfy` (module `Filters`):
  - the parameter datatype and the default table;
  - the single-value update `SetValue`;
  - the filter expression `FilterExpr`.
- `presets.dfy` (module `Presets`):
  - the ten presets, as sequences of key/value pairs in the order their object lists them;
  - the key lookup `ParseName`;
  - `Overlay`, the table the preset loop leaves behind.
- `session.dfy` (module `Editor`): the class `Session`.
  - Its fields are the image, the table, the gallery list, the stored gallery, the canvas size and the surface.
  - Each handler is a method with a `modifies` frame.
  - The preset loop is a `while` loop proved against `Overlay`.

The session invariant `Valid()` says:
- the table keeps the default bounds and units;
- the canvas has the size of the loaded image;
- the surface is blank without an image and otherwise shows the image through `FilterExpr` of the current table;
- the in-memory gallery equals what the store holds, with a missing key read as the empty list.

Two facts about the code shape the model:
- Values are never clamped. A slider value and a preset value are stored as given. The only bound-related facts are that the default and preset data lie within bounds, proved as lemmas.
- Reading the store turns any falsy parsed value (a missing key, or a stored `null`, `false`, `0` or `""`) into the empty list. The model represents only a missing key or a list.

## Model

| member | source | states |
|---|---|---|
| Filters.DefaultTable | app.js:4-13 | The default table keeps its own bounds and units. Brightness, contrast and saturation default to 100, every other parameter to 0, and every default lies within its parameter's [min, max]. |
| Filters.ParamOrderListsEachOnce | app.js:4-13 | The table's key order has eight entries and lists every parameter exactly once. |
| Filters.SetValue | app.js:90 | The slider assignment sets the named parameter's value to `v` and keeps its min, max and unit. Every other parameter is unchanged, the default bounds and units are preserved, and there is no clamping. |
| Filters.Table.With | app.js:90 | Replacing one parameter's entry changes that entry only. |
| Filters.SetValueUndo | app.js:90 | Setting a parameter back to its previous value restores the original table exactly. |
| Filters.SetValueLastWins | app.js:90 | Of two successive assignments to the same parameter only the last one is visible. |
| Filters.FilterExprComposition | app.js:56-65 | The expression has exactly eight effects, in the order brightness, contrast, saturate, blur, grayscale, sepia, invert, hue-rotate. Each effect carries the current value of the parameter that drives it; saturation drives saturate and hueRotation drives hue-rotate. |
| Filters.CompositionCoversEachParamOnce | app.js:56-65 | Every parameter drives exactly one effect, and no two effects share a name. |
| Filters.FilterExprUnits | app.js:56-65 | The units are %, %, %, px, %, %, %, deg: the units the default table declares, and so each parameter's stored unit in a table with the default units. |
| Filters.FilterExprUnitTexts | app.js:57-64 | The template writes the units after the values as %, %, %, px, %, %, %, deg, in the order of the effects. |
| Filters.FilterExprDeterminesValues | app.js:56-65 | Two tables give the same expression if and only if all eight values agree. |
| Presets.ParseNameInvertsNameText | app.js:115 | Each preset key looks up its own preset, and only those ten keys name a preset. |
| Presets.PresetsNameEveryParam | app.js:36-47 | Every preset names exactly the eight parameters, once each, in the key order of the default table. |
| Presets.PresetsWithinBounds | app.js:36-47 | Every preset value lies within the [min, max] the default table gives its parameter. |
| Presets.KnownPresetSetsEveryParam | app.js:36-47 | Every known preset gives every parameter a value. |
| Presets.LookupFindsLastPair | app.js:118-120 | The value the loop leaves for a key is found if and only if the preset names the key, and it is the value paired with the key's last occurrence. |
| Presets.LookupDistinct | app.js:118-120 | When a preset names each key once, the value left for a key is the one paired with it. |
| Presets.Overlay | app.js:118-120 | After the loop, each parameter named by the preset holds the preset's value. Every other value, and every min, max and unit, is unchanged. |
| Presets.OverlayIdempotent | app.js:118-120 | Applying the same preset twice leaves the same table as applying it once. |
| Presets.KnownPresetKeepsBounds | app.js:114-120 | Applying a known preset to a table with the default bounds keeps those bounds and units and leaves every value within bounds. |
| Presets.VintageScenario | app.js:38 | Applying "vintage" to any table sets brightness to 110 and invert to 0. |
| Presets.NormalRestoresDefaults | app.js:37 | Applying "normal" to a table with the default bounds and units gives exactly the default table. |
| Editor.Preview | app.js:52-67 | Without an image the surface is blank. With one, it shows that image through an eight-effect expression. |
| Editor.Session.constructor | app.js:15-18 | At start the session has no image, the default table and a blank surface, and the gallery list is loaded from the store. |
| Editor.Session.LoadState | app.js:214-217 | The gallery list is reloaded from the store. On a valid session this changes nothing, so a second load is harmless. |
| Editor.Session.Render | app.js:52-67 | With no image the surface is unchanged. Otherwise the surface shows the image drawn through `FilterExpr` of the current table. The session invariant holds afterwards. |
| Editor.Session.SliderInput | app.js:89-93 | Only the named parameter's value changes, to the given unclamped value. Every other parameter, the image and the gallery are unchanged, and the preview follows. |
| Editor.Session.ApplyPreset | app.js:118-120 | The key-by-key loop leaves every parameter the preset names with the preset's value and every other entry unchanged. Bounds and units never change. |
| Editor.Session.PresetClicked | app.js:114-124 | An unknown preset name changes nothing. A known preset sets every parameter's value to the preset's value and keeps every min, max and unit. The image and gallery are untouched, and the preview follows. |
| Editor.Session.ImageLoaded | app.js:160-164 | The image is set, the canvas takes its width and height, and the table is kept. The surface shows the new image through the current expression. |
| Editor.Session.SaveState | app.js:189-211 | With no image nothing changes. Otherwise the gallery grows by exactly one entry at the end: the encoded rendered image and the pre-save table. The store holds the new list, and the session is cleared to no image and the default table. |
| Editor.Session.Reset | app.js:241-247 | The image is cleared and the table returns to the defaults. The gallery is unchanged. Resetting a cleared session changes nothing, so reset is idempotent. |
| Editor.Session.Download | app.js:228-234 | Nothing is offered if and only if no image is loaded. Otherwise the offered image is the encoding of the image drawn through the current expression, at the image's size. |
| Editor.Session.LoadImageFromGallery | app.js:220-227 | An entry is decoded if and only if the index names an existing entry. The session is never changed, whatever the index. |

## Left out

- DOM construction and syncing are pure UI and are not modelled: `createFilter`'s elements, `syncUI`, `updatePlaceholder`, `showSavedImages` and the preset buttons.
- Pixel work is not modelled: the canvas filter, `drawImage` and `clearRect`. The surface is modelled as "blank" or "this image drawn through this effect list".
- PNG encoding (`canvas.toDataURL`) is an opaque value that records the surface's size and content.
- Browser storage and JSON are a field holding an optional list of entries. Serialising and parsing are taken to round-trip, a failing `setItem` (quota) is not modelled, and other stored data is not modelled. Stored text that is not JSON makes `JSON.parse` throw. Stored JSON that is truthy but not a list makes `forEach` or `push` throw. A stored falsy value reads as the empty list, as a missing key does.
- The file-input event, asynchronous decoding and object URLs are not modelled. Only the body of `img.onload` is modelled, as one atomic step.
- The download anchor and its click are browser I/O. `Download` returns the data it would link to.
- `LoadImageFromGallery`: the `Image` the source builds from the entry is modelled as the entry's blob, returned; the source drops it.
- The canvas's initial size comes from the page markup, which is not part of this model; the constructor takes it as parameters.
- Editor.Session.SliderInput: takes any integer, while the browser's range input itself only reports values within its min and max. That clamping belongs to the browser, not the editor, and is not modelled.
- Editor.Session.PresetClicked: models the lookup as the ten preset keys or nothing. A name the preset object inherits (such as "toString") yields an object with no own keys. The loop then assigns nothing and render redraws the same picture, so it changes nothing, as an unknown name does.
