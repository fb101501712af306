/**
 * The named presets (app.js lines 36-47) and what applying one does to a
 * filter table (app.js lines 118-120).
 */
module Presets {
  import opened Wrappers
  import opened Filters

  /** One `key: value` pair of a preset. */
  datatype Setting = Setting(param: Param, value: int)

  /** A preset: its pairs in the order the preset object lists its keys. */
  type Preset = seq<Setting>

  /** The ten presets, in the order their buttons are created. */
  datatype PresetName = Normal | Vintage | Bw | Cold | Warm | Dramatic | Faded | Soft | Neon | InvertColors

  /** The key of a preset in the table, which is also its button's label and data attribute. */
  function NameText(n: PresetName): string {
    match n
    case Normal => "normal"
    case Vintage => "vintage"
    case Bw => "bw"
    case Cold => "cold"
    case Warm => "warm"
    case Dramatic => "dramatic"
    case Faded => "faded"
    case Soft => "soft"
    case Neon => "neon"
    case InvertColors => "invertColors"
  }

  /** The preset a key names, if any: the lookup `PRESETS[key]`, whose values are `PresetValues`. */
  function ParseName(key: string): Option<PresetName> {
    match key
    case "normal" => Some(Normal)
    case "vintage" => Some(Vintage)
    case "bw" => Some(Bw)
    case "cold" => Some(Cold)
    case "warm" => Some(Warm)
    case "dramatic" => Some(Dramatic)
    case "faded" => Some(Faded)
    case "soft" => Some(Soft)
    case "neon" => Some(Neon)
    case "invertColors" => Some(InvertColors)
    case _ => None
  }

  /** The values of a preset, in the order its object lists them. */
  function PresetValues(n: PresetName): Preset {
    match n
    case Normal =>
      [Setting(Brightness, 100), Setting(Contrast, 100), Setting(Saturation, 100), Setting(HueRotation, 0),
       Setting(Blur, 0), Setting(Grayscale, 0), Setting(Sepia, 0), Setting(Invert, 0)]
    case Vintage =>
      [Setting(Brightness, 110), Setting(Contrast, 120), Setting(Saturation, 90), Setting(HueRotation, 10),
       Setting(Blur, 1), Setting(Grayscale, 10), Setting(Sepia, 30), Setting(Invert, 0)]
    case Bw =>
      [Setting(Brightness, 120), Setting(Contrast, 140), Setting(Saturation, 0), Setting(HueRotation, 0),
       Setting(Blur, 0), Setting(Grayscale, 100), Setting(Sepia, 0), Setting(Invert, 0)]
    case Cold =>
      [Setting(Brightness, 95), Setting(Contrast, 110), Setting(Saturation, 80), Setting(HueRotation, 200),
       Setting(Blur, 0), Setting(Grayscale, 0), Setting(Sepia, 0), Setting(Invert, 0)]
    case Warm =>
      [Setting(Brightness, 105), Setting(Contrast, 110), Setting(Saturation, 120), Setting(HueRotation, 20),
       Setting(Blur, 0), Setting(Grayscale, 0), Setting(Sepia, 10), Setting(Invert, 0)]
    case Dramatic =>
      [Setting(Brightness, 90), Setting(Contrast, 150), Setting(Saturation, 130), Setting(HueRotation, 0),
       Setting(Blur, 0), Setting(Grayscale, 0), Setting(Sepia, 0), Setting(Invert, 0)]
    case Faded =>
      [Setting(Brightness, 115), Setting(Contrast, 80), Setting(Saturation, 70), Setting(HueRotation, 0),
       Setting(Blur, 0), Setting(Grayscale, 0), Setting(Sepia, 20), Setting(Invert, 0)]
    case Soft =>
      [Setting(Brightness, 110), Setting(Contrast, 95), Setting(Saturation, 90), Setting(HueRotation, 0),
       Setting(Blur, 2), Setting(Grayscale, 0), Setting(Sepia, 0), Setting(Invert, 0)]
    case Neon =>
      [Setting(Brightness, 105), Setting(Contrast, 160), Setting(Saturation, 200), Setting(HueRotation, 90),
       Setting(Blur, 0), Setting(Grayscale, 0), Setting(Sepia, 0), Setting(Invert, 0)]
    case InvertColors =>
      [Setting(Brightness, 100), Setting(Contrast, 100), Setting(Saturation, 100), Setting(HueRotation, 0),
       Setting(Blur, 0), Setting(Grayscale, 0), Setting(Sepia, 0), Setting(Invert, 100)]
  }

  /** The keys of a preset, in order (`Object.keys(preset)`). */
  function Keys(ps: Preset): seq<Param> {
    seq(|ps|, i requires 0 <= i < |ps| => ps[i].param)
  }

  /**
   * The value a preset gives parameter `p`, if it names `p`; a later pair for
   * the same key wins, as the last assignment of the loop over the keys does.
   */
  function Lookup(ps: Preset, p: Param): Option<int>
  {
    if ps == [] then None
    else if ps[|ps| - 1].param == p then Some(ps[|ps| - 1].value)
    else Lookup(ps[..|ps| - 1], p)
  }

  /**
   * `Lookup` finds a value exactly when the preset names the key, and the value
   * it finds is the one paired with the key's last occurrence.
   */
  lemma {:induction false} LookupFindsLastPair(ps: Preset, p: Param)
    ensures Lookup(ps, p).None? <==> forall i :: 0 <= i < |ps| ==> ps[i].param != p
    ensures Lookup(ps, p).Some? ==> exists i :: 0 <= i < |ps| && ps[i] == Setting(p, Lookup(ps, p).value)
                                               && forall j :: i < j < |ps| ==> ps[j].param != p
  {
    if ps != [] && ps[|ps| - 1].param != p {
      var init := ps[..|ps| - 1];
      LookupFindsLastPair(init, p);
      if Lookup(ps, p).Some? {
        var i :| 0 <= i < |init| && init[i] == Setting(p, Lookup(init, p).value)
                 && forall j :: i < j < |init| ==> init[j].param != p;
        assert ps[i] == init[i];
      }
    }
  }

  /**
   * The table after the loop of the preset handler has assigned, key by key,
   * the preset's value to each parameter it names: those parameters take the
   * preset's value, every other entry and every bound and unit stay as they were.
   */
  function Overlay(f: Table, ps: Preset): (r: Table)
    ensures forall p :: r.Get(p) == f.Get(p).(value := Lookup(ps, p).GetOr(f.Get(p).value))
    decreases |ps|
  {
    if ps == [] then f
    else
      var last := ps[|ps| - 1];
      SetValue(Overlay(f, ps[..|ps| - 1]), last.param, last.value)
  }

  /** Applying the same preset twice gives the table that applying it once gives. */
  lemma OverlayIdempotent(f: Table, ps: Preset)
    ensures Overlay(Overlay(f, ps), ps) == Overlay(f, ps)
  {
    var once := Overlay(f, ps);
    var twice := Overlay(once, ps);
    forall p: Param ensures twice.Get(p) == once.Get(p) {
      if Lookup(ps, p).None? {
        assert twice.Get(p) == once.Get(p).(value := once.Get(p).value);
      }
    }
    SameEntries(twice, once);
  }

  /** Every key of the table names its own preset, and nothing else is a key. */
  lemma ParseNameInvertsNameText(key: string, n: PresetName)
    ensures ParseName(NameText(n)) == Some(n)
    ensures ParseName(key) == Some(n) ==> key == NameText(n)
  {
  }

  /** Every preset names exactly the eight parameters, once each, in the order of the default table. */
  lemma PresetsNameEveryParam()
    ensures forall n :: Keys(PresetValues(n)) == ParamOrder
  {
    forall n ensures Keys(PresetValues(n)) == ParamOrder {
      match n
      case Normal => case Vintage => case Bw => case Cold => case Warm =>
      case Dramatic => case Faded => case Soft => case Neon => case InvertColors =>
    }
  }

  /** Every value of a preset lies within the bounds the default table gives its parameter. */
  predicate PresetWithinBounds(ps: Preset) {
    forall i :: 0 <= i < |ps| ==> SettingWithinBounds(ps[i])
  }

  /** A setting's value lies within the bounds the default table gives its parameter. */
  predicate SettingWithinBounds(s: Setting) {
    InitialFilters.Get(s.param).min <= s.value <= InitialFilters.Get(s.param).max
  }

  /** Every preset value lies within the bounds the default table gives its parameter. */
  lemma PresetsWithinBounds()
    ensures forall n :: PresetWithinBounds(PresetValues(n))
  {
    forall n, i | 0 <= i < |PresetValues(n)| ensures SettingWithinBounds(PresetValues(n)[i]) {
      match n
      case Normal => case Vintage => case Bw => case Cold => case Warm =>
      case Dramatic => case Faded => case Soft => case Neon => case InvertColors =>
    }
  }

  /** A known preset gives every parameter a value. */
  lemma KnownPresetSetsEveryParam(n: PresetName, p: Param)
    ensures Lookup(PresetValues(n), p).Some?
  {
    PresetsNameEveryParam();
    assert Keys(PresetValues(n))[KeyIndex(p)] == p;
    LookupFindsLastPair(PresetValues(n), p);
  }

  /** Applying a known preset to a table with the default bounds leaves every value within bounds. */
  lemma KnownPresetKeepsBounds(f: Table, n: PresetName)
    requires Shaped(f)
    ensures Shaped(Overlay(f, PresetValues(n))) && WithinBounds(Overlay(f, PresetValues(n)))
  {
    var ps := PresetValues(n);
    var r := Overlay(f, ps);
    forall p: Param ensures r.Get(p).min <= r.Get(p).value <= r.Get(p).max {
      KnownPresetSetsEveryParam(n, p);
      LookupFindsLastPair(ps, p);
      var i :| 0 <= i < |ps| && ps[i] == Setting(p, Lookup(ps, p).value);
      PresetsWithinBounds();
      assert PresetWithinBounds(ps);
      assert InitialFilters.Get(p).min <= ps[i].value <= InitialFilters.Get(p).max;
    }
  }

  /** In a preset that names each key once, the value looked up for a key is the one paired with it. */
  lemma LookupDistinct(ps: Preset, i: nat)
    requires i < |ps|
    requires forall j, k :: 0 <= j < k < |ps| ==> ps[j].param != ps[k].param
    ensures Lookup(ps, ps[i].param) == Some(ps[i].value)
  {
    var r := Lookup(ps, ps[i].param);
    LookupFindsLastPair(ps, ps[i].param);
    var k :| 0 <= k < |ps| && ps[k] == Setting(ps[i].param, r.value)
             && forall j :: k < j < |ps| ==> ps[j].param != ps[i].param;
  }

  /** Whatever the table before, applying "vintage" sets brightness to 110 and invert to 0. */
  lemma VintageScenario(f: Table)
    ensures Overlay(f, PresetValues(Vintage)).Get(Brightness).value == 110
    ensures Overlay(f, PresetValues(Vintage)).Get(Invert).value == 0
  {
    var ps := PresetValues(Vintage);
    assert ps[0] == Setting(Brightness, 110) && ps[7] == Setting(Invert, 0);
    PresetsNameEveryParam();
    ParamOrderListsEachOnce();
    assert Keys(ps) == ParamOrder;
    LookupDistinct(ps, 0);
    LookupDistinct(ps, 7);
  }

  /** The "normal" preset turns any table with the default bounds and units back into the default table. */
  lemma NormalRestoresDefaults(f: Table)
    requires Shaped(f)
    ensures Overlay(f, PresetValues(Normal)) == InitialFilters
  {
    var ps := PresetValues(Normal);
    var r := Overlay(f, ps);
    PresetsNameEveryParam();
    ParamOrderListsEachOnce();
    DefaultTable();
    assert Keys(ps) == ParamOrder;
    forall p: Param ensures r.Get(p) == InitialFilters.Get(p) {
      var i := KeyIndex(p);
      LookupDistinct(ps, i);
      assert ps[i] == Setting(p, InitialFilters.Get(p).value) by {
        match p
        case Brightness => case Contrast => case Saturation => case HueRotation =>
        case Blur => case Grayscale => case Sepia => case Invert =>
      }
    }
    SameEntries(r, InitialFilters);
  }
}
