/**
 * The fixed filter table of the editing session (app.js lines 4-13) and the
 * filter expression that `render` composes from it (app.js lines 56-65).
 */
module Filters {

  /** The eight filter parameters; the order of the constructors is the key order of the default table. */
  datatype Param = Brightness | Contrast | Saturation | HueRotation | Blur | Grayscale | Sepia | Invert

  /** The units the table declares. */
  datatype Unit = Percent | Degrees | Pixels

  /** How a unit is written after a value. */
  function UnitText(u: Unit): string {
    match u
    case Percent => "%"
    case Degrees => "deg"
    case Pixels => "px"
  }

  /** One parameter's current value, the bounds of its slider and the unit shown beside it. */
  datatype FilterConfig = FilterConfig(value: int, min: int, max: int, unit: Unit)

  /**
   * A filter table: one entry per parameter. The set of keys is fixed, so the
   * table is a record with one field per key.
   */
  datatype Table = Table(
    brightness: FilterConfig, contrast: FilterConfig, saturation: FilterConfig, hueRotation: FilterConfig,
    blur: FilterConfig, grayscale: FilterConfig, sepia: FilterConfig, invert: FilterConfig)
  {
    /** The entry of parameter `p` (`filters[p]`). */
    function Get(p: Param): FilterConfig {
      match p
      case Brightness => brightness
      case Contrast => contrast
      case Saturation => saturation
      case HueRotation => hueRotation
      case Blur => blur
      case Grayscale => grayscale
      case Sepia => sepia
      case Invert => invert
    }

    /** The table with the entry of `p` replaced by `c`; every other entry is kept. */
    function With(p: Param, c: FilterConfig): (r: Table)
      ensures r.Get(p) == c
      ensures forall q :: q != p ==> r.Get(q) == Get(q)
    {
      match p
      case Brightness => this.(brightness := c)
      case Contrast => this.(contrast := c)
      case Saturation => this.(saturation := c)
      case HueRotation => this.(hueRotation := c)
      case Blur => this.(blur := c)
      case Grayscale => this.(grayscale := c)
      case Sepia => this.(sepia := c)
      case Invert => this.(invert := c)
    }
  }

  /** One primitive effect of the filter expression: `name(value unit)`. */
  datatype Effect = Effect(name: string, value: int, unit: Unit)

  /** The key order of the default table (and of every preset). */
  const ParamOrder: seq<Param> :=
    [Brightness, Contrast, Saturation, HueRotation, Blur, Grayscale, Sepia, Invert]

  /** The order in which the filter expression composes the effects. */
  const CompositionOrder: seq<Param> :=
    [Brightness, Contrast, Saturation, Blur, Grayscale, Sepia, Invert, HueRotation]

  /** The default table (`initialFilters`): neutral values, the slider bounds and the units. */
  const InitialFilters: Table := Table(
    brightness  := FilterConfig(100, 0, 200, Percent),
    contrast    := FilterConfig(100, 0, 200, Percent),
    saturation  := FilterConfig(100, 0, 200, Percent),
    hueRotation := FilterConfig(0, 0, 360, Degrees),
    blur        := FilterConfig(0, 0, 300, Pixels),
    grayscale   := FilterConfig(0, 0, 100, Percent),
    sepia       := FilterConfig(0, 0, 100, Percent),
    invert      := FilterConfig(0, 0, 100, Percent))

  /**
   * A table whose bounds and units are those of the default table: the editor
   * only ever writes values, never bounds or units.
   */
  predicate Shaped(f: Table) {
    forall p: Param :: f.Get(p).min == InitialFilters.Get(p).min && f.Get(p).max == InitialFilters.Get(p).max
                      && f.Get(p).unit == InitialFilters.Get(p).unit
  }

  /** Two tables with the same entry for every parameter are the same table. */
  lemma SameEntries(f: Table, g: Table)
    requires forall p: Param :: f.Get(p) == g.Get(p)
    ensures f == g
  {
    assert f.brightness == g.Get(Brightness) && f.contrast == g.Get(Contrast);
    assert f.saturation == g.Get(Saturation) && f.hueRotation == g.Get(HueRotation);
    assert f.blur == g.Get(Blur) && f.grayscale == g.Get(Grayscale);
    assert f.sepia == g.Get(Sepia) && f.invert == g.Get(Invert);
  }

  /** Every parameter's value lies within its bounds (a fact about data, never enforced by the editor). */
  predicate WithinBounds(f: Table) {
    forall p: Param :: f.Get(p).min <= f.Get(p).value <= f.Get(p).max
  }

  /** The default table is shaped, neutral, and every default lies within its bounds. */
  lemma DefaultTable()
    ensures Shaped(InitialFilters) && WithinBounds(InitialFilters)
    ensures forall p :: InitialFilters.Get(p).value == (if p == Brightness || p == Contrast || p == Saturation then 100 else 0)
  {
    forall p: Param
      ensures InitialFilters.Get(p).min <= InitialFilters.Get(p).value <= InitialFilters.Get(p).max
      ensures InitialFilters.Get(p).value == (if p == Brightness || p == Contrast || p == Saturation then 100 else 0)
    {
      match p
      case Brightness => case Contrast => case Saturation => case HueRotation =>
      case Blur => case Grayscale => case Sepia => case Invert =>
    }
  }

  /** Where a parameter stands in the key order of the default table. */
  function KeyIndex(p: Param): (i: nat)
    ensures i < |ParamOrder| && ParamOrder[i] == p
  {
    match p
    case Brightness => 0
    case Contrast => 1
    case Saturation => 2
    case HueRotation => 3
    case Blur => 4
    case Grayscale => 5
    case Sepia => 6
    case Invert => 7
  }

  /** The key order lists each parameter exactly once. */
  lemma ParamOrderListsEachOnce()
    ensures |ParamOrder| == 8
    ensures forall p: Param :: p in ParamOrder
    ensures forall i, j :: 0 <= i < j < |ParamOrder| ==> ParamOrder[i] != ParamOrder[j]
  {
    forall p: Param ensures p in ParamOrder {
      assert ParamOrder[KeyIndex(p)] == p;
    }
  }

  /**
   * Stores `v` as the value of parameter `p` (`state.filters[name].value = v`),
   * with no clamping: nothing else in the table changes.
   */
  function SetValue(f: Table, p: Param, v: int): (r: Table)
    ensures r.Get(p) == f.Get(p).(value := v)
    ensures forall q :: q != p ==> r.Get(q) == f.Get(q)
    ensures Shaped(f) ==> Shaped(r)
  {
    f.With(p, f.Get(p).(value := v))
  }

  /** Moving a slider back to where it was restores the table exactly. */
  lemma SetValueUndo(f: Table, p: Param, v: int)
    ensures SetValue(SetValue(f, p, v), p, f.Get(p).value) == f
  {
    var r := SetValue(SetValue(f, p, v), p, f.Get(p).value);
    forall q: Param ensures r.Get(q) == f.Get(q) {
      if q != p {
        assert SetValue(f, p, v).Get(q) == f.Get(q);
      }
    }
    SameEntries(r, f);
  }

  /** Of two slider moves on the same parameter only the last one counts. */
  lemma SetValueLastWins(f: Table, p: Param, v: int, w: int)
    ensures SetValue(SetValue(f, p, v), p, w) == SetValue(f, p, w)
  {
    var r, s := SetValue(SetValue(f, p, v), p, w), SetValue(f, p, w);
    forall q: Param ensures r.Get(q) == s.Get(q) {
      if q != p {
        assert SetValue(f, p, v).Get(q) == f.Get(q);
      }
    }
    SameEntries(r, s);
  }

  /** The name of the primitive effect a parameter drives. */
  function EffectName(p: Param): string {
    match p
    case Brightness => "brightness"
    case Contrast => "contrast"
    case Saturation => "saturate"
    case HueRotation => "hue-rotate"
    case Blur => "blur"
    case Grayscale => "grayscale"
    case Sepia => "sepia"
    case Invert => "invert"
  }

  /** Where a parameter stands in the composition order. */
  function CompositionIndex(p: Param): (i: nat)
    ensures i < |CompositionOrder| && CompositionOrder[i] == p
  {
    match p
    case Brightness => 0
    case Contrast => 1
    case Saturation => 2
    case Blur => 3
    case Grayscale => 4
    case Sepia => 5
    case Invert => 6
    case HueRotation => 7
  }

  /**
   * The filter expression `render` assigns to the drawing context: one effect
   * per parameter, each with the current value of its parameter and the unit
   * written in the template.
   */
  function FilterExpr(f: Table): seq<Effect> {
    [ Effect("brightness", f.brightness.value, Percent),
      Effect("contrast", f.contrast.value, Percent),
      Effect("saturate", f.saturation.value, Percent),
      Effect("blur", f.blur.value, Pixels),
      Effect("grayscale", f.grayscale.value, Percent),
      Effect("sepia", f.sepia.value, Percent),
      Effect("invert", f.invert.value, Percent),
      Effect("hue-rotate", f.hueRotation.value, Degrees) ]
  }

  /**
   * The expression composes exactly eight effects in the fixed composition
   * order (brightness, contrast, saturate, blur, grayscale, sepia, invert,
   * hue-rotate), each carrying the current value of the parameter that drives it.
   */
  lemma FilterExprComposition(f: Table)
    ensures |FilterExpr(f)| == |CompositionOrder| == 8
    ensures forall i :: 0 <= i < |FilterExpr(f)| ==>
      FilterExpr(f)[i].name == EffectName(CompositionOrder[i]) && FilterExpr(f)[i].value == f.Get(CompositionOrder[i]).value
  {
  }

  /** Each parameter drives exactly one effect of the expression, and no two effects share a name. */
  lemma CompositionCoversEachParamOnce()
    ensures forall p: Param :: p in CompositionOrder
    ensures forall i, j :: 0 <= i < j < |CompositionOrder| ==>
      CompositionOrder[i] != CompositionOrder[j] && EffectName(CompositionOrder[i]) != EffectName(CompositionOrder[j])
  {
    forall p: Param ensures p in CompositionOrder {
      assert CompositionOrder[CompositionIndex(p)] == p;
    }
  }

  /**
   * The units written in the expression are the units the default table
   * declares, and so, for a shaped table, each parameter's own stored unit.
   */
  lemma FilterExprUnits(f: Table)
    ensures forall i :: 0 <= i < |FilterExpr(f)| ==> FilterExpr(f)[i].unit == InitialFilters.Get(CompositionOrder[i]).unit
    ensures Shaped(f) ==> forall i :: 0 <= i < |FilterExpr(f)| ==> FilterExpr(f)[i].unit == f.Get(CompositionOrder[i]).unit
  {
  }

  /** The units are written after the values as %, %, %, px, %, %, %, deg, in the order of the effects. */
  lemma FilterExprUnitTexts(f: Table)
    ensures |FilterExpr(f)| == 8
    ensures forall i :: 0 <= i < |FilterExpr(f)| ==>
      UnitText(FilterExpr(f)[i].unit) == ["%", "%", "%", "px", "%", "%", "%", "deg"][i]
  {
  }

  /**
   * The expression depends on the values and on nothing else, and it determines
   * every value: two tables give the same expression exactly when all eight
   * values agree.
   */
  lemma FilterExprDeterminesValues(f: Table, g: Table)
    ensures FilterExpr(f) == FilterExpr(g) <==> forall p: Param :: f.Get(p).value == g.Get(p).value
  {
    FilterExprComposition(f);
    FilterExprComposition(g);
    var ef, eg := FilterExpr(f), FilterExpr(g);
    if ef == eg {
      forall p: Param ensures f.Get(p).value == g.Get(p).value {
        var i := CompositionIndex(p);
        assert ef[i].value == eg[i].value;
      }
    } else {
      var i :| 0 <= i < 8 && ef[i] != eg[i];
      assert f.Get(CompositionOrder[i]).value != g.Get(CompositionOrder[i]).value;
    }
  }
}
