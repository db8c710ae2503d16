/**
 * The hotline overlay binding: turning a palette, an optional outline colour
 * and optional thresholds into the options object of the JavaScript hotline,
 * and the one-key style updates of an existing hotline.
 *
 * JavaScript objects are modelled as maps from property names to values.
 */
module Binding {
  import opened Wrappers
  import opened Palette
  import opened Position

  /** The JavaScript values that the binding writes. */
  datatype JsValue =
    | Num(n: real)
    | Str(s: string)
    | Stops(stops: map<real, string>)  // a breakpoint -> colour object

  type JsObject = map<string, JsValue>

  /** The default palette seen from the JavaScript side: breakpoint to colour. */
  function DefaultStops(): map<real, string> {
    map[0.0 := "green", 0.33 := "blue", 0.67 := "#ffff00", 1.0 := "red"]
  }

  /**
   * `stops` inverts `palette`: its keys are exactly the breakpoints of the
   * palette, and each breakpoint is mapped to a colour carrying it.
   */
  ghost predicate InvertsPalette(stops: map<real, string>, palette: map<string, real>) {
    && stops.Keys == palette.Values
    && forall b :: b in stops ==> stops[b] in palette && palette[stops[b]] == b
  }

  /** No two colours of the palette share a breakpoint. */
  ghost predicate Injective(palette: map<string, real>) {
    forall c, d :: c in palette && d in palette && c != d ==> palette[c] != palette[d]
  }

  /**
   * Sets one property per palette entry, keyed by the breakpoint and holding
   * the colour. The hash map is visited in an unspecified order, so when two
   * colours share a breakpoint either may end up in the object.
   */
  method PaletteToJs(palette: HotlinePalette) returns (stops: map<real, string>)
    ensures InvertsPalette(stops, palette.palette)
    ensures Injective(palette.palette) ==>
      forall c :: c in palette.palette ==> palette.palette[c] in stops && stops[palette.palette[c]] == c
  {
    var p := palette.palette;
    stops := map[];
    var remaining := p.Keys;
    while remaining != {}
      invariant remaining <= p.Keys
      invariant stops.Keys == set c | c in p && c !in remaining :: p[c]
      invariant forall b :: b in stops ==> stops[b] in p && p[stops[b]] == b
      decreases remaining
    {
      var color :| color in remaining;
      stops := stops[p[color] := color];
      remaining := remaining - {color};
    }
    assert stops.Keys == p.Values by {
      forall b | b in p.Values ensures b in stops.Keys {
        var c :| c in p && p[c] == b;
      }
    }
    if Injective(p) {
      forall c | c in p ensures p[c] in stops && stops[p[c]] == c {
        assert p[c] in p.Values;
        var d := stops[p[c]];
        assert d in p && p[d] == p[c];
      }
    }
  }

  /** Of the many possible inversions, the default palette has exactly one. */
  lemma DefaultPaletteInversion(stops: map<real, string>)
    requires InvertsPalette(stops, DefaultPaletteMap())
    ensures stops == DefaultStops()
  {
    var p := DefaultPaletteMap();
    assert p.Values == {0.0, 0.33, 0.67, 1.0} by {
      assert p["green"] == 0.0 && p["blue"] == 0.33 && p["#ffff00"] == 0.67 && p["red"] == 1.0;
    }
    assert stops[0.0] == "green";
    assert stops[0.33] == "blue";
    assert stops[0.67] == "#ffff00";
    assert stops[1.0] == "red";
  }

  /** The outline colour: the caller's, or "black" when none is given. */
  function OutlineColorToJs(outlineColor: Option<string>): (color: string)
    ensures outlineColor.None? ==> color == "black"
    ensures outlineColor.Some? ==> color == outlineColor.value
  {
    match outlineColor
    case Some(c) => c
    case None => "black"
  }

  /** The upper threshold: the caller's, or 1.0 when none is given. */
  function MaxToJs(max: Option<real>): (m: real)
    ensures max.None? ==> m == 1.0
    ensures max.Some? ==> m == max.value
  {
    match max
    case Some(m) => m
    case None => 1.0
  }

  /** The lower threshold: the caller's, or 1.0 when none is given. */
  function MinToJs(min: Option<real>): (m: real)
    ensures min.None? ==> m == 1.0
    ensures min.Some? ==> m == min.value
  {
    match min
    case Some(m) => m
    case None => 1.0
  }

  /**
   * Records a quirk only: the lower threshold falls back to the same 1.0 as
   * the upper one, which the contracts of both already say.
   */
  lemma MinDefaultsLikeMax(v: Option<real>)
    ensures MinToJs(v) == MaxToJs(v)
  {
  }

  /** What the options object holds once it has been built. */
  ghost predicate WellFormedOptions(opts: JsObject) {
    && opts.Keys == {"palette", "outlineColor", "max"}
    && opts["palette"].Stops?
    && opts["outlineColor"].Str?
    && opts["max"].Num?
  }

  /**
   * Builds the hotline options: the palette (the default one when the given
   * palette is empty) inverted into a breakpoint -> colour object, the outline
   * colour and the upper threshold. The lower threshold is not written.
   */
  method NewOptions(palette: HotlinePalette, outlineColor: Option<string>, max: Option<real>, min: Option<real>)
    returns (opts: JsObject)
    ensures WellFormedOptions(opts)
    ensures "min" !in opts
    ensures |palette.palette| > 0 ==> InvertsPalette(opts["palette"].stops, palette.palette)
    ensures |palette.palette| == 0 ==> opts["palette"].stops == DefaultStops()
    ensures opts["outlineColor"] == Str(OutlineColorToJs(outlineColor))
    ensures opts["max"] == Num(MaxToJs(max))
  {
    var jsPalette: map<real, string>;
    if |palette.palette| > 0 {
      jsPalette := PaletteToJs(palette);
    } else {
      var defaultPalette := HotlinePalette.Default();
      jsPalette := PaletteToJs(defaultPalette);
      DefaultPaletteInversion(jsPalette);
    }
    var jsOutlineColor := OutlineColorToJs(outlineColor);
    var jsMax := MaxToJs(max);

    opts := map[];
    opts := opts["palette" := Stops(jsPalette)];
    opts := opts["outlineColor" := Str(jsOutlineColor)];
    opts := opts["max" := Num(jsMax)];
  }

  /** The one-key style object that `Hotline.SetOutlineColor` passes on. */
  function OutlineColorStyle(color: string): JsObject {
    map["outlineColor" := Str(color)]
  }

  /** The one-key style object that `Hotline.SetMax` passes on. */
  function MaxStyle(max: real): JsObject {
    map["max" := Num(max)]
  }

  /** The one-key style object that `Hotline.SetMin` passes on: it is keyed "max". */
  function MinStyle(min: real): JsObject {
    map["max" := Num(min)]
  }

  /** Setting the minimum sends the very object that setting the maximum does. */
  lemma MinStyleIsMaxStyle(v: real)
    ensures MinStyle(v) == MaxStyle(v)
    ensures "min" !in MinStyle(v)
  {
  }

  /** Each style update keeps built options well formed and never adds "min". */
  lemma StylesKeepOptionsWellFormed(opts: JsObject, color: string, v: real)
    requires WellFormedOptions(opts)
    ensures WellFormedOptions(opts + OutlineColorStyle(color))
    ensures WellFormedOptions(opts + MaxStyle(v))
    ensures WellFormedOptions(opts + MinStyle(v))
  {
  }

  /**
   * A hotline overlay: its coordinate array and its options. The JavaScript
   * constructor is modelled as storing both.
   */
  class Hotline {
    const latLngs: seq<LatLng>
    var options: JsObject

    constructor (latLngs: seq<LatLng>, opts: JsObject)
      ensures this.latLngs == latLngs && options == opts
    {
      this.latLngs := latLngs;
      options := opts;
    }

    /** Leaflet's `setStyle`: every key of the style object overwrites the option. */
    method SetStyle(style: JsObject)
      modifies this
      ensures options == old(options) + style
    {
      options := options + style;
    }

    method SetOutlineColor(color: string)
      modifies this
      ensures options == old(options)["outlineColor" := Str(color)]
      ensures old(WellFormedOptions(options)) ==> WellFormedOptions(options)
    {
      SetStyle(OutlineColorStyle(color));
    }

    method SetMax(max: real)
      modifies this
      ensures options == old(options)["max" := Num(max)]
      ensures old(WellFormedOptions(options)) ==> WellFormedOptions(options)
    {
      SetStyle(MaxStyle(max));
    }

    /** Writes the new minimum under the key "max", as the binding does. */
    method SetMin(min: real)
      modifies this
      ensures options == old(options)["max" := Num(min)]
      ensures "min" in options <==> "min" in old(options)
      ensures old(WellFormedOptions(options)) ==> WellFormedOptions(options)
    {
      SetStyle(MinStyle(min));
    }
  }
}
