/**
 * The hot polyline component: attaching a freshly built hotline to the map
 * taken from the map context and remembering it as the component's overlay.
 *
 * The reactive effect is modelled as one run of its body; the map context
 * lookup and the map behind it are parameters.
 */
module Component {
  import opened Wrappers
  import opened Palette
  import opened Position
  import opened Binding

  /** A Leaflet map, seen through the set of layers attached to it. */
  class LeafletMap {
    var layers: set<Hotline>

    /** An empty map, used only to set up `RerunKeepsEarlierOverlay`. */
    constructor ()
      ensures layers == {}
    {
      layers := {};
    }

    /** `hotline.add_to(&map)`: attaching a layer twice leaves it attached once. */
    method AddLayer(hotline: Hotline)
      modifies this
      ensures layers == old(layers) + {hotline}
    {
      layers := layers + {hotline};
    }
  }

  /** The component's stored overlay handle. */
  class StoredOverlay {
    var value: Option<Hotline>

    /** `StoredValue::new_with_storage(None)`: no overlay yet. */
    constructor ()
      ensures value == None
    {
      value := None;
    }

    method SetValue(v: Option<Hotline>)
      modifies this
      ensures value == v
    {
      value := v;
    }
  }

  /** The map context provided by the map container; its map may not exist yet. */
  datatype LeafletMapContext = LeafletMapContext(leafletMap: Option<LeafletMap>)

  /** The maps a run may touch: the one behind the context, if any. */
  function ContextMaps(context: Option<LeafletMapContext>): set<LeafletMap> {
    if context.Some? && context.value.leafletMap.Some? then {context.value.leafletMap.value} else {}
  }

  const MissingMapContext: string := "Expected map context."

  /**
   * Attaches the hotline to the map and stores it as the overlay; without a
   * map it fails and touches nothing. The previous overlay stays attached.
   */
  method AddHotlineToMap(mapContext: Option<LeafletMap>, hotline: Hotline, overlay: StoredOverlay)
    returns (r: Result<(), ()>)
    modifies overlay, if mapContext.Some? then {mapContext.value} else {}
    ensures r.Err? <==> mapContext.None?
    ensures mapContext.None? ==> r == Err(()) && unchanged(overlay)
    ensures mapContext.Some? ==>
      && r == Ok(())
      && mapContext.value.layers == old(mapContext.value.layers) + {hotline}
      && overlay.value == Some(hotline)
  {
    match mapContext {
      case Some(mapRef) =>
        mapRef.AddLayer(hotline);
        overlay.SetValue(Some(hotline));
      case None =>
        return Err(());
    }
    return Ok(());
  }

  /** `hotline` is the overlay the effect builds from these inputs. */
  ghost predicate BuiltFrom(hotline: Hotline, positions: HotlinePositionVec, palette: HotlinePalette,
                            outlineColor: Option<string>, max: Option<real>)
    reads hotline
  {
    && |hotline.latLngs| == |positions.positions|
    && (forall i :: 0 <= i < |hotline.latLngs| ==> LatLngToPosition(hotline.latLngs[i]) == positions.positions[i])
    && WellFormedOptions(hotline.options)
    && (|palette.palette| > 0 ==> InvertsPalette(hotline.options["palette"].stops, palette.palette))
    && (|palette.palette| == 0 ==> hotline.options["palette"].stops == DefaultStops())
    && hotline.options["outlineColor"] == Str(OutlineColorToJs(outlineColor))
    && hotline.options["max"] == Num(MaxToJs(max))
  }

  /**
   * One run of the component's effect: build the coordinates, the options and
   * a new hotline, then look up the map context. Without a context it fails
   * with "Expected map context."; with a context it succeeds, attaching the
   * new hotline when the context has a map and doing nothing otherwise.
   */
  method RunEffect(positions: HotlinePositionVec, palette: HotlinePalette, outlineColor: Option<string>,
                   max: Option<real>, min: Option<real>, context: Option<LeafletMapContext>,
                   overlay: StoredOverlay)
    returns (r: Result<(), string>)
    modifies overlay, ContextMaps(context)
    ensures context.None? ==> r == Err(MissingMapContext)
    ensures context.Some? ==> r == Ok(())
    ensures ContextMaps(context) == {} ==> unchanged(overlay)
    ensures context.Some? && context.value.leafletMap.Some? ==>
      var m := context.value.leafletMap.value;
      && overlay.value.Some?
      && fresh(overlay.value.value)
      && m.layers == old(m.layers) + {overlay.value.value}
      && BuiltFrom(overlay.value.value, positions, palette, outlineColor, max)
  {
    var latLngs := ToHotlineLatLngArray(positions);
    var opts := NewOptions(palette, outlineColor, max, min);
    var hotline := new Hotline(latLngs, opts);
    match context {
      case Some(ctx) =>
        var res := AddHotlineToMap(ctx.leafletMap, hotline, overlay);
      case None =>
        return Err(MissingMapContext);
    }
    return Ok(());
  }

  /**
   * Two runs against the same map leave both hotlines attached: the first is
   * never detached, only the stored handle moves on to the second.
   */
  method RerunKeepsEarlierOverlay(positions: HotlinePositionVec, palette: HotlinePalette)
    returns (m: LeafletMap, overlay: StoredOverlay, first: Hotline, second: Hotline)
    ensures fresh(m) && fresh(overlay)
    ensures first != second
    ensures m.layers == {first, second}
    ensures overlay.value == Some(second)
  {
    m := new LeafletMap();
    overlay := new StoredOverlay();
    var context := Some(LeafletMapContext(Some(m)));
    var r1 := RunEffect(positions, palette, None, None, None, context, overlay);
    first := overlay.value.value;
    var r2 := RunEffect(positions, palette, None, None, None, context, overlay);
    second := overlay.value.value;
  }
}
