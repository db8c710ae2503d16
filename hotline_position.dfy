/**
 * Hotline positions: (latitude, longitude, value) triples, where the value
 * travels in the slot that Leaflet reserves for the altitude.
 */
module Position {

  /** A conventional latitude/longitude pair. */
  datatype FlatPosition = FlatPosition(lat: real, lng: real)

  /** A position on the path together with the value to visualise there. */
  datatype HotlinePosition = HotlinePosition(latlng: FlatPosition, alt: real) {

    static function New(lat: real, lng: real, alt: real): (p: HotlinePosition)
      ensures p.GetLat() == lat && p.GetLng() == lng && p.alt == alt
    {
      HotlinePosition(FlatPosition(lat, lng), alt)
    }

    function GetLat(): real {
      latlng.lat
    }

    function GetLng(): real {
      latlng.lng
    }
  }

  /**
   * A floating-point accumulator that starts at negative infinity; every
   * other value it takes is finite.
   */
  datatype ExtReal = NegInfinity | Finite(value: real)

  /** `f64::max` of the accumulator and a finite value. */
  function MaxWith(acc: ExtReal, x: real): (m: ExtReal)
    ensures m.Finite? && x <= m.value
    ensures acc.Finite? ==> acc.value <= m.value
    ensures m.value == x || (acc.Finite? && m.value == acc.value)
  {
    match acc
    case NegInfinity => Finite(x)
    case Finite(a) => if a < x then Finite(x) else Finite(a)
  }

  /**
   * The third components of `arr` folded with `MaxWith` from a negative
   * infinity seed, left to right.
   */
  function MaxValue(arr: seq<(real, real, real)>): (m: ExtReal)
    ensures m.NegInfinity? <==> arr == []
    ensures m.Finite? ==> forall i :: 0 <= i < |arr| ==> arr[i].2 <= m.value
    ensures m.Finite? ==> exists i :: 0 <= i < |arr| && arr[i].2 == m.value
  {
    if arr == [] then NegInfinity
    else
      var init := arr[..|arr| - 1];
      var m := MaxWith(MaxValue(init), arr[|arr| - 1].2);
      assert forall i :: 0 <= i < |init| ==> init[i] == arr[i];
      m
  }

  /** The JavaScript-side hotline coordinate: latitude, longitude and value. */
  datatype LatLng = LatLng(lat: real, lng: real, alt: real)

  /** Reads a coordinate back as a hotline position. */
  function LatLngToPosition(l: LatLng): HotlinePosition {
    HotlinePosition.New(l.lat, l.lng, l.alt)
  }

  datatype HotlinePositionVec = HotlinePositionVec(positions: seq<HotlinePosition>) {

    /**
     * Builds one position per input triple, in order, dividing every value by
     * the largest value of the input. A zero maximum (NaN or an infinity in
     * floating point) is excluded.
     */
    static method New(arr: seq<(real, real, real)>) returns (v: HotlinePositionVec)
      requires arr != [] ==> MaxValue(arr).value != 0.0
      ensures |v.positions| == |arr|
      ensures forall i :: 0 <= i < |arr| ==>
        v.positions[i].GetLat() == arr[i].0 && v.positions[i].GetLng() == arr[i].1
      ensures forall i :: 0 <= i < |arr| ==> v.positions[i].alt == arr[i].2 / MaxValue(arr).value
      ensures MaxValue(arr).Finite? && MaxValue(arr).value > 0.0 ==>
        (forall i :: 0 <= i < |arr| ==> v.positions[i].alt <= 1.0) &&
        (exists i :: 0 <= i < |arr| && v.positions[i].alt == 1.0)
    {
      var positionVec: seq<HotlinePosition> := [];
      var maxVal := MaxValue(arr);
      for i := 0 to |arr|
        invariant |positionVec| == i
        invariant forall k :: 0 <= k < i ==>
          positionVec[k] == HotlinePosition.New(arr[k].0, arr[k].1, arr[k].2 / maxVal.value)
      {
        positionVec := positionVec + [HotlinePosition.New(arr[i].0, arr[i].1, arr[i].2 / maxVal.value)];
      }
      v := HotlinePositionVec(positionVec);
      if maxVal.Finite? && maxVal.value > 0.0 {
        NormalisedAtMostOne(arr);
      }
    }
  }

  /**
   * With a positive maximum, dividing by it never yields more than 1, and the
   * element that holds the maximum yields exactly 1.
   */
  lemma NormalisedAtMostOne(arr: seq<(real, real, real)>)
    requires MaxValue(arr).Finite? && MaxValue(arr).value > 0.0
    ensures forall i :: 0 <= i < |arr| ==> arr[i].2 / MaxValue(arr).value <= 1.0
    ensures exists i :: 0 <= i < |arr| && arr[i].2 / MaxValue(arr).value == 1.0
  {
    var m := MaxValue(arr).value;
    forall i | 0 <= i < |arr| ensures arr[i].2 / m <= 1.0 {
      DivideByLarger(arr[i].2, m);
    }
    var j :| 0 <= j < |arr| && arr[j].2 == m;
    DivideBySelf(m);
  }

  lemma DivideBySelf(m: real)
    requires m != 0.0
    ensures m / m == 1.0
  {
  }

  lemma DivideByLarger(x: real, m: real)
    requires 0.0 < m && x <= m
    ensures x / m <= 1.0
  {
    assert x / m * m == x;
  }

  /**
   * Converts the positions to the coordinate array handed to the
   * JavaScript hotline: one coordinate per position, in order.
   */
  method ToHotlineLatLngArray(vals: HotlinePositionVec) returns (jsArray: seq<LatLng>)
    ensures |jsArray| == |vals.positions|
    ensures forall i :: 0 <= i < |jsArray| ==>
      jsArray[i] == LatLng(vals.positions[i].GetLat(), vals.positions[i].GetLng(), vals.positions[i].alt)
    ensures forall i :: 0 <= i < |jsArray| ==> LatLngToPosition(jsArray[i]) == vals.positions[i]
  {
    jsArray := [];
    for i := 0 to |vals.positions|
      invariant |jsArray| == i
      invariant forall k :: 0 <= k < i ==>
        jsArray[k] == LatLng(vals.positions[k].GetLat(), vals.positions[k].GetLng(), vals.positions[k].alt)
    {
      var val := vals.positions[i];
      jsArray := jsArray + [LatLng(val.GetLat(), val.GetLng(), val.alt)];
    }
  }
}
