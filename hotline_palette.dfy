/**
 * The hotline palette: a mapping from a colour token (a colour name or a hex
 * code) to the breakpoint at which that colour applies in the gradient.
 */
module Palette {

  /** The four stops used when no palette is available. */
  const DefaultPaletteValues: seq<(string, real)> :=
    [("green", 0.0), ("blue", 0.33), ("#ffff00", 0.67), ("red", 1.0)]

  /** The default palette as a map, written out stop by stop. */
  function DefaultPaletteMap(): map<string, real> {
    map["green" := 0.0, "blue" := 0.33, "#ffff00" := 0.67, "red" := 1.0]
  }

  /** The colours that occur in a list of (colour, breakpoint) pairs. */
  function Colours(pairs: seq<(string, real)>): set<string> {
    set i | 0 <= i < |pairs| :: pairs[i].0
  }

  /** `i` is the last position at which the colour `pairs[i].0` occurs. */
  ghost predicate IsLastOccurrence(pairs: seq<(string, real)>, i: int) {
    0 <= i < |pairs| && forall j :: i < j < |pairs| ==> pairs[j].0 != pairs[i].0
  }

  /**
   * What inserting the pairs one after the other, left to right, into an
   * initially empty hash map leaves behind: each insert overwrites.
   */
  function Insertions(pairs: seq<(string, real)>): map<string, real> {
    if pairs == [] then map[]
    else
      var last := pairs[|pairs| - 1];
      Insertions(pairs[..|pairs| - 1])[last.0 := last.1]
  }

  datatype HotlinePalette = HotlinePalette(palette: map<string, real>) {

    /** Builds the palette by inserting every pair into a fresh map, in order. */
    static method New(pairs: seq<(string, real)>) returns (p: HotlinePalette)
      ensures p.palette == Insertions(pairs)
      ensures p.palette.Keys == Colours(pairs)
      ensures |p.palette| <= |pairs|
      ensures pairs == [] ==> p.palette == map[]
    {
      var paletteMap: map<string, real> := map[];
      for i := 0 to |pairs|
        invariant paletteMap == Insertions(pairs[..i])
      {
        assert pairs[..i + 1][..i] == pairs[..i];
        paletteMap := paletteMap[pairs[i].0 := pairs[i].1];
      }
      assert pairs[..|pairs|] == pairs;
      p := HotlinePalette(paletteMap);
      InsertionsKeys(pairs);
      InsertionsSize(pairs);
    }

    /** The palette built from the four default stops. */
    static method Default() returns (p: HotlinePalette)
      ensures p.palette == DefaultPaletteMap()
      ensures |p.palette| == 4
    {
      p := New(DefaultPaletteValues);
      var d := DefaultPaletteValues;
      assert d[..1][..0] == [];
      assert d[..2][..1] == d[..1];
      assert d[..3][..2] == d[..2];
      assert d[..4][..3] == d[..3] && d[..4] == d;
      assert Insertions(d[..1]) == map["green" := 0.0];
      assert Insertions(d[..2]) == map["green" := 0.0, "blue" := 0.33];
      assert Insertions(d[..3]) == map["green" := 0.0, "blue" := 0.33, "#ffff00" := 0.67];
    }
  }

  /** The keys of the built map are exactly the colours of the input. */
  lemma {:induction false} InsertionsKeys(pairs: seq<(string, real)>)
    ensures Insertions(pairs).Keys == Colours(pairs)
  {
    if pairs != [] {
      var init := pairs[..|pairs| - 1];
      InsertionsKeys(init);
      ColoursSnoc(init, pairs[|pairs| - 1]);
      assert init + [pairs[|pairs| - 1]] == pairs;
    }
  }

  /** Appending a pair adds exactly its colour. */
  lemma ColoursSnoc(init: seq<(string, real)>, last: (string, real))
    ensures Colours(init + [last]) == Colours(init) + {last.0}
  {
    var s := init + [last];
    forall c | c in Colours(s) ensures c in Colours(init) + {last.0} {
      var i :| 0 <= i < |s| && s[i].0 == c;
      if i < |init| { assert init[i] == s[i]; }
    }
    forall c | c in Colours(init) ensures c in Colours(s) {
      var i :| 0 <= i < |init| && init[i].0 == c;
      assert s[i] == init[i];
    }
    assert s[|init|] == last;
  }

  /** There are no more distinct colours than pairs. */
  lemma {:induction false} ColoursBound(pairs: seq<(string, real)>)
    ensures |Colours(pairs)| <= |pairs|
  {
    if pairs != [] {
      var init := pairs[..|pairs| - 1];
      ColoursBound(init);
      ColoursSnoc(init, pairs[|pairs| - 1]);
      assert init + [pairs[|pairs| - 1]] == pairs;
    }
  }

  /**
   * The map holds one entry per distinct colour, so never more entries than
   * the input has pairs.
   */
  lemma InsertionsSize(pairs: seq<(string, real)>)
    ensures |Insertions(pairs)| == |Colours(pairs)| <= |pairs|
  {
    InsertionsKeys(pairs);
    assert |Insertions(pairs)| == |Insertions(pairs).Keys|;
    ColoursBound(pairs);
  }

  /**
   * Last write wins: a colour's stored breakpoint is the one paired with it at
   * its last occurrence, whatever its value (breakpoints are not range-checked).
   */
  lemma {:induction false} InsertionsLastWins(pairs: seq<(string, real)>, i: int)
    requires IsLastOccurrence(pairs, i)
    ensures pairs[i].0 in Insertions(pairs)
    ensures Insertions(pairs)[pairs[i].0] == pairs[i].1
  {
    var n := |pairs| - 1;
    if i < n {
      var init := pairs[..n];
      assert init[i] == pairs[i];
      InsertionsLastWins(init, i);
    }
  }

  /** Every stored breakpoint comes from the last occurrence of its colour. */
  lemma {:induction false} InsertionsValuesFromLastOccurrence(pairs: seq<(string, real)>, c: string)
    requires c in Insertions(pairs)
    ensures exists i :: IsLastOccurrence(pairs, i) && pairs[i].0 == c && pairs[i].1 == Insertions(pairs)[c]
  {
    var n := |pairs| - 1;
    if pairs[n].0 == c {
      assert IsLastOccurrence(pairs, n);
    } else {
      var init := pairs[..n];
      InsertionsValuesFromLastOccurrence(init, c);
      var i :| IsLastOccurrence(init, i) && init[i].0 == c && init[i].1 == Insertions(init)[c];
      assert pairs[i] == init[i];
      assert IsLastOccurrence(pairs, i);
    }
  }
}
