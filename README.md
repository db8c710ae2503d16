# leptos-leaflet-hotline, modelled in Dafny

This project models the plain data handling of `leptos-leaflet-hotline`, a
component that draws a "hotline" (a polyline whose colour follows a value
along the path) on a Leaflet map. Four pieces are modelled:

- **Palette** (`hotline_palette.dfy`, module `Palette`). `HotlinePalette.New`
  inserts (colour, breakpoint) pairs into a fresh map, one after the other.
  When a colour repeats, the last pair wins. `HotlinePalette.Default` gives the
  four fixed stops: green 0.0, blue 0.33, #ffff00 0.67 and red 1.0.
- **Positions** (`hotline_position.dfy`, module `Position`).
  `HotlinePositionVec.New` divides every value by the largest value of its
  input. That largest value is a fold that starts at negative infinity.
  `ToHotlineLatLngArray` turns the positions into the coordinate array that
  the JavaScript plugin takes.
- **Options and style updates** (`hotline.dfy`, module `Binding`). This part
  resolves the optional props into the options object. That object is
  modelled as a map from property names to values. `Hotline` is the overlay
  object. Its `SetOutlineColor`, `SetMax` and `SetMin` pass one-key style
  objects to Leaflet's `setStyle`.
- **Attaching** (`hot_polyline.dfy`, module `Component`). `AddHotlineToMap`
  and one run of the component's effect (`RunEffect`) work over a map, seen
  as the set of layers attached to it, and over the stored overlay handle.

Numbers are `real`. Strings are `seq<char>`. The reactive props
(`Signal`/`MaybeSignal`, read with `get_untracked`) are passed in as their
current values, using `Wrappers.Option` for optional props. The map context
(`use_context`) is a parameter of type `Option<LeafletMapContext>`, and its
map may be missing.

The component's doc comment at src/lib.rs:48 describes `min` as the minimum
breakpoint for the palette. The code does not use it that way, and the model
follows the code:
- `HotlineOptions::new` never writes a `min` option.
- `Hotline::set_min` writes its value under the key `"max"`.

Some other behaviour may also surprise a caller. The model keeps it as the
code has it:
- `min_to_js` falls back to 1.0, the same value as `max_to_js`.
- An outline colour given as `""` is passed through as `""`. It is not
  replaced by `"black"`.
- The effect returns `Ok(())` when the context exists but its map does not.
  That failure of `add_hotline_to_map` is only logged.

## Model

| member | source | states |
|---|---|---|
| `Palette.HotlinePalette.New` | leptos-leaflet-hotline/src/hotline_palette.rs:38-48 | the map is the left-to-right insertion of the pairs, its keys are exactly the input colours, it has no more entries than there are pairs, and an empty input gives an empty map |
| `Palette.HotlinePalette.Default` | leptos-leaflet-hotline/src/hotline_palette.rs:60-62 | the default palette (the stops at lines 9-14) is exactly green→0.0, blue→0.33, #ffff00→0.67, red→1.0, four entries |
| `Palette.InsertionsKeys` | leptos-leaflet-hotline/src/hotline_palette.rs:41-43 | every input colour is a key and there are no other keys |
| `Palette.InsertionsSize` | leptos-leaflet-hotline/src/hotline_palette.rs:41-43 | the number of entries equals the number of distinct colours, which is at most the input length |
| `Palette.InsertionsLastWins` | leptos-leaflet-hotline/src/hotline_palette.rs:41-43 | at a colour's last occurrence, that pair's breakpoint is the one stored, whatever its value, because breakpoints are not range-checked |
| `Palette.InsertionsValuesFromLastOccurrence` | leptos-leaflet-hotline/src/hotline_palette.rs:41-43 | every stored breakpoint is the one from its colour's last occurrence in the input |
| `Position.HotlinePosition.New` | leptos-leaflet-hotline/src/hotline_position.rs:61-78 | the constructor stores lat, lng and value unchanged, and `GetLat`/`GetLng` read back the stored latitude and longitude |
| `Position.MaxWith` | leptos-leaflet-hotline/src/hotline_position.rs:46 | `f64::max` of the accumulator and a value is finite, is at least both of them, and is one of them |
| `Position.MaxValue` | leptos-leaflet-hotline/src/hotline_position.rs:43-46 | the fold stays at negative infinity exactly when the input is empty; otherwise it bounds every value from above and equals one of them |
| `Position.HotlinePositionVec.New` | leptos-leaflet-hotline/src/hotline_position.rs:40-55 | one output per input, in order, with the input's lat and lng and value divided by the input maximum (so an empty input gives no positions); with a positive maximum every value is ≤ 1 and some value is 1 |
| `Position.NormalisedAtMostOne` | leptos-leaflet-hotline/src/hotline_position.rs:43-49 | with a positive maximum, dividing by it never gives more than 1, and the element holding the maximum gives exactly 1 |
| `Position.ToHotlineLatLngArray` | leptos-leaflet-hotline/src/hotline_position.rs:177-183 | one coordinate per position, in order, carrying that position's lat, lng and value; reading each coordinate back gives the position |
| `Binding.PaletteToJs` | leptos-leaflet-hotline/src/hotline.rs:72-80 | the object's keys are exactly the palette's breakpoints, each mapped to a colour that has that breakpoint; if no two colours share a breakpoint, every colour can be found under its own breakpoint |
| `Binding.DefaultPaletteInversion` | leptos-leaflet-hotline/src/hotline.rs:60 | the inverted default palette is exactly 0.0→green, 0.33→blue, 0.67→#ffff00, 1.0→red |
| `Binding.OutlineColorToJs` | leptos-leaflet-hotline/src/hotline.rs:82-88 | a missing colour gives "black"; a given colour is passed through |
| `Binding.MaxToJs` | leptos-leaflet-hotline/src/hotline.rs:90-96 | a missing value gives 1.0; a given value is passed through |
| `Binding.MinToJs` | leptos-leaflet-hotline/src/hotline.rs:98-104 | a missing value gives 1.0; a given value is passed through |
| `Binding.MinDefaultsLikeMax` | leptos-leaflet-hotline/src/hotline.rs:90-104 | records the quirk that the min and max fallbacks agree on every input, since both default to 1.0 (already implied by the two functions' contracts) |
| `Binding.NewOptions` | leptos-leaflet-hotline/src/hotline.rs:51-70 | the options hold exactly palette, outlineColor and max, and no min; the palette object inverts the caller's palette when that is non-empty, and otherwise is the inverted default; outlineColor and max are the resolved values |
| `Binding.MinStyleIsMaxStyle` | leptos-leaflet-hotline/src/hotline.rs:115-126 | the style object built by `set_min` is the one `set_max` builds for the same number, and it has no "min" key |
| `Binding.StylesKeepOptionsWellFormed` | leptos-leaflet-hotline/src/hotline.rs:109-126 | merging any of the three one-key style objects into built options keeps exactly the keys palette, outlineColor and max |
| `Binding.Hotline.constructor` | leptos-leaflet-hotline/src/hotline.rs:36-37 | a new hotline holds the given coordinates and options |
| `Binding.Hotline.SetStyle` | leptos-leaflet-hotline/src/hotline.rs:45-46 | each key of the style object overwrites the option of that name; the other options stay as they were |
| `Binding.Hotline.SetOutlineColor` | leptos-leaflet-hotline/src/hotline.rs:109-114 | only the outlineColor option changes, to the given colour; built options stay well formed |
| `Binding.Hotline.SetMax` | leptos-leaflet-hotline/src/hotline.rs:115-120 | only the max option changes, to the given value; built options stay well formed |
| `Binding.Hotline.SetMin` | leptos-leaflet-hotline/src/hotline.rs:121-126 | only the max option changes, to the given minimum, and whether a min option exists does not change |
| `Component.LeafletMap.AddLayer` | src/lib.rs:30 | the hotline joins the map's layers and no layer leaves |
| `Component.StoredOverlay.constructor` | src/lib.rs:91 | the stored overlay handle starts as `None` |
| `Component.StoredOverlay.SetValue` | src/lib.rs:32 | the stored handle becomes the given value |
| `Component.AddHotlineToMap` | src/lib.rs:22-37 | it fails exactly when there is no map; then the stored overlay is unchanged; with a map it returns Ok, adds the hotline to the layers without removing any, and stores `Some(hotline)` |
| `Component.RunEffect` | src/lib.rs:94-113 | no context gives `Err("Expected map context.")` and touches nothing; a context gives Ok; with a map, a fresh hotline built from these inputs is attached beside the earlier layers and stored as the overlay |
| `Component.RerunKeepsEarlierOverlay` | src/lib.rs:30-32 | two effect runs on one fresh map attach two distinct hotlines, the map keeps both, and the stored handle is the second |

## Left out

- `Position.HotlinePositionVec.New`: requires a non-zero maximum for a non-empty input. Floating-point division by zero (NaN or an infinity) is not modelled. The same goes for NaN values and the NaN-skipping of `f64::max`.
- `Binding.PaletteToJs`: when two colours share a breakpoint, the contract does not say which colour ends up under it. The Rust hash map is visited in an unspecified order, and the model picks the next colour nondeterministically.
- JavaScript object keys are strings. The palette object is modelled with the numeric breakpoint as key, so the number-to-string conversion is not modelled.
- The JavaScript constructor `Hotline::new` is a foreign call. It is modelled as storing the coordinates and the options exactly as given. The plugin merges its own class defaults (among them a `min`) over those options, and that merge is not modelled.
- Leaflet's `setStyle` and `addTo` are foreign calls. They are modelled by what they do to the options and to the layer set. Leaflet's rendering is not modelled.
- `Component.LeafletMap.constructor` models nothing in the source. It only sets up the empty map for `RerunKeepsEarlierOverlay`.
- `update_overlay_context`, `extend_context_with_overlay`, `use_context`, `StoredValue` storage and the scheduling of `Effect` belong to the frameworks. The context is a parameter, the stored value is a one-field class, and the rest are left out.
- The `log!` call when attaching fails is I/O, so it is left out.
- `_click_tolerance` and `get_bounds` are foreign declarations with no logic here.
- leptos-leaflet-hotline/src/hotline_draw.rs is not part of this model. It is experimental canvas drawing with floating-point colour sampling.
- leptos-leaflet-hotline/src/browser.rs, blanket_overlay.rs, renderer.rs and canvas.rs are not part of this model. They read browser globals or declare foreign Leaflet classes, so they have no logic of their own.
- leptos-leaflet-hotline/src/lib.rs is not part of this model. It is an older version of the component in src/lib.rs.
- The example application under examples/ is not part of this model. It is server start-up, routing and HTML.
