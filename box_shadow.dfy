/** The box-shadow editor (src/app/box-shadow/page.tsx): a list of shadow
    layers, the preview box's colour and corner radius, and the `box-shadow`
    declaration generated from them. Offsets, blur and spread are integer
    pixels; colours are CSS colour strings kept as they are. */
module BoxShadow {
  import opened Common
  import opened Ordering
  import opened Lists

  datatype Shadow = Shadow(
    id: string, x: int, y: int, blur: int, spread: int, color: string, inset: bool)

  /** `Omit<Shadow, 'id'>`: a layer as the presets list it. */
  datatype Layer = Layer(x: int, y: int, blur: int, spread: int, color: string, inset: bool)

  datatype Preset = Preset(name: string, shadows: seq<Layer>)

  /** The three pieces of page state the handlers replace. */
  datatype Page = Page(shadows: seq<Shadow>, boxColor: string, borderRadius: int)

  /** A `Partial<Shadow>` update; the page never changes an id. */
  datatype ShadowPatch = ShadowPatch(
    x: Option<int>, y: Option<int>, blur: Option<int>, spread: Option<int>,
    color: Option<string>, inset: Option<bool>)

  const PresetShadows: seq<Preset> := [
    Preset("Subtle", [Layer(0, 2, 8, 0, "rgba(0,0,0,0.1)", false)]),
    Preset("Medium", [Layer(0, 4, 20, 0, "rgba(0,0,0,0.15)", false)]),
    Preset("Large", [Layer(0, 25, 50, -12, "rgba(0,0,0,0.25)", false)]),
    Preset("Glow Blue", [Layer(0, 0, 30, 5, "rgba(59,130,246,0.4)", false)]),
    Preset("Layered", [Layer(0, 2, 4, 0, "rgba(0,0,0,0.1)", false),
                       Layer(0, 8, 16, 0, "rgba(0,0,0,0.1)", false),
                       Layer(0, 24, 48, 0, "rgba(0,0,0,0.1)", false)]),
    Preset("Neumorphism", [Layer(8, 8, 16, 0, "rgba(0,0,0,0.25)", false),
                           Layer(-8, -8, 16, 0, "rgba(255,255,255,0.03)", false)]),
    Preset("Inset", [Layer(0, 4, 12, 0, "rgba(0,0,0,0.4)", true)]),
    Preset("Hard", [Layer(6, 6, 0, 0, "rgba(59,130,246,0.8)", false)])
  ]

  const InitialPage: Page := Page([
    Shadow("1", 0, 10, 30, -5, "rgba(59,130,246,0.4)", false),
    Shadow("2", 0, 20, 50, -10, "rgba(0,0,0,0.3)", false)
  ], "#1a1a25", 16)

  /** The layer `addShadow` appends. */
  function NewShadow(freshId: string): Shadow {
    Shadow(freshId, 0, 4, 16, 0, "rgba(0,0,0,0.2)", false)
  }

  function Id(s: Shadow): string {
    s.id
  }

  function Values(s: Shadow): Layer {
    Layer(s.x, s.y, s.blur, s.spread, s.color, s.inset)
  }

  /** What the page maintains: at least one layer, and distinct ids. */
  ghost predicate Valid(shadows: seq<Shadow>) {
    |shadows| >= 1 && DistinctBy(shadows, Id)
  }

  // ---------------------------------------------------------------------
  // Handlers
  // ---------------------------------------------------------------------

  /** `addShadow`: one default layer appended at the end. */
  function AddShadow(p: Page, freshId: string): (r: Page)
    ensures |r.shadows| == |p.shadows| + 1
    ensures r.shadows[..|p.shadows|] == p.shadows
    ensures var n := r.shadows[|p.shadows|];
      n.id == freshId && n.x == 0 && n.y == 4 && n.blur == 16 && n.spread == 0 &&
      n.color == "rgba(0,0,0,0.2)" && !n.inset
    ensures r.boxColor == p.boxColor && r.borderRadius == p.borderRadius
  {
    p.(shadows := p.shadows + [NewShadow(freshId)])
  }

  /** `removeShadow`: only when more than one layer is left, the layers with another id. */
  function RemoveShadow(p: Page, id: string): (r: Page)
    ensures |p.shadows| <= 1 ==> r == p
    ensures |p.shadows| > 1 ==> id !in Keys(r.shadows, Id)
    ensures forall s :: s in r.shadows ==> s in p.shadows
    ensures forall s :: s in p.shadows && s.id != id ==> s in r.shadows
    ensures r.boxColor == p.boxColor && r.borderRadius == p.borderRadius
    ensures |p.shadows| > 1 && DistinctBy(p.shadows, Id) ==>
              forall j :: 0 <= j < |p.shadows| && p.shadows[j].id == id ==> r.shadows == p.shadows[..j] + p.shadows[j + 1..]
  {
    if |p.shadows| > 1 then
      WithoutOne(p.shadows, Id, id); p.(shadows := Without(p.shadows, Id, id))
    else p
  }

  /** `{ ...s, ...updates }` for a layer. */
  function PatchShadow(s: Shadow, u: ShadowPatch): (r: Shadow)
    ensures r.id == s.id
  {
    Shadow(s.id, Patched(u.x, s.x), Patched(u.y, s.y), Patched(u.blur, s.blur),
           Patched(u.spread, s.spread), Patched(u.color, s.color), Patched(u.inset, s.inset))
  }

  /** `updateShadow`: the layer(s) with the id patched, in place; the rest untouched. */
  function UpdateShadow(p: Page, id: string, u: ShadowPatch): (r: Page)
    ensures |r.shadows| == |p.shadows|
    ensures forall i :: 0 <= i < |p.shadows| && p.shadows[i].id != id ==> r.shadows[i] == p.shadows[i]
    ensures forall i :: 0 <= i < |p.shadows| && p.shadows[i].id == id ==>
              r.shadows[i] == PatchShadow(p.shadows[i], u)
    ensures Keys(r.shadows, Id) == Keys(p.shadows, Id)
    ensures id !in Keys(p.shadows, Id) ==> r == p
    ensures r.boxColor == p.boxColor && r.borderRadius == p.borderRadius
  {
    MapWhereKeys(p.shadows, Id, id, s => PatchShadow(s, u));
    p.(shadows := MapWhere(p.shadows, Id, id, s => PatchShadow(s, u)))
  }

  /** The layers a preset installs, with ids `now + i`. */
  function PresetLayers(layers: seq<Layer>, now: string): (r: seq<Shadow>)
    ensures |r| == |layers|
    ensures forall i :: 0 <= i < |layers| ==>
              Values(r[i]) == layers[i] && r[i].id == now + IntToString(i)
  {
    seq(|layers|, i requires 0 <= i < |layers| =>
      var l := layers[i];
      Shadow(now + IntToString(i), l.x, l.y, l.blur, l.spread, l.color, l.inset))
  }

  /** `applyPreset`: exactly the preset's layers, in order, with fresh distinct ids. */
  function ApplyPreset(p: Page, preset: Preset, now: string): (r: Page)
    ensures |r.shadows| == |preset.shadows|
    ensures forall i :: 0 <= i < |preset.shadows| ==> Values(r.shadows[i]) == preset.shadows[i]
    ensures DistinctBy(r.shadows, Id)
    ensures r.boxColor == p.boxColor && r.borderRadius == p.borderRadius
  {
    var shadows := PresetLayers(preset.shadows, now);
    IndexedIdsDistinct(shadows, Id, now);
    p.(shadows := shadows)
  }

  /** `resetAll`: the first initial layer alone, radius 16, colour #1a1a25. */
  function ResetAll(): (r: Page)
    ensures |r.shadows| == 1 && Valid(r.shadows)
    ensures Values(r.shadows[0]) == Layer(0, 10, 30, -5, "rgba(59,130,246,0.4)", false)
    ensures r.borderRadius == 16 && r.boxColor == "#1a1a25"
  {
    Page([Shadow("1", 0, 10, 30, -5, "rgba(59,130,246,0.4)", false)], "#1a1a25", 16)
  }

  // ---------------------------------------------------------------------
  // The invariant the handlers keep
  // ---------------------------------------------------------------------

  lemma AddShadowValid(p: Page, freshId: string)
    requires Valid(p.shadows) && freshId !in Keys(p.shadows, Id)
    ensures Valid(AddShadow(p, freshId).shadows)
  {
    AppendFreshDistinct(p.shadows, Id, NewShadow(freshId));
  }

  /** The guard and distinct ids keep at least one layer. */
  lemma RemoveShadowValid(p: Page, id: string)
    requires Valid(p.shadows)
    ensures Valid(RemoveShadow(p, id).shadows)
    ensures |p.shadows| > 1 && id in Keys(p.shadows, Id) ==> |RemoveShadow(p, id).shadows| == |p.shadows| - 1
  {
    if |p.shadows| > 1 {
      WithoutCount(p.shadows, Id, id);
      WithoutDistinct(p.shadows, Id, id);
    }
  }

  lemma UpdateShadowValid(p: Page, id: string, u: ShadowPatch)
    requires Valid(p.shadows)
    ensures Valid(UpdateShadow(p, id, u).shadows)
  {
    MapWhereKeys(p.shadows, Id, id, s => PatchShadow(s, u));
  }

  /** Every built-in preset has at least one layer, so applying it keeps the invariant. */
  lemma ApplyPresetValid(p: Page, i: nat, now: string)
    requires i < |PresetShadows|
    ensures Valid(ApplyPreset(p, PresetShadows[i], now).shadows)
  {
    assert |PresetShadows[i].shadows| >= 1;
  }

  // ---------------------------------------------------------------------
  // getShadowString and generateCSS
  // ---------------------------------------------------------------------

  /** `Xpx Ypx BLURpx SPREADpx COLOR`. */
  function Geometry(s: Shadow): string {
    IntToString(s.x) + "px " + IntToString(s.y) + "px " +
    IntToString(s.blur) + "px " + IntToString(s.spread) + "px " + s.color
  }

  /** One layer as `[inset ]Xpx Ypx BLURpx SPREADpx COLOR`. */
  function LayerText(s: Shadow): string {
    (if s.inset then "inset " else "") + Geometry(s)
  }

  function LayerTexts(shadows: seq<Shadow>): (r: seq<string>)
    ensures |r| == |shadows| && forall i :: 0 <= i < |shadows| ==> r[i] == LayerText(shadows[i])
  {
    seq(|shadows|, i requires 0 <= i < |shadows| => LayerText(shadows[i]))
  }

  /** `getShadowString`: the layers in list order, separated by a comma and a
      line break indented to the declaration. */
  function ShadowString(shadows: seq<Shadow>): string {
    Join(LayerTexts(shadows), ",\n    ")
  }

  /** The declarations after `box-shadow`: the corner radius and the box colour. */
  function BoxTail(p: Page): string {
    ";\n  border-radius: " + IntToString(p.borderRadius) + "px;\n  background: " + p.boxColor + ";\n}"
  }

  /** `generateCSS`. */
  function GenerateCss(p: Page): string {
    ".element {\n  box-shadow: " + ShadowString(p.shadows) + BoxTail(p)
  }

  /** With the same radius and colour, two style sheets are equal exactly when
      their shadow strings are: the layers only reach the `box-shadow` value. */
  lemma GenerateCssShadows(p: Page, q: Page)
    requires p.borderRadius == q.borderRadius && p.boxColor == q.boxColor
    ensures GenerateCss(p) == GenerateCss(q) <==> ShadowString(p.shadows) == ShadowString(q.shadows)
  {
    Framed(".element {\n  box-shadow: ", ShadowString(p.shadows), ShadowString(q.shadows), BoxTail(p));
  }

  /** The geometry part starts with the x offset's first character, a digit or a minus sign. */
  lemma GeometryStart(s: Shadow)
    ensures |Geometry(s)| >= 1 && (Geometry(s)[0] == '-' || IsDigit(Geometry(s)[0]))
  {
    var x := IntToString(s.x);
    assert Geometry(s) == x + (Geometry(s)[|x|..]);
    assert Geometry(s)[0] == x[0];
  }

  /** A layer's text starts with `inset ` exactly when the layer is inset. */
  lemma LayerTextInset(s: Shadow)
    ensures var t := LayerText(s); (|t| >= 6 && t[..6] == "inset ") <==> s.inset
  {
    var t := LayerText(s);
    if s.inset {
      assert t[..6] == "inset ";
    } else {
      GeometryStart(s);
      assert t[0] != 'i';
    }
  }

  /** A single layer is its own text; adding a layer appends its text after the separator. */
  lemma ShadowStringAppend(p: Page, freshId: string)
    requires |p.shadows| >= 1
    ensures ShadowString(AddShadow(p, freshId).shadows)
            == ShadowString(p.shadows) + ",\n    " + LayerText(NewShadow(freshId))
  {
    assert LayerTexts(p.shadows + [NewShadow(freshId)]) == LayerTexts(p.shadows) + [LayerText(NewShadow(freshId))];
    JoinConcat(LayerTexts(p.shadows), [LayerText(NewShadow(freshId))], ",\n    ");
  }

  /** Scenario: the first initial layer serialises as `0px 10px 30px -5px rgba(59,130,246,0.4)`. */
  lemma LayerTextExample()
    ensures LayerText(Shadow("1", 0, 10, 30, -5, "rgba(59,130,246,0.4)", false))
            == "0px " + "10px " + "30px " + "-5px " + "rgba(59,130,246,0.4)"
  {
    assert IntToString(0) == "0";
    assert IntToString(10) == "10";
    assert IntToString(30) == "30";
    assert IntToString(-5) == "-5";
  }

  /** Scenario: after `resetAll` the box-shadow value is that single layer's text. */
  lemma ResetShadowString()
    ensures ShadowString(ResetAll().shadows) == LayerText(ResetAll().shadows[0])
  {
  }
}
