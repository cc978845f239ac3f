/** The 3D transform editor (src/app/transform-3d/page.tsx): one transform
    record, two rendering flags, and the CSS generated from them. Angles are
    in degrees, offsets and perspective in pixels, origins in percent; the
    three scales are integers in hundredths (1.1 is 110). */
module Transform3D {
  import opened Common

  datatype Transform = Transform(
    rotateX: int, rotateY: int, rotateZ: int,
    translateX: int, translateY: int, translateZ: int,
    scaleX: int, scaleY: int, scaleZ: int,   // hundredths
    perspective: int, perspectiveOriginX: int, perspectiveOriginY: int)

  datatype Page = Page(transform: Transform, preserves3D: bool, backfaceVisible: bool)

  datatype Preset = Preset(name: string, transform: Transform)

  const DefaultTransform: Transform := Transform(0, 0, 0, 0, 0, 0, 100, 100, 100, 1000, 50, 50)

  const InitialPage: Page := Page(DefaultTransform, true, true)

  const Presets: seq<Preset> := [
    Preset("Flip Card", Transform(0, 180, 0, 0, 0, 0, 100, 100, 100, 1000, 50, 50)),
    Preset("Tilt Left", Transform(0, -25, 0, 0, 0, 50, 100, 100, 100, 800, 50, 50)),
    Preset("Pop Up", Transform(-15, 0, 0, 0, 0, 100, 110, 110, 100, 1200, 50, 50)),
    Preset("Isometric", Transform(45, -45, 0, 0, 0, 0, 100, 100, 100, 0, 50, 50)),
    Preset("Cube Face", Transform(-20, 30, 0, 0, 0, 0, 100, 100, 100, 600, 50, 50)),
    Preset("Spin", Transform(0, 0, 45, 0, 0, 0, 100, 100, 100, 1000, 50, 50))
  ]

  /** No offset, no rotation and all three scales 1. */
  predicate IsIdentity(t: Transform) {
    t.translateX == 0 && t.translateY == 0 && t.translateZ == 0 &&
    t.rotateX == 0 && t.rotateY == 0 && t.rotateZ == 0 &&
    t.scaleX == 100 && t.scaleY == 100 && t.scaleZ == 100
  }

  // ---------------------------------------------------------------------
  // Handlers
  // ---------------------------------------------------------------------

  /** `resetTransform`: the initial transform; the two flags are kept. */
  function ResetTransform(p: Page): (r: Page)
    ensures IsIdentity(r.transform)
    ensures r.transform.perspective == 1000
    ensures r.transform.perspectiveOriginX == 50 && r.transform.perspectiveOriginY == 50
    ensures r.preserves3D == p.preserves3D && r.backfaceVisible == p.backfaceVisible
  {
    p.(transform := DefaultTransform)
  }

  /** `applyPreset`: the whole record replaced by the preset's; the two flags are kept. */
  function ApplyPreset(p: Page, preset: Preset): (r: Page)
    ensures r.transform == preset.transform
    ensures r.preserves3D == p.preserves3D && r.backfaceVisible == p.backfaceVisible
  {
    p.(transform := preset.transform)
  }

  // ---------------------------------------------------------------------
  // getTransformString
  // ---------------------------------------------------------------------

  function Scale3d(t: Transform): string {
    "scale3d(" + CentiText(t.scaleX) + ", " + CentiText(t.scaleY) + ", " + CentiText(t.scaleZ) + ")"
  }

  /** A transform function applied to one whole-number argument with its unit,
      as `translateX(${v}px)` or `rotateY(${v}deg)`. */
  function Call(name: string, v: int, unit: string): string {
    name + "(" + IntToString(v) + unit + ")"
  }

  /** The one-element list `[x]` when `b` holds, the empty list otherwise. */
  function Optional(b: bool, x: string): seq<string> {
    if b then [x] else []
  }

  /** The translations and rotations the page writes, in its fixed order
      translateX, translateY, translateZ, rotateX, rotateY, rotateZ, each only
      when it is not 0. */
  function Moves(t: Transform): (r: seq<string>)
    ensures r == [] <==> t.translateX == 0 && t.translateY == 0 && t.translateZ == 0 &&
                         t.rotateX == 0 && t.rotateY == 0 && t.rotateZ == 0
  {
    Optional(t.translateX != 0, Call("translateX", t.translateX, "px")) +
    Optional(t.translateY != 0, Call("translateY", t.translateY, "px")) +
    Optional(t.translateZ != 0, Call("translateZ", t.translateZ, "px")) +
    Optional(t.rotateX != 0, Call("rotateX", t.rotateX, "deg")) +
    Optional(t.rotateY != 0, Call("rotateY", t.rotateY, "deg")) +
    Optional(t.rotateZ != 0, Call("rotateZ", t.rotateZ, "deg"))
  }

  /** The transform functions the page writes: the moves, then scale3d with
      all three scales as soon as one of them is not 1. There are none
      exactly for the identity. */
  function Functions(t: Transform): (r: seq<string>)
    ensures r == [] <==> IsIdentity(t)
  {
    Moves(t) + (if t.scaleX != 100 || t.scaleY != 100 || t.scaleZ != 100 then [Scale3d(t)] else [])
  }

  /** The value of the `transform` property: the functions separated by
      spaces, or `none` when there are none. */
  function TransformString(t: Transform): string {
    SpacedOrNone(Functions(t))
  }

  /** The functions separated by spaces, or `none` for an empty list. */
  function SpacedOrNone(fs: seq<string>): string {
    if |fs| > 0 then Join(fs, " ") else "none"
  }

  /** `getTransformString`, with its local `transforms` array and conditional pushes. */
  method GetTransformString(t: Transform) returns (s: string)
    ensures s == TransformString(t)
  {
    ghost var x1 := Optional(t.translateX != 0, Call("translateX", t.translateX, "px"));
    ghost var x2 := Optional(t.translateY != 0, Call("translateY", t.translateY, "px"));
    ghost var x3 := Optional(t.translateZ != 0, Call("translateZ", t.translateZ, "px"));
    ghost var x4 := Optional(t.rotateX != 0, Call("rotateX", t.rotateX, "deg"));
    ghost var x5 := Optional(t.rotateY != 0, Call("rotateY", t.rotateY, "deg"));
    ghost var x6 := Optional(t.rotateZ != 0, Call("rotateZ", t.rotateZ, "deg"));
    var transforms: seq<string> := [];
    if t.translateX != 0 { transforms := transforms + [Call("translateX", t.translateX, "px")]; }
    assert transforms == x1;
    if t.translateY != 0 { transforms := transforms + [Call("translateY", t.translateY, "px")]; }
    assert transforms == x1 + x2;
    if t.translateZ != 0 { transforms := transforms + [Call("translateZ", t.translateZ, "px")]; }
    assert transforms == x1 + x2 + x3;
    if t.rotateX != 0 { transforms := transforms + [Call("rotateX", t.rotateX, "deg")]; }
    assert transforms == x1 + x2 + x3 + x4;
    if t.rotateY != 0 { transforms := transforms + [Call("rotateY", t.rotateY, "deg")]; }
    assert transforms == x1 + x2 + x3 + x4 + x5;
    if t.rotateZ != 0 { transforms := transforms + [Call("rotateZ", t.rotateZ, "deg")]; }
    assert transforms == Moves(t);
    if t.scaleX != 100 || t.scaleY != 100 || t.scaleZ != 100 {
      transforms := transforms + [Scale3d(t)];
    }
    assert transforms == Functions(t);
    s := SpacedOrNone(transforms);
  }

  /** No text in the list is empty or starts with `c`. */
  predicate NoneStartWith(xs: seq<string>, c: char) {
    forall k :: 0 <= k < |xs| ==> |xs[k]| >= 1 && xs[k][0] != c
  }

  lemma NoneStartWithAppend(xs: seq<string>, ys: seq<string>, c: char)
    requires NoneStartWith(xs, c) && NoneStartWith(ys, c)
    ensures NoneStartWith(xs + ys, c)
  {
    forall k | 0 <= k < |xs + ys| ensures |(xs + ys)[k]| >= 1 && (xs + ys)[k][0] != c {
      if k >= |xs| {
        assert (xs + ys)[k] == ys[k - |xs|];
      }
    }
  }

  /** A list of at most one text that does not start with `c`. */
  lemma OptionalNoneStartWith(b: bool, x: string, c: char)
    requires |x| >= 1 && x[0] != c
    ensures NoneStartWith(if b then [x] else [], c)
  {
  }

  /** Every move starts with the `t` of translate or the `r` of rotate. */
  lemma MovesStart(t: Transform, c: char)
    requires c != 't' && c != 'r'
    ensures NoneStartWith(Moves(t), c)
  {
    var x1 := Call("translateX", t.translateX, "px");
    var x2 := Call("translateY", t.translateY, "px");
    var x3 := Call("translateZ", t.translateZ, "px");
    var x4 := Call("rotateX", t.rotateX, "deg");
    var x5 := Call("rotateY", t.rotateY, "deg");
    var x6 := Call("rotateZ", t.rotateZ, "deg");
    assert x1[0] == 't' && x2[0] == 't' && x3[0] == 't';
    assert x4[0] == 'r' && x5[0] == 'r' && x6[0] == 'r';
    var p1 := if t.translateX != 0 then [x1] else [];
    var p2 := if t.translateY != 0 then [x2] else [];
    var p3 := if t.translateZ != 0 then [x3] else [];
    var p4 := if t.rotateX != 0 then [x4] else [];
    var p5 := if t.rotateY != 0 then [x5] else [];
    var p6 := if t.rotateZ != 0 then [x6] else [];
    OptionalNoneStartWith(t.translateX != 0, x1, c);
    OptionalNoneStartWith(t.translateY != 0, x2, c);
    OptionalNoneStartWith(t.translateZ != 0, x3, c);
    OptionalNoneStartWith(t.rotateX != 0, x4, c);
    OptionalNoneStartWith(t.rotateY != 0, x5, c);
    OptionalNoneStartWith(t.rotateZ != 0, x6, c);
    NoneStartWithAppend(p1, p2, c);
    NoneStartWithAppend(p1 + p2, p3, c);
    NoneStartWithAppend(p1 + p2 + p3, p4, c);
    NoneStartWithAppend(p1 + p2 + p3 + p4, p5, c);
    NoneStartWithAppend(p1 + p2 + p3 + p4 + p5, p6, c);
    assert Moves(t) == p1 + p2 + p3 + p4 + p5 + p6;
  }

  /** No transform function's text starts with `n`: each starts with the
      `t` of translate, the `r` of rotate or the `s` of scale3d. */
  lemma FunctionStart(t: Transform)
    ensures NoneStartWith(Functions(t), 'n')
  {
    var scaled := t.scaleX != 100 || t.scaleY != 100 || t.scaleZ != 100;
    assert Scale3d(t)[0] == 's';
    MovesStart(t, 'n');
    OptionalNoneStartWith(scaled, Scale3d(t), 'n');
    NoneStartWithAppend(Moves(t), if scaled then [Scale3d(t)] else [], 'n');
  }

  /** scale3d is written, last and with all three scales, exactly when one of
      the scales is not 1. */
  lemma Scale3dIff(t: Transform)
    ensures Scale3d(t) in Functions(t) <==> t.scaleX != 100 || t.scaleY != 100 || t.scaleZ != 100
    ensures t.scaleX != 100 || t.scaleY != 100 || t.scaleZ != 100 ==>
              Functions(t)[|Functions(t)| - 1] == Scale3d(t)
  {
    if !(t.scaleX != 100 || t.scaleY != 100 || t.scaleZ != 100) {
      assert Functions(t) == Moves(t);
      assert Scale3d(t)[0] == 's';
      MovesStart(t, 's');
    }
  }

  /** The value is `none` exactly for the identity transform. */
  lemma TransformStringNone(t: Transform)
    ensures TransformString(t) == "none" <==> IsIdentity(t)
  {
    var fs := Functions(t);
    if |fs| > 0 {
      JoinStartsWith(fs, " ");
      FunctionStart(t);
      assert Join(fs, " ")[0] == fs[0][0];
    }
  }

  /** After `resetTransform` the value is `none`. */
  lemma ResetTransformNone(p: Page)
    ensures TransformString(ResetTransform(p).transform) == "none"
  {
    TransformStringNone(ResetTransform(p).transform);
  }

  // ---------------------------------------------------------------------
  // generateCSS
  // ---------------------------------------------------------------------

  /** The function the hover rule adds: the element lifted 20px towards the viewer. */
  const Lift: string := "translateZ(20px)"

  /** The hover value as the page writes it: the base value, a space, the lift. */
  function HoverTransformAsWritten(t: Transform): string {
    TransformString(t) + " " + Lift
  }

  /** The hover value as a list of transform functions: the base functions,
      then the lift; for the identity that is the lift alone. */
  function HoverTransform(t: Transform): string {
    if IsIdentity(t) then Lift else TransformString(t) + " " + Lift
  }

  /** Joining the base functions and the lift: the lift alone when there are
      no base functions, otherwise the joined base, a space and the lift. */
  lemma JoinWithLift(fs: seq<string>)
    ensures Join(fs + [Lift], " ") == if |fs| == 0 then Lift else Join(fs, " ") + " " + Lift
  {
    if |fs| == 0 {
      assert fs + [Lift] == [Lift];
    } else {
      JoinSnoc(fs, Lift, " ");
    }
  }

  /** The hover value is always a list of transform functions: the base
      functions, then the lift; it agrees with the page's text whenever the
      base value is not `none`. */
  lemma HoverTransformFunctions(t: Transform)
    ensures HoverTransform(t) == Join(Functions(t) + [Lift], " ")
    ensures !IsIdentity(t) ==> HoverTransform(t) == HoverTransformAsWritten(t)
  {
    JoinWithLift(Functions(t));
  }

  /** For the identity the page writes `none translateZ(20px)`, which is not a
      transform value: `none` cannot be combined with transform functions. */
  lemma HoverAsWrittenIdentity()
    ensures HoverTransformAsWritten(DefaultTransform) == "none" + " " + Lift
    ensures HoverTransformAsWritten(DefaultTransform) != HoverTransform(DefaultTransform)
  {
    TransformStringNone(DefaultTransform);
    assert HoverTransform(DefaultTransform) == Lift;
    assert HoverTransformAsWritten(DefaultTransform)[0] == 'n';
  }

  function TransformStyle(preserves3D: bool): string {
    if preserves3D then "preserve-3d" else "flat"
  }

  function BackfaceVisibility(visible: bool): string {
    if visible then "visible" else "hidden"
  }

  /** The `.container` rule: the perspective and its origin. */
  function ContainerRule(t: Transform): string {
    "/* Container - appliquer la perspective au parent */\n" +
    ".container {\n" +
    "  perspective: " + IntToString(t.perspective) + "px;\n" +
    "  perspective-origin: " + IntToString(t.perspectiveOriginX) + "% " +
    IntToString(t.perspectiveOriginY) + "%;\n" +
    "}\n\n"
  }

  /** The declaration of the `:hover` rule and its closing brace. */
  function HoverDeclaration(t: Transform): string {
    "  transform: " + HoverTransform(t) + ";\n}"
  }

  /** What follows the `backface-visibility` keyword: the transition, then the hover rule. */
  function HoverTail(t: Transform): string {
    ";\n  transition: transform 0.3s ease;\n}\n\n" +
    "/* Hover effect example */\n" +
    ".element:hover {\n" + HoverDeclaration(t)
  }

  /** What follows the `transform-style` keyword. */
  function BackfaceTail(p: Page): string {
    ";\n  backface-visibility: " + BackfaceVisibility(p.backfaceVisible) + HoverTail(p.transform)
  }

  /** What follows the base transform value. */
  function StyleTail(p: Page): string {
    ";\n  transform-style: " + TransformStyle(p.preserves3D) + BackfaceTail(p)
  }

  /** The base value's declaration ends at the first character after it. */
  lemma StyleTailStart(p: Page)
    ensures |StyleTail(p)| >= 1 && StyleTail(p)[0] == ';'
  {
  }

  /** Everything before the base transform value. */
  function ElementHead(t: Transform): string {
    ContainerRule(t) + "/* Element transformé */\n.element {\n  transform: "
  }

  /** `generateCSS`, with the hover value written as a list of functions:
      the container rule, the `.element` rule and its `:hover` rule. */
  function GenerateCss(p: Page): string {
    ElementHead(p.transform) + TransformString(p.transform) + StyleTail(p)
  }

  /** No text in the list contains `c`. */
  predicate Excludes(xs: seq<string>, c: char) {
    forall k :: 0 <= k < |xs| ==> c !in xs[k]
  }

  lemma ExcludesAppend(xs: seq<string>, ys: seq<string>, c: char)
    requires Excludes(xs, c) && Excludes(ys, c)
    ensures Excludes(xs + ys, c)
  {
    forall k | 0 <= k < |xs + ys| ensures c !in (xs + ys)[k] {
      if k >= |xs| {
        assert (xs + ys)[k] == ys[k - |xs|];
      }
    }
  }

  /** An optional call holds no `;` when its name and unit do not. */
  lemma OptionalCallExcludes(b: bool, name: string, v: int, unit: string)
    requires ';' !in name && ';' !in unit
    ensures Excludes(Optional(b, Call(name, v, unit)), ';')
  {
    IntTextWithout(v, ';');
  }

  /** No translate or rotate function holds a `;`. */
  lemma MovesExclude(t: Transform)
    ensures Excludes(Moves(t), ';')
  {
    var p1 := Optional(t.translateX != 0, Call("translateX", t.translateX, "px"));
    var p2 := Optional(t.translateY != 0, Call("translateY", t.translateY, "px"));
    var p3 := Optional(t.translateZ != 0, Call("translateZ", t.translateZ, "px"));
    var p4 := Optional(t.rotateX != 0, Call("rotateX", t.rotateX, "deg"));
    var p5 := Optional(t.rotateY != 0, Call("rotateY", t.rotateY, "deg"));
    var p6 := Optional(t.rotateZ != 0, Call("rotateZ", t.rotateZ, "deg"));
    OptionalCallExcludes(t.translateX != 0, "translateX", t.translateX, "px");
    OptionalCallExcludes(t.translateY != 0, "translateY", t.translateY, "px");
    OptionalCallExcludes(t.translateZ != 0, "translateZ", t.translateZ, "px");
    OptionalCallExcludes(t.rotateX != 0, "rotateX", t.rotateX, "deg");
    OptionalCallExcludes(t.rotateY != 0, "rotateY", t.rotateY, "deg");
    OptionalCallExcludes(t.rotateZ != 0, "rotateZ", t.rotateZ, "deg");
    ExcludesAppend(p1, p2, ';');
    ExcludesAppend(p1 + p2, p3, ';');
    ExcludesAppend(p1 + p2 + p3, p4, ';');
    ExcludesAppend(p1 + p2 + p3 + p4, p5, ';');
    ExcludesAppend(p1 + p2 + p3 + p4 + p5, p6, ';');
  }

  /** The scale3d function holds no `;`. */
  lemma Scale3dWithout(t: Transform)
    ensures ';' !in Scale3d(t)
  {
    var x, y, z := CentiText(t.scaleX), CentiText(t.scaleY), CentiText(t.scaleZ);
    CentiTextWithout(t.scaleX, ';');
    CentiTextWithout(t.scaleY, ';');
    CentiTextWithout(t.scaleZ, ';');
    assert ';' !in "scale3d(" && ';' !in ", " && ';' !in ")";
    assert Scale3d(t) == "scale3d(" + x + ", " + y + ", " + z + ")";
  }

  /** No transform function holds a `;`. */
  lemma FunctionsExclude(t: Transform)
    ensures Excludes(Functions(t), ';')
  {
    MovesExclude(t);
    Scale3dWithout(t);
    var scaled := t.scaleX != 100 || t.scaleY != 100 || t.scaleZ != 100;
    var last := if scaled then [Scale3d(t)] else [];
    assert Excludes(last, ';');
    ExcludesAppend(Moves(t), last, ';');
  }

  /** The transform value holds no `;`, so the declaration ends at the first one. */
  lemma TransformStringWithout(t: Transform)
    ensures ';' !in TransformString(t)
  {
    FunctionsExclude(t);
    if |Functions(t)| > 0 {
      JoinWithout(Functions(t), " ", ';');
    }
  }

  /** Equal style sheets have equal transform values: the value is read back
      up to the `;` that ends its declaration. */
  lemma CssShowsTransform(p: Page, q: Page)
    requires ElementHead(p.transform) == ElementHead(q.transform)
    requires GenerateCss(p) == GenerateCss(q)
    ensures TransformString(p.transform) == TransformString(q.transform)
  {
    var h := ElementHead(p.transform);
    var a, b, x, y := TransformString(p.transform), TransformString(q.transform), StyleTail(p), StyleTail(q);
    Assoc(h, a, x);
    Assoc(h, b, y);
    DropPrefix(h, a + x, b + y);
    TransformStringWithout(p.transform);
    TransformStringWithout(q.transform);
    StyleTailStart(p);
    StyleTailStart(q);
    StopAt(a, x, b, y, ';');
  }

  /** With the same perspective, origin and flags, two style sheets are equal
      exactly when their transform values are: the `.element` rule and the
      hover rule both follow from that value. */
  lemma GenerateCssTransform(p: Page, q: Page)
    requires p.transform.perspective == q.transform.perspective
    requires p.transform.perspectiveOriginX == q.transform.perspectiveOriginX
    requires p.transform.perspectiveOriginY == q.transform.perspectiveOriginY
    requires p.preserves3D == q.preserves3D && p.backfaceVisible == q.backfaceVisible
    ensures GenerateCss(p) == GenerateCss(q) <==> TransformString(p.transform) == TransformString(q.transform)
  {
    var tp, tq := p.transform, q.transform;
    assert ElementHead(tp) == ElementHead(tq);
    if TransformString(tp) == TransformString(tq) {
      TransformStringNone(tp);
      TransformStringNone(tq);
      assert HoverTail(tp) == HoverTail(tq);
    }
    if GenerateCss(p) == GenerateCss(q) {
      CssShowsTransform(p, q);
    }
  }

  /** The text after `backface-visibility: ` starts with the flag's keyword. */
  lemma BackfaceTailFlag(p: Page, q: Page)
    requires p.transform == q.transform && BackfaceTail(p) == BackfaceTail(q)
    ensures p.backfaceVisible == q.backfaceVisible
  {
    if p.backfaceVisible != q.backfaceVisible {
      FirstDiffers(";\n  backface-visibility: ", BackfaceVisibility(p.backfaceVisible),
                   BackfaceVisibility(q.backfaceVisible), HoverTail(p.transform), HoverTail(q.transform));
    }
  }

  /** The text after the base value starts with the `transform-style` keyword. */
  lemma StyleTailFlags(p: Page, q: Page)
    requires p.transform == q.transform && StyleTail(p) == StyleTail(q)
    ensures p.preserves3D == q.preserves3D && p.backfaceVisible == q.backfaceVisible
  {
    var l1 := ";\n  transform-style: ";
    if p.preserves3D != q.preserves3D {
      FirstDiffers(l1, TransformStyle(p.preserves3D), TransformStyle(q.preserves3D), BackfaceTail(p), BackfaceTail(q));
    } else {
      DropPrefix(l1 + TransformStyle(p.preserves3D), BackfaceTail(p), BackfaceTail(q));
      BackfaceTailFlag(p, q);
    }
  }

  /** For the same transform, two style sheets are equal exactly when both
      flags are: each flag's keyword is written into the `.element` rule. */
  lemma GenerateCssFlags(p: Page, q: Page)
    requires p.transform == q.transform
    ensures GenerateCss(p) == GenerateCss(q) <==>
            p.preserves3D == q.preserves3D && p.backfaceVisible == q.backfaceVisible
  {
    if GenerateCss(p) == GenerateCss(q) {
      DropPrefix(ElementHead(p.transform) + TransformString(p.transform), StyleTail(p), StyleTail(q));
      StyleTailFlags(p, q);
    }
  }

  /** The style sheet ends with the hover declaration, whose value is the
      base transform functions followed by `translateZ(20px)`. */
  lemma GenerateCssHover(p: Page)
    ensures EndsWith(GenerateCss(p), "  transform: " + Join(Functions(p.transform) + [Lift], " ") + ";\n}")
  {
    var t := p.transform;
    HoverTransformFunctions(t);
    EndsWithAppend(";\n  transition: transform 0.3s ease;\n}\n\n/* Hover effect example */\n.element:hover {\n", HoverDeclaration(t));
    EndsWithExtend(";\n  backface-visibility: " + BackfaceVisibility(p.backfaceVisible), HoverTail(t), HoverDeclaration(t));
    EndsWithExtend(";\n  transform-style: " + TransformStyle(p.preserves3D), BackfaceTail(p), HoverDeclaration(t));
    EndsWithExtend(ElementHead(t) + TransformString(t), StyleTail(p), HoverDeclaration(t));
  }

  /** The flags choose the two keywords: `preserve-3d`/`flat` and `visible`/`hidden`. */
  lemma FlagKeywords(a: bool, b: bool)
    ensures TransformStyle(a) == "preserve-3d" <==> a
    ensures BackfaceVisibility(b) == "visible" <==> b
  {
    assert "flat" != "preserve-3d" by { assert |"flat"| != |"preserve-3d"|; }
    assert "hidden" != "visible" by { assert "hidden"[0] != "visible"[0]; }
  }
}
