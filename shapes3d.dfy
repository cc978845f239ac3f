/** The 3D shapes page (src/app/3d-shapes/page.tsx): the shape settings, the
    presets and reset that rewrite them, the per-face colours, and the CSS
    generated for the shape. Sizes, depths and the perspective are whole
    pixels, rotations whole degrees. */
module Shapes3D {
  import opened Common

  datatype ShapeType = Cube | Pyramid | Prism | Cylinder | Cone | Octahedron

  datatype Face = Front | Back | Right | Left | Top | Bottom

  datatype FaceColors = FaceColors(
    front: string, back: string, right: string, left: string, top: string, bottom: string)

  datatype Settings = Settings(
    shapeType: ShapeType,
    size: int,
    depth: int,
    rotateX: int,
    rotateY: int,
    rotateZ: int,
    perspective: int,
    faceColors: FaceColors,
    autoRotate: bool)

  datatype ShapePreset = ShapePreset(name: string, shapeType: ShapeType, size: int, depth: int)

  const ShapePresets: seq<ShapePreset> := [
    ShapePreset("Cube Classique", Cube, 200, 200),
    ShapePreset("Pyramide", Pyramid, 200, 200),
    ShapePreset("Prisme", Prism, 180, 250),
    ShapePreset("Cylindre", Cylinder, 150, 200),
    ShapePreset("Cône", Cone, 150, 200),
    ShapePreset("Octaèdre", Octahedron, 180, 180)
  ]

  const DefaultColors: FaceColors :=
    FaceColors("#3b82f6", "#8b5cf6", "#ec4899", "#10b981", "#f59e0b", "#ef4444")

  /** The settings the page starts with. */
  const InitialSettings: Settings := Settings(Cube, 200, 200, -20, 30, 0, 1000, DefaultColors, false)

  /** The name the page gives each shape type. */
  function TypeName(t: ShapeType): string {
    match t
    case Cube => "cube"
    case Pyramid => "pyramid"
    case Prism => "prism"
    case Cylinder => "cylinder"
    case Cone => "cone"
    case Octahedron => "octahedron"
  }

  // ---------------------------------------------------------------------
  // Face colours
  // ---------------------------------------------------------------------

  /** `faceColors[face]`. */
  function ColorOf(c: FaceColors, f: Face): string {
    match f
    case Front => c.front
    case Back => c.back
    case Right => c.right
    case Left => c.left
    case Top => c.top
    case Bottom => c.bottom
  }

  /** `{ ...faceColors, [face]: color }`: that face gets the colour and every
      other face keeps its own. */
  function WithColor(c: FaceColors, f: Face, color: string): (r: FaceColors)
    ensures ColorOf(r, f) == color
    ensures forall g :: g != f ==> ColorOf(r, g) == ColorOf(c, g)
  {
    match f
    case Front => c.(front := color)
    case Back => c.(back := color)
    case Right => c.(right := color)
    case Left => c.(left := color)
    case Top => c.(top := color)
    case Bottom => c.(bottom := color)
  }

  /** Face colours are equal when every face has the same colour. */
  lemma ColorsExtensional(c: FaceColors, d: FaceColors)
    requires forall f :: ColorOf(c, f) == ColorOf(d, f)
    ensures c == d
  {
    assert ColorOf(c, Front) == ColorOf(d, Front) && ColorOf(c, Back) == ColorOf(d, Back);
    assert ColorOf(c, Right) == ColorOf(d, Right) && ColorOf(c, Left) == ColorOf(d, Left);
    assert ColorOf(c, Top) == ColorOf(d, Top) && ColorOf(c, Bottom) == ColorOf(d, Bottom);
  }

  /** Writing back a face's own colour changes nothing, and the last write
      to a face wins. */
  lemma WithColorLaws(c: FaceColors, f: Face, x: string, y: string)
    ensures WithColor(c, f, ColorOf(c, f)) == c
    ensures WithColor(WithColor(c, f, x), f, y) == WithColor(c, f, y)
  {
    ColorsExtensional(WithColor(c, f, ColorOf(c, f)), c);
    ColorsExtensional(WithColor(WithColor(c, f, x), f, y), WithColor(c, f, y));
  }

  /** The colour inputs' `onChange`: only the face colours change. */
  function SetFaceColor(s: Settings, f: Face, color: string): (r: Settings)
    ensures ColorOf(r.faceColors, f) == color
    ensures forall g :: g != f ==> ColorOf(r.faceColors, g) == ColorOf(s.faceColors, g)
    ensures r.(faceColors := s.faceColors) == s
  {
    s.(faceColors := WithColor(s.faceColors, f, color))
  }

  // ---------------------------------------------------------------------
  // Handlers
  // ---------------------------------------------------------------------

  /** `resetSettings`: the page writes the whole record out again, and it is
      the one the page starts with. */
  function ResetSettings(s: Settings): (r: Settings)
    ensures r == InitialSettings
    ensures r.shapeType == Cube && r.size == 200 && r.depth == 200
    ensures r.rotateX == -20 && r.rotateY == 30 && r.rotateZ == 0
    ensures r.perspective == 1000 && !r.autoRotate
  {
    Settings(Cube, 200, 200, -20, 30, 0, 1000,
      FaceColors("#3b82f6", "#8b5cf6", "#ec4899", "#10b981", "#f59e0b", "#ef4444"), false)
  }

  /** `applyPreset`: type, size and depth from the preset, everything else kept. */
  function ApplyPreset(s: Settings, p: ShapePreset): (r: Settings)
    ensures r.shapeType == p.shapeType && r.size == p.size && r.depth == p.depth
    ensures r.rotateX == s.rotateX && r.rotateY == s.rotateY && r.rotateZ == s.rotateZ
    ensures r.perspective == s.perspective && r.faceColors == s.faceColors
    ensures r.autoRotate == s.autoRotate
  {
    s.(shapeType := p.shapeType, size := p.size, depth := p.depth)
  }

  /** Applying the preset of the initial shape to the initial settings
      leaves them as they are. */
  lemma ClassicCubeIsInitial()
    ensures ApplyPreset(InitialSettings, ShapePresets[0]) == InitialSettings
  {
  }

  // ---------------------------------------------------------------------
  // generateCSS
  // ---------------------------------------------------------------------

  /** The height of `.shape-3d`: the size for a cube, the depth otherwise. */
  function ShapeHeight(s: Settings): int {
    if s.shapeType == Cube then s.size else s.depth
  }

  /** `${size/2}`: half the size, printed as JavaScript prints a number with
      at most one decimal (size/2 in hundredths is size * 50). */
  function HalfSize(s: Settings): string {
    CentiText(s.size * 50)
  }

  /** An even size has a whole half. */
  lemma HalfSizeEven(s: Settings)
    requires s.size % 2 == 0
    ensures HalfSize(s) == IntToString(s.size / 2)
  {
    var k := s.size / 2;
    assert s.size * 50 == k * 100;
    assert (k * 100) % 100 == 0 && (k * 100) / 100 == k;
  }

  /** The rotation written on `.shape-3d` and in the keyframes. */
  function Rotation(x: int, y: string, z: int): string {
    "rotateX(" + IntToString(x) + "deg) rotateY(" + y + "deg) rotateZ(" + IntToString(z) + "deg)"
  }

  /** The declaration the auto-rotation adds; the line stays, blank, without it. */
  function AnimationLine(s: Settings): string {
    "  " + (if s.autoRotate then "animation: rotate-3d 10s linear infinite;" else "") + "\n}\n\n"
  }

  /** The `@keyframes rotate-3d` rule: a full turn about Y, the other two
      rotations held. */
  function KeyframesRule(s: Settings): string {
    "@keyframes rotate-3d {\n" +
    "  from {\n" +
    "    transform: " + Rotation(s.rotateX, "0", s.rotateZ) + ";\n" +
    "  }\n" +
    "  to {\n" +
    "    transform: " + Rotation(s.rotateX, "360", s.rotateZ) + ";\n" +
    "  }\n" +
    "}"
  }

  /** The scene and shape rules every type shares. It is written cut after
      each number, so that the numbers can be read back one by one. */
  function BaseCss(s: Settings): string {
    ".scene {\n  perspective: " + IntToString(s.perspective) + AfterPerspective(s)
  }

  function AfterPerspective(s: Settings): string {
    "px;\n" +
    "  width: 100%;\n" +
    "  height: 100vh;\n" +
    "  display: flex;\n" +
    "  align-items: center;\n" +
    "  justify-content: center;\n" +
    "}\n\n" +
    ".shape-3d {\n" +
    "  width: " + IntToString(s.size) + AfterSize(s)
  }

  function AfterSize(s: Settings): string {
    "px;\n  height: " + IntToString(ShapeHeight(s)) + AfterHeight(s)
  }

  function AfterHeight(s: Settings): string {
    "px;\n" +
    "  position: relative;\n" +
    "  transform-style: preserve-3d;\n" +
    "  transform: rotateX(" + IntToString(s.rotateX) + AfterRotateX(s)
  }

  function AfterRotateX(s: Settings): string {
    "deg) rotateY(" + IntToString(s.rotateY) + AfterRotateY(s)
  }

  function AfterRotateY(s: Settings): string {
    "deg) rotateZ(" + IntToString(s.rotateZ) + AfterRotateZ(s)
  }

  function AfterRotateZ(s: Settings): string {
    "deg);\n" + AnimationLine(s) + (if s.autoRotate then KeyframesRule(s) else "")
  }

  /** The six faces in the order the page writes them. */
  const Faces: seq<Face> := [Front, Back, Right, Left, Top, Bottom]

  function FaceName(f: Face): string {
    match f
    case Front => "front"
    case Back => "back"
    case Right => "right"
    case Left => "left"
    case Top => "top"
    case Bottom => "bottom"
  }

  /** `translateZ(${size/2}px)`: the face pushed out to the cube's surface. */
  function PushOut(half: string): string {
    "translateZ(" + half + "px)"
  }

  /** Where each face sits: front pushed out, back pushed the other way and
      turned round, the sides turned a quarter about Y and top and bottom a
      quarter about X before being pushed out. */
  function FaceTransform(f: Face, half: string): string {
    match f
    case Front => PushOut(half)
    case Back => PushOut("-" + half) + " rotateY(180deg)"
    case Right => "rotateY(90deg) " + PushOut(half)
    case Left => "rotateY(-90deg) " + PushOut(half)
    case Top => "rotateX(90deg) " + PushOut(half)
    case Bottom => "rotateX(-90deg) " + PushOut(half)
  }

  /** Every face but the back ends pushed out by half the size. */
  lemma FacesPushOut(f: Face, half: string)
    requires f != Back
    ensures EndsWith(FaceTransform(f, half), PushOut(half))
  {
    match f
    case Front => EndsWithAppend("", PushOut(half));
    case Right => EndsWithAppend("rotateY(90deg) ", PushOut(half));
    case Left => EndsWithAppend("rotateY(-90deg) ", PushOut(half));
    case Top => EndsWithAppend("rotateX(90deg) ", PushOut(half));
    case Bottom => EndsWithAppend("rotateX(-90deg) ", PushOut(half));
  }

  function FaceRule(s: Settings, f: Face): string {
    ".face." + FaceName(f) + " {\n" +
    "  background: " + ColorOf(s.faceColors, f) + ";\n" +
    "  transform: " + FaceTransform(f, HalfSize(s)) + ";\n" +
    "}"
  }

  /** Recolouring one face rewrites that face's rule and no other. */
  lemma RecolorOneRule(s: Settings, f: Face, color: string, g: Face)
    requires g != f
    ensures FaceRule(SetFaceColor(s, f, color), g) == FaceRule(s, g)
  {
  }

  function FaceRules(s: Settings): seq<string> {
    seq(|Faces|, i requires 0 <= i < |Faces| => FaceRule(s, Faces[i]))
  }

  /** The rule every face of a cube shares. */
  function FaceBaseRule(s: Settings): string {
    ".shape-3d .face {\n" +
    "  position: absolute;\n" +
    "  width: " + Px(s.size) + ";\n" +
    "  height: " + Px(s.size) + ";\n" +
    "  opacity: 0.9;\n" +
    "  border: 2px solid rgba(255,255,255,0.2);\n" +
    "  display: flex;\n" +
    "  align-items: center;\n" +
    "  justify-content: center;\n" +
    "  font-size: 24px;\n" +
    "  font-weight: bold;\n" +
    "  color: white;\n" +
    "}"
  }

  /** The rules a cube adds: the common face rule, then one rule per face. */
  function CubeFaces(s: Settings): string {
    "\n\n" + FaceBaseRule(s) + "\n\n" + Join(FaceRules(s), "\n\n")
  }

  function Px(n: int): string {
    IntToString(n) + "px"
  }

  /** The two comments the other types get instead of face rules. */
  function StructureNote(t: ShapeType): string {
    "\n\n/* " + ToUpper(TypeName(t)) + " */\n/* Structure CSS complexe - voir le code généré */"
  }

  /** `generateCSS`: the shared rules, then the cube's face rules or the note. */
  function GenerateCss(s: Settings): string {
    BaseCss(s) + (if s.shapeType == Cube then CubeFaces(s) else StructureNote(s.shapeType))
  }

  /** The keyframes close the shared rules exactly when auto-rotation is on. */
  lemma KeyframesIff(s: Settings)
    ensures EndsWith(BaseCss(s), KeyframesRule(s)) <==> s.autoRotate
  {
    var k := KeyframesRule(s);
    if s.autoRotate {
      EndsWithAppend("deg);\n" + AnimationLine(s), k);
      ChainEndsWith(s, k);
    } else {
      StillEnds(s);
      KeyframesLastChar(s);
      EndsWithClash(BaseCss(s), "\n", k);
    }
  }

  lemma KeyframesLastChar(s: Settings)
    ensures |KeyframesRule(s)| >= 1 && KeyframesRule(s)[|KeyframesRule(s)| - 1] == '}'
  {
  }

  /** Without auto-rotation the shared rules end with the blank line after `.shape-3d`. */
  lemma StillEnds(s: Settings)
    requires !s.autoRotate
    ensures EndsWith(BaseCss(s), "\n")
  {
    var line := AnimationLine(s);
    EndsWithAppend("  " + "", "\n}\n\n");
    assert line == "  " + "" + "\n}\n\n";
    EndsWithTrans(line, "\n}\n\n", "\n");
    EndsWithExtend("deg);\n", line, "\n");
    assert AfterRotateZ(s) == "deg);\n" + line;
    ChainEndsWith(s, "\n");
  }

  /** Whatever the rotation part ends with, the shared rules end with. */
  lemma ChainEndsWith(s: Settings, suffix: string)
    requires EndsWith(AfterRotateZ(s), suffix)
    ensures EndsWith(BaseCss(s), suffix)
  {
    ChainRotations(s, suffix);
    ChainGeometry(s, suffix);
  }

  lemma ChainRotations(s: Settings, suffix: string)
    requires EndsWith(AfterRotateZ(s), suffix)
    ensures EndsWith(AfterHeight(s), suffix)
  {
    EndsWithExtend("deg) rotateZ(" + IntToString(s.rotateZ), AfterRotateZ(s), suffix);
    EndsWithExtend("deg) rotateY(" + IntToString(s.rotateY), AfterRotateY(s), suffix);
    EndsWithExtend("px;\n" + "  position: relative;\n" + "  transform-style: preserve-3d;\n" +
      "  transform: rotateX(" + IntToString(s.rotateX), AfterRotateX(s), suffix);
  }

  lemma ChainGeometry(s: Settings, suffix: string)
    requires EndsWith(AfterHeight(s), suffix)
    ensures EndsWith(BaseCss(s), suffix)
  {
    EndsWithExtend("px;\n  height: " + IntToString(ShapeHeight(s)), AfterHeight(s), suffix);
    EndsWithExtend("px;\n" + "  width: 100%;\n" + "  height: 100vh;\n" + "  display: flex;\n" +
      "  align-items: center;\n" + "  justify-content: center;\n" + "}\n\n" + ".shape-3d {\n" +
      "  width: " + IntToString(s.size), AfterSize(s), suffix);
    EndsWithExtend(".scene {\n  perspective: " + IntToString(s.perspective), AfterPerspective(s), suffix);
  }

  /** The style sheet gives the geometry back: two settings with the same CSS
      have the same perspective, size, shape height and rotations. */
  lemma CssDeterminesGeometry(a: Settings, b: Settings)
    requires GenerateCss(a) == GenerateCss(b)
    ensures a.perspective == b.perspective && a.size == b.size
    ensures ShapeHeight(a) == ShapeHeight(b)
    ensures a.rotateX == b.rotateX && a.rotateY == b.rotateY && a.rotateZ == b.rotateZ
  {
    var ra := if a.shapeType == Cube then CubeFaces(a) else StructureNote(a.shapeType);
    var rb := if b.shapeType == Cube then CubeFaces(b) else StructureNote(b.shapeType);
    PeelPerspective(a, b, ra, rb);
    PeelSize(a, b, ra, rb);
    PeelHeight(a, b, ra, rb);
    PeelRotateX(a, b, ra, rb);
    PeelRotations(a, b, ra, rb);
  }

  lemma PeelPerspective(a: Settings, b: Settings, ra: string, rb: string)
    requires BaseCss(a) + ra == BaseCss(b) + rb
    ensures a.perspective == b.perspective && AfterPerspective(a) + ra == AfterPerspective(b) + rb
  {
    PeelNumber(".scene {\n  perspective: ", a.perspective, b.perspective,
      AfterPerspective(a), AfterPerspective(b), ra, rb);
  }

  lemma PeelHeight(a: Settings, b: Settings, ra: string, rb: string)
    requires AfterSize(a) + ra == AfterSize(b) + rb
    ensures ShapeHeight(a) == ShapeHeight(b) && AfterHeight(a) + ra == AfterHeight(b) + rb
  {
    PeelNumber("px;\n  height: ", ShapeHeight(a), ShapeHeight(b), AfterHeight(a), AfterHeight(b), ra, rb);
  }

  lemma PeelRotations(a: Settings, b: Settings, ra: string, rb: string)
    requires AfterRotateX(a) + ra == AfterRotateX(b) + rb
    ensures a.rotateY == b.rotateY && a.rotateZ == b.rotateZ
  {
    PeelNumber("deg) rotateY(", a.rotateY, b.rotateY, AfterRotateY(a), AfterRotateY(b), ra, rb);
    PeelNumber("deg) rotateZ(", a.rotateZ, b.rotateZ, AfterRotateZ(a), AfterRotateZ(b), ra, rb);
  }

  lemma PeelSize(a: Settings, b: Settings, ra: string, rb: string)
    requires AfterPerspective(a) + ra == AfterPerspective(b) + rb
    ensures a.size == b.size && AfterSize(a) + ra == AfterSize(b) + rb
  {
    var pre := "px;\n" + "  width: 100%;\n" + "  height: 100vh;\n" + "  display: flex;\n" +
      "  align-items: center;\n" + "  justify-content: center;\n" + "}\n\n" + ".shape-3d {\n" + "  width: ";
    PeelNumber(pre, a.size, b.size, AfterSize(a), AfterSize(b), ra, rb);
  }

  lemma PeelRotateX(a: Settings, b: Settings, ra: string, rb: string)
    requires AfterHeight(a) + ra == AfterHeight(b) + rb
    ensures a.rotateX == b.rotateX && AfterRotateX(a) + ra == AfterRotateX(b) + rb
  {
    var pre := "px;\n" + "  position: relative;\n" + "  transform-style: preserve-3d;\n" + "  transform: rotateX(";
    PeelNumber(pre, a.rotateX, b.rotateX, AfterRotateX(a), AfterRotateX(b), ra, rb);
  }

  /** The style sheet ends with the structure note exactly for the types
      other than the cube; a cube's ends with its last face rule. */
  lemma NoteIff(s: Settings)
    ensures EndsWith(GenerateCss(s), StructureNote(s.shapeType)) <==> s.shapeType != Cube
  {
    var n := StructureNote(s.shapeType);
    if s.shapeType != Cube {
      EndsWithAppend(BaseCss(s), n);
    } else {
      CubeCssEnds(s);
      NoteLastChar(s.shapeType);
      EndsWithClash(GenerateCss(s), "}", n);
    }
  }

  lemma NoteLastChar(t: ShapeType)
    ensures |StructureNote(t)| >= 1 && StructureNote(t)[|StructureNote(t)| - 1] == '/'
  {
  }

  /** A cube's style sheet ends with the closing brace of its last face rule. */
  lemma CubeCssEnds(s: Settings)
    requires s.shapeType == Cube
    ensures EndsWith(GenerateCss(s), "}")
  {
    CubeFacesEnds(s);
    EndsWithExtend(BaseCss(s), CubeFaces(s), "}");
  }

  /** Every face rule ends with its closing brace. */
  lemma FaceRuleEnds(s: Settings, f: Face)
    ensures EndsWith(FaceRule(s, f), "}")
  {
    var r := FaceRule(s, f);
    assert r[|r| - 1] == '}';
    LastCharEndsWith(r, '}');
  }

  /** The face rules end with the bottom face's closing brace. */
  lemma CubeFacesEnds(s: Settings)
    ensures EndsWith(CubeFaces(s), "}")
  {
    var rules := FaceRules(s);
    var j := Join(rules, "\n\n");
    JoinEndsWith(rules, "\n\n");
    assert rules[5] == FaceRule(s, Bottom);
    FaceRuleEnds(s, Bottom);
    EndsWithTrans(j, rules[5], "}");
    EndsWithExtend("\n\n" + FaceBaseRule(s) + "\n\n", j, "}");
  }

  /** The note names the type in capitals. */
  lemma ConeNote()
    ensures StructureNote(Cone) ==
      "\n\n/* " + "CONE" + " */\n/* Structure CSS complexe - voir le code généré */"
  {
    var u := ToUpper("cone");
    assert u[0] == 'C' && u[1] == 'O' && u[2] == 'N' && u[3] == 'E';
    assert u == "CONE";
  }
}
