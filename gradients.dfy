/** The gradient editor (src/app/gradients/page.tsx): a list of colour stops,
    a gradient type and an angle, and the `background` value generated from
    them. Stop positions are integer percentages and the angle is in degrees. */
module Gradients {
  import opened Common
  import opened Ordering
  import opened Lists

  datatype ColorStop = ColorStop(id: string, color: string, position: int)

  datatype GradientType = Linear | Radial | Conic

  datatype Page = Page(gradientType: GradientType, angle: int, stops: seq<ColorStop>)

  /** A `Partial<ColorStop>` update; the page never changes an id. */
  datatype StopPatch = StopPatch(color: Option<string>, position: Option<int>)

  datatype Preset = Preset(name: string, colors: seq<string>)

  const PresetGradients: seq<Preset> := [
    Preset("Sunset", ["#FF6B6B", "#FEC89A"]),
    Preset("Ocean", ["#667eea", "#764ba2"]),
    Preset("Forest", ["#11998e", "#38ef7d"]),
    Preset("Fire", ["#f12711", "#f5af19"]),
    Preset("Purple Dream", ["#8E2DE2", "#4A00E0"]),
    Preset("Midnight", ["#232526", "#414345"]),
    Preset("Aurora", ["#00C9FF", "#92FE9D"]),
    Preset("Warm", ["#F953C6", "#B91D73"])
  ]

  const InitialStops: seq<ColorStop> := [
    ColorStop("1", "#3b82f6", 0),
    ColorStop("2", "#8b5cf6", 50),
    ColorStop("3", "#ec4899", 100)
  ]

  const InitialPage: Page := Page(Linear, 135, InitialStops)

  function Id(s: ColorStop): string {
    s.id
  }

  function Position(s: ColorStop): int {
    s.position
  }

  /** What the page maintains: at least two stops, with distinct ids. */
  ghost predicate Valid(stops: seq<ColorStop>) {
    |stops| >= 2 && DistinctBy(stops, Id)
  }

  // ---------------------------------------------------------------------
  // Handlers
  // ---------------------------------------------------------------------

  /** The stop `addColorStop` appends. */
  function NewStop(freshId: string): ColorStop {
    ColorStop(freshId, "#ffffff", 50)
  }

  /** `addColorStop`: a white stop at 50% appended; the other stops are kept as they were. */
  function AddColorStop(p: Page, freshId: string): (r: Page)
    ensures |r.stops| == |p.stops| + 1
    ensures r.stops[..|p.stops|] == p.stops
    ensures r.stops[|p.stops|] == ColorStop(freshId, "#ffffff", 50)
    ensures r.gradientType == p.gradientType && r.angle == p.angle
  {
    p.(stops := p.stops + [NewStop(freshId)])
  }

  /** `removeColorStop`: only when more than two stops are left, the stops with another id. */
  function RemoveColorStop(p: Page, id: string): (r: Page)
    ensures |p.stops| <= 2 ==> r == p
    ensures |p.stops| > 2 ==> id !in Keys(r.stops, Id)
    ensures forall s :: s in r.stops ==> s in p.stops
    ensures forall s :: s in p.stops && s.id != id ==> s in r.stops
    ensures r.gradientType == p.gradientType && r.angle == p.angle
    ensures |p.stops| > 2 && DistinctBy(p.stops, Id) ==>
              forall j :: 0 <= j < |p.stops| && p.stops[j].id == id ==> r.stops == p.stops[..j] + p.stops[j + 1..]
  {
    if |p.stops| > 2 then
      WithoutOne(p.stops, Id, id); p.(stops := Without(p.stops, Id, id))
    else p
  }

  /** `{ ...stop, ...updates }`. */
  function PatchStop(s: ColorStop, u: StopPatch): (r: ColorStop)
    ensures r.id == s.id
  {
    ColorStop(s.id, Patched(u.color, s.color), Patched(u.position, s.position))
  }

  /** `updateColorStop`: the stop(s) with the id patched in place; the rest untouched. */
  function UpdateColorStop(p: Page, id: string, u: StopPatch): (r: Page)
    ensures |r.stops| == |p.stops|
    ensures forall i :: 0 <= i < |p.stops| && p.stops[i].id != id ==> r.stops[i] == p.stops[i]
    ensures forall i :: 0 <= i < |p.stops| && p.stops[i].id == id ==> r.stops[i] == PatchStop(p.stops[i], u)
    ensures Keys(r.stops, Id) == Keys(p.stops, Id)
    ensures id !in Keys(p.stops, Id) ==> r == p
    ensures r.gradientType == p.gradientType && r.angle == p.angle
  {
    MapWhereKeys(p.stops, Id, id, s => PatchStop(s, u));
    p.(stops := MapWhere(p.stops, Id, id, s => PatchStop(s, u)))
  }

  /** Position of colour i of n spread evenly from 0% to 100%: (i / (n - 1)) * 100,
      rounded down to an integer. */
  function EvenPosition(i: nat, n: nat): (pos: int)
    requires i < n && n >= 2
    ensures 0 <= pos <= 100
    ensures i == 0 ==> pos == 0
    ensures i == n - 1 ==> pos == 100
    ensures (i * 100) % (n - 1) == 0 ==> pos * (n - 1) == i * 100
  {
    QuotientBounds(i, n - 1);
    (i * 100) / (n - 1)
  }

  lemma QuotientBounds(i: nat, d: nat)
    requires 0 < d && i <= d
    ensures 0 <= (i * 100) / d <= 100
    ensures i == d ==> (i * 100) / d == 100
    ensures (i * 100) % d == 0 ==> ((i * 100) / d) * d == i * 100
  {
    var a := i * 100;
    var q, r := a / d, a % d;
    assert a == q * d + r && 0 <= r < d;
    MulLe(i, d, 100);
    FloorDivLe(a, d, 100);
    if i == d {
      assert a == 100 * d;
      MulLe(q + 1, 100, d);
    }
  }

  lemma MulLe(x: int, y: int, c: nat)
    ensures x <= y ==> x * c <= y * c
  {
    assert y * c == x * c + (y - x) * c;
  }

  /** a <= q * d gives a / d <= q. */
  lemma FloorDivLe(a: nat, d: nat, q: nat)
    requires d > 0 && a <= q * d
    ensures a / d <= q
  {
    var k := a / d;
    assert k * d + a % d == a;
    MulLe(q + 1, k, d);
  }

  lemma EvenPositionMonotonic(i: nat, j: nat, n: nat)
    requires i <= j < n && n >= 2
    ensures EvenPosition(i, n) <= EvenPosition(j, n)
  {
    var d := n - 1;
    var a, b := i * 100, j * 100;
    MulLe(i, j, 100);
    var qa, qb := a / d, b / d;
    assert qa * d + a % d == a && qb * d + b % d == b;
    MulLe(qb + 1, qa, d);
  }

  /** `applyPreset`: stop i gets colour i, position (i / (n - 1)) * 100 and id `now + i`. */
  function ApplyPreset(p: Page, colors: seq<string>, now: string): (r: Page)
    requires |colors| >= 2
    ensures |r.stops| == |colors|
    ensures forall i :: 0 <= i < |colors| ==>
              r.stops[i].color == colors[i] && r.stops[i].position == EvenPosition(i, |colors|)
    ensures r.stops[0].position == 0 && r.stops[|colors| - 1].position == 100
    ensures DistinctBy(r.stops, Id)
    ensures r.gradientType == p.gradientType && r.angle == p.angle
  {
    var stops := seq(|colors|, i requires 0 <= i < |colors| =>
      ColorStop(now + IntToString(i), colors[i], EvenPosition(i, |colors|)));
    IndexedIdsDistinct(stops, Id, now);
    p.(stops := stops)
  }

  /** The stops a preset installs are already in order, so the sort keeps them as they are. */
  lemma ApplyPresetSorted(p: Page, colors: seq<string>, now: string)
    requires |colors| >= 2
    ensures SortedBy(ApplyPreset(p, colors, now).stops, Position)
    ensures SortedStops(ApplyPreset(p, colors, now).stops) == ApplyPreset(p, colors, now).stops
  {
    var s := ApplyPreset(p, colors, now).stops;
    forall i, j | 0 <= i < j < |s| ensures Position(s[i]) <= Position(s[j]) {
      EvenPositionMonotonic(i, j, |colors|);
    }
    SortByOfSorted(s, Position);
  }

  /** Every built-in preset has two colours, so its stops sit exactly at 0% and 100%. */
  lemma BuiltInPresets(p: Page, k: nat, now: string)
    requires k < |PresetGradients|
    ensures var r := ApplyPreset(p, PresetGradients[k].colors, now);
      |r.stops| == 2 && r.stops[0].position == 0 && r.stops[1].position == 100 && Valid(r.stops)
  {
    assert |PresetGradients[k].colors| == 2;
  }

  // ---------------------------------------------------------------------
  // The invariant the handlers keep
  // ---------------------------------------------------------------------

  lemma AddColorStopValid(p: Page, freshId: string)
    requires Valid(p.stops) && freshId !in Keys(p.stops, Id)
    ensures Valid(AddColorStop(p, freshId).stops)
  {
    AppendFreshDistinct(p.stops, Id, NewStop(freshId));
  }

  /** The guard and distinct ids keep at least two stops. */
  lemma RemoveColorStopValid(p: Page, id: string)
    requires Valid(p.stops)
    ensures Valid(RemoveColorStop(p, id).stops)
    ensures |p.stops| > 2 && id in Keys(p.stops, Id) ==> |RemoveColorStop(p, id).stops| == |p.stops| - 1
  {
    if |p.stops| > 2 {
      WithoutCount(p.stops, Id, id);
      WithoutDistinct(p.stops, Id, id);
    }
  }

  lemma UpdateColorStopValid(p: Page, id: string, u: StopPatch)
    requires Valid(p.stops)
    ensures Valid(UpdateColorStop(p, id, u).stops)
  {
    MapWhereKeys(p.stops, Id, id, s => PatchStop(s, u));
  }

  // ---------------------------------------------------------------------
  // sortedStops, getGradientString and generateCSS
  // ---------------------------------------------------------------------

  /** `sortedStops`: a stable sort of a copy by position. */
  function SortedStops(stops: seq<ColorStop>): (r: seq<ColorStop>)
    ensures multiset(r) == multiset(stops)
    ensures SortedBy(r, Position)
    ensures StableFor(r, stops, Position)
  {
    SortBySorted(stops, Position);
    SortByStable(stops, Position);
    SortBy(stops, Position)
  }

  /** One stop as `COLOR POS%`. */
  function StopText(s: ColorStop): string {
    s.color + " " + IntToString(s.position) + "%"
  }

  function StopTexts(stops: seq<ColorStop>): (r: seq<string>)
    ensures |r| == |stops| && forall i :: 0 <= i < |stops| ==> r[i] == StopText(stops[i])
  {
    seq(|stops|, i requires 0 <= i < |stops| => StopText(stops[i]))
  }

  /** The sorted stops, joined by `, `. */
  function StopList(stops: seq<ColorStop>): string {
    Join(StopTexts(SortedStops(stops)), ", ")
  }

  /** `getGradientString`. */
  function GradientString(p: Page): string {
    var stops := StopList(p.stops);
    match p.gradientType
    case Linear => "linear-gradient(" + IntToString(p.angle) + "deg, " + stops + ")"
    case Radial => "radial-gradient(circle, " + stops + ")"
    case Conic => "conic-gradient(from " + IntToString(p.angle) + "deg, " + stops + ")"
  }

  /** `generateCSS`. */
  function GenerateCss(p: Page): string {
    ".element {\n  background: " + GradientString(p) + ";\n}"
  }

  /** Two style sheets are equal exactly when their gradients are: the page
      writes nothing but the `background` declaration. */
  lemma GenerateCssBackground(p: Page, q: Page)
    ensures GenerateCss(p) == GenerateCss(q) <==> GradientString(p) == GradientString(q)
  {
    Framed(".element {\n  background: ", GradientString(p), GradientString(q), ";\n}");
  }

  /** The stop list does not depend on the order the stops were added in
      beyond what the sort keeps: an already ordered list is written as it is. */
  lemma StopListOfSorted(stops: seq<ColorStop>)
    requires SortedBy(stops, Position)
    ensures StopList(stops) == Join(StopTexts(stops), ", ")
  {
    SortByOfSorted(stops, Position);
  }

  /** A radial gradient is a circle and ignores the angle; the other two use it. */
  lemma RadialIgnoresAngle(p: Page, angle: int)
    requires p.gradientType == Radial
    ensures GradientString(p.(angle := angle)) == GradientString(p)
  {
  }

  /** The angle is written into linear and conic gradients: different angles
      give different strings. */
  lemma AngleShows(p: Page, angle: int)
    requires p.gradientType != Radial && angle != p.angle
    ensures GradientString(p.(angle := angle)) != GradientString(p)
  {
    var pre := if p.gradientType == Linear then "linear-gradient(" else "conic-gradient(from ";
    var a, b := IntToString(p.angle), IntToString(angle);
    if GradientString(p.(angle := angle)) == GradientString(p) {
      SameContext(pre, a, b, "deg, ", StopList(p.stops), ")");
      IntToStringInjective(p.angle, angle);
    }
  }

  /** Equal texts that differ only in a middle part have equal middle parts. */
  lemma SameContext(pre: string, a: string, b: string, x: string, y: string, z: string)
    requires pre + b + x + y + z == pre + a + x + y + z
    ensures a == b
  {
    var s, t := pre + a + x + y + z, pre + b + x + y + z;
    assert |a| == |b|;
    assert s[|pre|..|pre| + |a|] == a;
    assert t[|pre|..|pre| + |b|] == b;
  }

  lemma InitialStopTexts()
    ensures StopTexts(InitialStops) == ["#3b82f6 0%", "#8b5cf6 50%", "#ec4899 100%"]
  {
    assert IntToString(0) == "0";
    assert IntToString(50) == "50";
    assert IntToString(100) == "100";
    assert "#3b82f6" + " " == "#3b82f6 ";
    assert "#3b82f6 " + "0" + "%" == "#3b82f6 0%";
    assert "#8b5cf6" + " " == "#8b5cf6 ";
    assert "#8b5cf6 " + "50" + "%" == "#8b5cf6 50%";
    assert "#ec4899" + " " == "#ec4899 ";
    assert "#ec4899 " + "100" + "%" == "#ec4899 100%";
  }

  lemma JoinThree(a: string, b: string, c: string, sep: string)
    ensures Join([a, b, c], sep) == a + sep + b + sep + c
  {
    assert [a, b, c][..2] == [a, b];
    assert [a, b][..1] == [a];
  }

  lemma InitialStopList()
    ensures StopList(InitialStops) == "#3b82f6 0%" + ", " + "#8b5cf6 50%" + ", " + "#ec4899 100%"
  {
    assert SortedBy(InitialStops, Position);
    StopListOfSorted(InitialStops);
    InitialStopTexts();
    JoinThree("#3b82f6 0%", "#8b5cf6 50%", "#ec4899 100%", ", ");
  }

  /** Scenario: the initial page, three stops and a 135 degree linear gradient. */
  lemma InitialGradient()
    ensures GradientString(InitialPage)
            == "linear-gradient(" + "135" + "deg, " +
               ("#3b82f6 0%" + ", " + "#8b5cf6 50%" + ", " + "#ec4899 100%") + ")"
  {
    InitialStopList();
    Text135();
    var stops := "#3b82f6 0%" + ", " + "#8b5cf6 50%" + ", " + "#ec4899 100%";
    assert InitialPage.gradientType == Linear && InitialPage.angle == 135;
    assert GradientString(InitialPage) == "linear-gradient(" + IntToString(135) + "deg, " + stops + ")";
  }

  lemma Text135()
    ensures IntToString(135) == "135"
  {
    assert NatToString(1) == "1";
    assert NatToString(13) == "1" + "3";
    assert NatToString(135) == "13" + "5";
  }
}
