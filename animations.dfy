/** The keyframe-animation editor (src/app/animations/page.tsx): an ordered
    list of keyframes kept sorted by percentage, the animation settings, and
    the `@keyframes` snippet generated from them.

    Decimal slider values are integers in hundredths: a scale of 1.2 is 120,
    an opacity of 0.5 is 50, a duration of 1s is 100. */
module Animations {
  import opened Common
  import opened Ordering
  import opened Lists

  datatype Keyframe = Keyframe(
    id: string,
    percentage: int,
    opacity: int,     // hundredths
    scale: int,       // hundredths
    rotate: int,      // degrees
    translateX: int,  // px
    translateY: int)  // px

  datatype Settings = Settings(
    name: string,
    duration: int,    // hundredths of a second
    timingFunction: string,
    delay: int,       // hundredths of a second
    iterationCount: string,
    direction: string,
    fillMode: string)

  /** The page state that the handlers below replace. */
  datatype Editor = Editor(settings: Settings, keyframes: seq<Keyframe>)

  /** A `Partial<Keyframe>` update; the page never changes an id. */
  datatype KeyframePatch = KeyframePatch(
    percentage: Option<int>,
    opacity: Option<int>,
    scale: Option<int>,
    rotate: Option<int>,
    translateX: Option<int>,
    translateY: Option<int>)

  datatype PresetStep = PresetStep(
    percentage: int, translateY: int, scale: int, opacity: int, rotate: int, translateX: int)

  datatype Preset = Preset(name: string, keyframes: seq<PresetStep>)

  const PresetAnimations: seq<Preset> := [
    Preset("Bounce", [PresetStep(0, 0, 100, 100, 0, 0), PresetStep(50, -30, 110, 100, 0, 0),
                      PresetStep(100, 0, 100, 100, 0, 0)]),
    Preset("Fade In", [PresetStep(0, 20, 100, 0, 0, 0), PresetStep(100, 0, 100, 100, 0, 0)]),
    Preset("Pulse", [PresetStep(0, 0, 100, 100, 0, 0), PresetStep(50, 0, 115, 100, 0, 0),
                     PresetStep(100, 0, 100, 100, 0, 0)]),
    Preset("Shake", [PresetStep(0, 0, 100, 100, 0, 0), PresetStep(25, 0, 100, 100, 0, -10),
                     PresetStep(50, 0, 100, 100, 0, 10), PresetStep(75, 0, 100, 100, 0, -10),
                     PresetStep(100, 0, 100, 100, 0, 0)]),
    Preset("Rotate", [PresetStep(0, 0, 100, 100, 0, 0), PresetStep(100, 0, 100, 100, 360, 0)]),
    Preset("Slide In", [PresetStep(0, 0, 100, 0, 0, -100), PresetStep(100, 0, 100, 100, 0, 0)])
  ]

  const DefaultSettings: Settings :=
    Settings("myAnimation", 100, "ease-in-out", 0, "infinite", "normal", "forwards")

  const InitialEditor: Editor := Editor(DefaultSettings, [
    Keyframe("1", 0, 100, 100, 0, 0, 0),
    Keyframe("2", 50, 100, 120, 0, 0, -20),
    Keyframe("3", 100, 100, 100, 0, 0, 0)
  ])

  function Percentage(k: Keyframe): int {
    k.percentage
  }

  function Id(k: Keyframe): string {
    k.id
  }

  /** A keyframe that changes nothing: no offset, no rotation, scale and opacity 1. */
  predicate IsIdentity(k: Keyframe) {
    k.translateX == 0 && k.translateY == 0 && k.scale == 100 && k.rotate == 0 && k.opacity == 100
  }

  /** What the page maintains: at least two keyframes, distinct ids, sorted by percentage. */
  ghost predicate Valid(ks: seq<Keyframe>) {
    |ks| >= 2 && DistinctBy(ks, Id) && SortedBy(ks, Percentage)
  }

  // ---------------------------------------------------------------------
  // List handlers
  // ---------------------------------------------------------------------

  /** The percentage `addKeyframe` gives its new keyframe: 25 past the last one, at most 100. */
  function NextPercentage(ks: seq<Keyframe>): (p: int)
    requires |ks| >= 1
    ensures p <= 100
    ensures p == 100 || p == ks[|ks| - 1].percentage + 25
    ensures ks[|ks| - 1].percentage <= 75 ==> p == ks[|ks| - 1].percentage + 25
  {
    var p := ks[|ks| - 1].percentage + 25;
    if p < 100 then p else 100
  }

  /** `addKeyframe`: an identity keyframe after the last one, then the list re-sorted. */
  function AddKeyframe(ks: seq<Keyframe>, freshId: string): (r: seq<Keyframe>)
    requires |ks| >= 1
    ensures |r| == |ks| + 1
    ensures multiset(r) == multiset(ks) + multiset{Keyframe(freshId, NextPercentage(ks), 100, 100, 0, 0, 0)}
    ensures SortedBy(r, Percentage)
    ensures StableFor(r, ks + [Keyframe(freshId, NextPercentage(ks), 100, 100, 0, 0, 0)], Percentage)
  {
    var s := ks + [Keyframe(freshId, NextPercentage(ks), 100, 100, 0, 0, 0)];
    SortBySorted(s, Percentage);
    SortByStable(s, Percentage);
    SortBy(s, Percentage)
  }

  /** `removeKeyframe`: the guard keeps at least three keyframes before filtering. */
  function RemoveKeyframe(ks: seq<Keyframe>, id: string): (r: seq<Keyframe>)
    ensures |ks| <= 2 ==> r == ks
    ensures |ks| > 2 ==> id !in Keys(r, Id)
    ensures forall k :: k in r ==> k in ks
    ensures forall k :: k in ks && k.id != id ==> k in r
    ensures |ks| > 2 && DistinctBy(ks, Id) ==>
              forall j :: 0 <= j < |ks| && ks[j].id == id ==> r == ks[..j] + ks[j + 1..]
  {
    if |ks| > 2 then
      WithoutOne(ks, Id, id); Without(ks, Id, id)
    else ks
  }

  /** `{ ...k, ...updates }` for a keyframe. */
  function PatchKeyframe(k: Keyframe, p: KeyframePatch): (r: Keyframe)
    ensures r.id == k.id
  {
    Keyframe(k.id, Patched(p.percentage, k.percentage), Patched(p.opacity, k.opacity),
             Patched(p.scale, k.scale), Patched(p.rotate, k.rotate),
             Patched(p.translateX, k.translateX), Patched(p.translateY, k.translateY))
  }

  /** The `map` step of `updateKeyframe`, before sorting. */
  function PatchById(ks: seq<Keyframe>, id: string, p: KeyframePatch): (r: seq<Keyframe>)
    ensures |r| == |ks| && Keys(r, Id) == Keys(ks, Id)
    ensures DistinctBy(ks, Id) ==> DistinctBy(r, Id)
  {
    MapWhereKeys(ks, Id, id, k => PatchKeyframe(k, p));
    MapWhere(ks, Id, id, k => PatchKeyframe(k, p))
  }

  /** `updateKeyframe`: patch the keyframe(s) with the id, then re-sort by percentage. */
  function UpdateKeyframe(ks: seq<Keyframe>, id: string, p: KeyframePatch): (r: seq<Keyframe>)
    ensures |r| == |ks|
    ensures SortedBy(r, Percentage)
    ensures multiset(r) == multiset(PatchById(ks, id, p))
    ensures StableFor(r, PatchById(ks, id, p), Percentage)
    ensures DistinctBy(ks, Id) ==> DistinctBy(r, Id)
    ensures forall k :: k in ks && k.id != id ==> k in r
    ensures forall k :: k in r ==>
              (k in ks && k.id != id) ||
              (exists j :: 0 <= j < |ks| && ks[j].id == id && k == PatchKeyframe(ks[j], p))
  {
    UpdateKeyframeFacts(ks, id, p);
    SortBy(PatchById(ks, id, p), Percentage)
  }

  lemma UpdateKeyframeFacts(ks: seq<Keyframe>, id: string, p: KeyframePatch)
    ensures var r := SortBy(PatchById(ks, id, p), Percentage);
      && SortedBy(r, Percentage)
      && StableFor(r, PatchById(ks, id, p), Percentage)
      && (DistinctBy(ks, Id) ==> DistinctBy(r, Id))
      && (forall k :: k in ks && k.id != id ==> k in r)
      && (forall k :: k in r ==>
            (k in ks && k.id != id) ||
            (exists j :: 0 <= j < |ks| && ks[j].id == id && k == PatchKeyframe(ks[j], p)))
  {
    var m := PatchById(ks, id, p);
    var r := SortBy(m, Percentage);
    SortBySorted(m, Percentage);
    SortByStable(m, Percentage);
    if DistinctBy(ks, Id) {
      PermutationDistinctBy(m, r, Id);
    }
    forall k | k in ks && k.id != id ensures k in r {
      var i :| 0 <= i < |ks| && ks[i] == k;
      assert m[i] == k;
      assert k in multiset(m);
    }
    forall k | k in r
      ensures (k in ks && k.id != id) ||
              (exists j :: 0 <= j < |ks| && ks[j].id == id && k == PatchKeyframe(ks[j], p))
    {
      assert k in multiset(r);
      var i :| 0 <= i < |m| && m[i] == k;
    }
  }

  /** The keyframes a preset installs, with ids `now + i` as `Date.now().toString() + i`. */
  function PresetKeyframes(steps: seq<PresetStep>, now: string): (ks: seq<Keyframe>)
    ensures |ks| == |steps|
    ensures forall i :: 0 <= i < |steps| ==>
      ks[i] == Keyframe(now + IntToString(i), steps[i].percentage, steps[i].opacity, steps[i].scale,
                        steps[i].rotate, steps[i].translateX, steps[i].translateY)
  {
    seq(|steps|, i requires 0 <= i < |steps| =>
      Keyframe(now + IntToString(i), steps[i].percentage, steps[i].opacity, steps[i].scale,
               steps[i].rotate, steps[i].translateX, steps[i].translateY))
  }

  /** The animation name a preset gives: lower-cased, first space turned into '-'. */
  function PresetName(name: string): (r: string)
    ensures |r| == |name|
    ensures ' ' in name ==> r[IndexOf(name, ' ')] == '-'
    ensures forall i :: 0 <= i < |name| && i != IndexOf(name, ' ') ==> r[i] == LowerChar(name[i])
  {
    ReplaceFirst(ToLower(name), ' ', '-')
  }

  /** `applyPreset`: the preset's keyframes in order, and its name; other settings kept. */
  function ApplyPreset(ed: Editor, preset: Preset, now: string): (r: Editor)
    ensures r.keyframes == PresetKeyframes(preset.keyframes, now)
    ensures r.settings == ed.settings.(name := PresetName(preset.name))
    ensures DistinctBy(r.keyframes, Id)
  {
    var ks := PresetKeyframes(preset.keyframes, now);
    IndexedIdsDistinct(ks, Id, now);
    Editor(ed.settings.(name := PresetName(preset.name)), ks)
  }

  const ResetKeyframes: seq<Keyframe> := [
    Keyframe("1", 0, 100, 100, 0, 0, 0),
    Keyframe("2", 100, 100, 100, 0, 0, 0)
  ]

  /** `resetAll`: two identity keyframes at 0% and 100%, and the default settings. */
  function ResetAll(): (r: Editor)
    ensures |r.keyframes| == 2
    ensures r.keyframes[0].percentage == 0 && r.keyframes[1].percentage == 100
    ensures IsIdentity(r.keyframes[0]) && IsIdentity(r.keyframes[1])
    ensures Valid(r.keyframes)
    ensures r.settings == DefaultSettings
  {
    Editor(DefaultSettings, ResetKeyframes)
  }

  // ---------------------------------------------------------------------
  // The invariant the handlers keep
  // ---------------------------------------------------------------------

  /** `addKeyframe` with an unused id keeps the page invariant. */
  lemma AddKeyframeValid(ks: seq<Keyframe>, freshId: string)
    requires Valid(ks) && freshId !in Keys(ks, Id)
    ensures Valid(AddKeyframe(ks, freshId))
  {
    var k := Keyframe(freshId, NextPercentage(ks), 100, 100, 0, 0, 0);
    var s := ks + [k];
    AppendFreshDistinct(ks, Id, k);
    PermutationDistinctBy(s, AddKeyframe(ks, freshId), Id);
  }

  /** With distinct ids, `removeKeyframe` never leaves fewer than two keyframes. */
  lemma RemoveKeyframeValid(ks: seq<Keyframe>, id: string)
    requires Valid(ks)
    ensures Valid(RemoveKeyframe(ks, id))
    ensures |ks| > 2 && id in Keys(ks, Id) ==> |RemoveKeyframe(ks, id)| == |ks| - 1
  {
    if |ks| > 2 {
      WithoutCount(ks, Id, id);
      WithoutSorted(ks, Id, id, Percentage);
      WithoutDistinct(ks, Id, id);
    }
  }

  lemma UpdateKeyframeValid(ks: seq<Keyframe>, id: string, p: KeyframePatch)
    requires Valid(ks)
    ensures Valid(UpdateKeyframe(ks, id, p))
  {
  }

  /** Every built-in preset has at least two keyframes, sorted, from 0% to 100%. */
  lemma PresetsWellFormed()
    ensures forall i :: 0 <= i < |PresetAnimations| ==>
      var steps := PresetAnimations[i].keyframes;
      |steps| >= 2 && steps[0].percentage == 0 && steps[|steps| - 1].percentage == 100 &&
      forall a, b :: 0 <= a < b < |steps| ==> steps[a].percentage <= steps[b].percentage
  {
  }

  lemma ApplyPresetValid(ed: Editor, i: nat, now: string)
    requires i < |PresetAnimations|
    ensures Valid(ApplyPreset(ed, PresetAnimations[i], now).keyframes)
  {
    PresetsWellFormed();
  }

  lemma LowerFadeIn()
    ensures ToLower("Fade In") == "fade in"
  {
  }

  lemma ReplaceFadeIn()
    ensures ReplaceFirst("fade in", ' ', '-') == "fade-in"
  {
    assert "fade in" == "fade" + [' '] + "in";
    ReplaceFirstAt("fade", ' ', "in", '-');
    assert "fade" + ['-'] + "in" == "fade-in";
  }

  /** Scenario: the "Fade In" preset names the animation `fade-in`. */
  lemma PresetNameFadeIn()
    ensures PresetName("Fade In") == "fade-in"
  {
    LowerFadeIn();
    ReplaceFadeIn();
  }

  // ---------------------------------------------------------------------
  // generateKeyframesCSS
  // ---------------------------------------------------------------------

  /** The transform functions of a keyframe, in the fixed order translateX,
      translateY, scale, rotate, each only when it is not the identity; there
      are none exactly when the keyframe neither moves, scales nor rotates. */
  function Transforms(k: Keyframe): (r: seq<string>)
    ensures r == [] <==> k.translateX == 0 && k.translateY == 0 && k.scale == 100 && k.rotate == 0
  {
    (if k.translateX != 0 then ["translateX(" + IntToString(k.translateX) + "px)"] else []) +
    (if k.translateY != 0 then ["translateY(" + IntToString(k.translateY) + "px)"] else []) +
    (if k.scale != 100 then ["scale(" + CentiText(k.scale) + ")"] else []) +
    (if k.rotate != 0 then ["rotate(" + IntToString(k.rotate) + "deg)"] else [])
  }

  /** The `transforms` array that `generateKeyframesCSS` fills with conditional pushes. */
  method KeyframeTransforms(k: Keyframe) returns (transforms: seq<string>)
    ensures transforms == Transforms(k)
  {
    ghost var x1 := if k.translateX != 0 then ["translateX(" + IntToString(k.translateX) + "px)"] else [];
    ghost var x2 := if k.translateY != 0 then ["translateY(" + IntToString(k.translateY) + "px)"] else [];
    ghost var x3 := if k.scale != 100 then ["scale(" + CentiText(k.scale) + ")"] else [];
    transforms := [];
    if k.translateX != 0 { transforms := transforms + ["translateX(" + IntToString(k.translateX) + "px)"]; }
    assert transforms == x1;
    if k.translateY != 0 { transforms := transforms + ["translateY(" + IntToString(k.translateY) + "px)"]; }
    assert transforms == x1 + x2;
    if k.scale != 100 { transforms := transforms + ["scale(" + CentiText(k.scale) + ")"]; }
    assert transforms == x1 + x2 + x3;
    if k.rotate != 0 { transforms := transforms + ["rotate(" + IntToString(k.rotate) + "deg)"]; }
  }

  /** `[a, b].filter(Boolean)`: the non-empty strings, in order. A list with
      no empty string is kept whole; `NonEmptyConcat` gives the order. */
  function NonEmpty(parts: seq<string>): (r: seq<string>)
    ensures |r| <= |parts|
    ensures forall x :: x in r <==> x in parts && x != ""
    ensures (forall i :: 0 <= i < |parts| ==> parts[i] != "") ==> r == parts
  {
    if |parts| == 0 then []
    else
      var init, last := parts[..|parts| - 1], parts[|parts| - 1];
      assert parts == init + [last];
      NonEmpty(init) + (if last != "" then [last] else [])
  }

  /** Filtering a concatenation filters each part and keeps them in order, so
      the kept strings appear in the order of the original list. */
  lemma {:induction false} NonEmptyConcat(a: seq<string>, b: seq<string>)
    ensures NonEmpty(a + b) == NonEmpty(a) + NonEmpty(b)
  {
    if |b| == 0 {
      assert a + b == a;
    } else {
      var init, last := b[..|b| - 1], b[|b| - 1];
      assert (a + b)[..|a + b| - 1] == a + init;
      NonEmptyConcat(a, init);
    }
  }

  function TransformDeclaration(k: Keyframe): string {
    if |Transforms(k)| > 0 then "transform: " + Join(Transforms(k), " ") + ";" else ""
  }

  function OpacityDeclaration(k: Keyframe): string {
    if k.opacity != 100 then "opacity: " + CentiText(k.opacity) + ";" else ""
  }

  /** The declarations of one keyframe block, or a comment when it changes nothing. */
  function KeyframeBody(k: Keyframe): string {
    var body := Join(NonEmpty([TransformDeclaration(k), OpacityDeclaration(k)]), "\n    ");
    if body != "" then body else "/* no changes */"
  }

  function KeyframeRule(k: Keyframe): string {
    "  " + IntToString(k.percentage) + "% {\n    " + KeyframeBody(k) + "\n  }"
  }

  function KeyframeRules(ks: seq<Keyframe>): (r: seq<string>)
    ensures |r| == |ks| && forall i :: 0 <= i < |ks| ==> r[i] == KeyframeRule(ks[i])
  {
    seq(|ks|, i requires 0 <= i < |ks| => KeyframeRule(ks[i]))
  }

  /** The opening of the `@keyframes` rule. */
  function KeyframesHead(s: Settings): string {
    "@keyframes " + s.name + " {\n"
  }

  /** Everything after the keyframe blocks: the closing brace of `@keyframes`
      and the `.animated-element` rule with the seven animation properties. */
  function KeyframesTail(s: Settings): string {
    "\n}\n\n" +
    ".animated-element {\n" +
    "  animation-name: " + s.name + ";\n" +
    "  animation-duration: " + CentiText(s.duration) + "s;\n" +
    "  animation-timing-function: " + s.timingFunction + ";\n" +
    "  animation-delay: " + CentiText(s.delay) + "s;\n" +
    "  animation-iteration-count: " + s.iterationCount + ";\n" +
    "  animation-direction: " + s.direction + ";\n" +
    "  animation-fill-mode: " + s.fillMode + ";\n" +
    "}"
  }

  /** `generateKeyframesCSS`: the keyframe blocks separated by newlines inside
      `@keyframes`, then the rule that applies the animation. */
  function KeyframesCss(ed: Editor): string {
    KeyframesHead(ed.settings) + Join(KeyframeRules(ed.keyframes), "\n") + KeyframesTail(ed.settings)
  }

  /** Adding a keyframe at the end inserts a newline and its block just before
      the closing `}` of `@keyframes`; the rest of the style sheet is unchanged. */
  lemma KeyframesCssAppend(ed: Editor, k: Keyframe)
    requires |ed.keyframes| >= 1
    ensures var css, t := KeyframesCss(ed), KeyframesTail(ed.settings);
            EndsWith(css, t) &&
            KeyframesCss(ed.(keyframes := ed.keyframes + [k])) == css[..|css| - |t|] + "\n" + KeyframeRule(k) + t
  {
    var h, j, t := KeyframesHead(ed.settings), Join(KeyframeRules(ed.keyframes), "\n"), KeyframesTail(ed.settings);
    var css := KeyframesCss(ed);
    KeyframeRulesAppend(ed.keyframes, k);
    EndsWithAppend(h + j, t);
    assert css[..|css| - |t|] == h + j;
    AppendThree(h, j, "\n", KeyframeRule(k));
  }

  /** With the same settings, two style sheets are equal exactly when their
      keyframe blocks are: everything outside the blocks comes from the settings. */
  lemma KeyframesCssSameSettings(e1: Editor, e2: Editor)
    requires e1.settings == e2.settings
    ensures KeyframesCss(e1) == KeyframesCss(e2) <==>
            Join(KeyframeRules(e1.keyframes), "\n") == Join(KeyframeRules(e2.keyframes), "\n")
  {
    Framed(KeyframesHead(e1.settings), Join(KeyframeRules(e1.keyframes), "\n"),
           Join(KeyframeRules(e2.keyframes), "\n"), KeyframesTail(e1.settings));
  }

  /** The body of a keyframe block by cases: the transform declaration, then the
      opacity declaration, each only when it is not the identity, and the
      `no changes` comment exactly when the keyframe is the identity. */
  lemma KeyframeBodyCases(k: Keyframe)
    ensures var t := "transform: " + Join(Transforms(k), " ") + ";";
            var o := "opacity: " + CentiText(k.opacity) + ";";
            KeyframeBody(k) ==
              if |Transforms(k)| > 0 && k.opacity != 100 then t + "\n    " + o
              else if |Transforms(k)| > 0 then t
              else if k.opacity != 100 then o
              else "/* no changes */"
    ensures KeyframeBody(k) == "/* no changes */" <==> IsIdentity(k)
  {
    var parts := [TransformDeclaration(k), OpacityDeclaration(k)];
    assert parts[..1] == [TransformDeclaration(k)];
    assert NonEmpty(parts[..1]) == if TransformDeclaration(k) != "" then [TransformDeclaration(k)] else [];
    if |Transforms(k)| > 0 {
      assert TransformDeclaration(k)[0] == 't';
    }
    if k.opacity != 100 {
      assert OpacityDeclaration(k)[0] == 'o';
    }
  }

  /** One keyframe block per keyframe, in list order: appending a keyframe
      appends its block after a newline. */
  lemma KeyframeRulesAppend(ks: seq<Keyframe>, k: Keyframe)
    requires |ks| >= 1
    ensures Join(KeyframeRules(ks + [k]), "\n") == Join(KeyframeRules(ks), "\n") + "\n" + KeyframeRule(k)
  {
    assert KeyframeRules(ks + [k]) == KeyframeRules(ks) + [KeyframeRule(k)];
    JoinConcat(KeyframeRules(ks), [KeyframeRule(k)], "\n");
  }

  lemma ExampleTransforms()
    ensures Transforms(Keyframe("2", 50, 100, 120, 0, 0, -20)) == ["translateY(-20px)", "scale(1.2)"]
  {
    assert IntToString(-20) == "-20";
    assert CentiText(120) == "1.2";
    assert "translateY(" + IntToString(-20) + "px)" == "translateY(-20px)";
    assert "scale(" + CentiText(120) + ")" == "scale(1.2)";
  }

  lemma ExampleJoin()
    ensures Join(["translateY(-20px)", "scale(1.2)"], " ") == "translateY(-20px) scale(1.2)"
  {
    var ts := ["translateY(-20px)", "scale(1.2)"];
    assert ts[..1] == ["translateY(-20px)"];
  }

  lemma ExampleBody()
    ensures KeyframeBody(Keyframe("2", 50, 100, 120, 0, 0, -20))
            == "transform: " + "translateY(-20px) scale(1.2)" + ";"
  {
    var k := Keyframe("2", 50, 100, 120, 0, 0, -20);
    ExampleTransforms();
    ExampleJoin();
    KeyframeBodyCases(k);
    assert |Transforms(k)| == 2 && k.opacity == 100;
  }

  /** Scenario: a keyframe that only moves up 20px and scales to 1.2. */
  lemma KeyframeRuleExample()
    ensures KeyframeRule(Keyframe("2", 50, 100, 120, 0, 0, -20))
            == "  50% {\n    " + ("transform: " + "translateY(-20px) scale(1.2)" + ";") + "\n  }"
  {
    ExampleBody();
    assert IntToString(50) == "50";
    assert "  " + "50" + "% {\n    " == "  50% {\n    ";
  }

  /** Scenario: an identity keyframe writes the `no changes` comment. */
  lemma IdentityRuleExample()
    ensures KeyframeRule(Keyframe("1", 0, 100, 100, 0, 0, 0)) == "  0% {\n    /* no changes */\n  }"
  {
    KeyframeBodyCases(Keyframe("1", 0, 100, 100, 0, 0, 0));
  }
}
