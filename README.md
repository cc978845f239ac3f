# CSS-Toolbox editors, modelled in Dafny

CSS-Toolbox is a set of browser pages. On each page the user edits a small piece of state with sliders and buttons, and the page writes the matching CSS snippet for copying. This project models, page by page, the state operations (add, remove, update, preset, reset, clamps) and the text serialisers that turn the state into CSS or HTML. It then proves what those operations promise:
- which fields change and which stay
- the minimum list lengths
- sortedness and permutation
- where each piece of text appears
- which settings can be read back from the generated text

Modules:

- `Common`: shared text and number helpers.
  - `Option`, partial-record patches and distinct ids.
  - Integer-to-text with its parse round trip and injectivity.
  - Decimals held in hundredths (`CentiText`).
  - `Join`, ASCII case mapping, `IndexOf` and `ReplaceFirst`.
  - Suffix lemmas used to say where a piece of text sits.
- `Ordering`: the stable sort by an integer key used by the keyframe editor and by `sortedStops`: an insertion sort (`SortBy`).
- `Lists`: the id-based `filter` and `map` used by every list editor (`Without`, `MapWhere`).
- `Animations`: the keyframe editor and `generateKeyframesCSS` (`src/app/animations/page.tsx`).
- `BoxShadow`: the shadow-layer editor, `getShadowString` and `generateCSS` (`src/app/box-shadow/page.tsx`).
- `Gradients`: the colour-stop editor, `sortedStops`, `getGradientString` and `generateCSS` (`src/app/gradients/page.tsx`).
- `Transform3D`: reset and preset, `getTransformString` and `generateCSS` (`src/app/transform-3d/page.tsx`).
- `FlexboxGrid`: the item-count clamps, `resetSettings`, `containerStyle` and `generateCSS` (`src/app/flexbox-grid/page.tsx`).
- `CardMaker`: `resetSettings`, `applyStylePreset`, `generateCSS` and `generateHTML` (`src/app/card-maker/page.tsx`).
- `Shapes3D`: `applyPreset`, `resetSettings`, the face-colour update and `generateCSS` (`src/app/3d-shapes/page.tsx`).

How the model represents the source:

- **State and handlers.** A page's state is a record datatype. A handler is a function from the old state to the new one, as React's `setState` replaces the state wholesale. A `Partial<T>` update is a patch record of `Option` fields; none of them touches the id.
- **Imperative builders.** Three builders in the source change a local variable step by step:
  - the keyframe `transforms` array, built by conditional `push`
  - `getTransformString`'s `transforms` array, also built by `push`
  - the card maker's `css +=` string

  Each is a method proved equal to a specification function; the rest of the model uses that function.
- **Ids.** The `Date.now()` id of a new record is a parameter (`freshId`). Preset records get `now + i`, as in the source.
- **Numbers.** Slider values are integers, written by `IntToString`. The decimal values are integers in hundredths:
  - keyframe scale and opacity
  - animation duration and delay
  - transform scales
  - half the shape size

  `CentiText` prints them in the shortest JavaScript form (`1.2`, `0.5`, `1`).

## Model

| member | source | states |
|---|---|---|
| Animations.NextPercentage | src/app/animations/page.tsx:110-113 | the new keyframe's percentage is 25 past the last one, never above 100, and exactly last+25 when the last one is at most 75 |
| Animations.AddKeyframe | src/app/animations/page.tsx:109-122 | one more keyframe; the result is a permutation of the old list plus the default keyframe, sorted by percentage, and stable (equal percentages keep the order of old list then new) |
| Animations.AddKeyframeValid | src/app/animations/page.tsx:109-122 | with a fresh id, adding keeps at least two keyframes, unique ids and percentage order |
| Animations.RemoveKeyframe | src/app/animations/page.tsx:124-128 | a list of at most two is left unchanged; otherwise the id is gone, nothing else is removed and nothing is added, and with unique ids the result is the list with exactly that keyframe cut out, the rest in their order |
| Animations.RemoveKeyframeValid | src/app/animations/page.tsx:124-128 | removal keeps at least two keyframes, unique ids and order, and removes exactly one keyframe when the id is present |
| Animations.PatchById | src/app/animations/page.tsx:133 | the map keeps the length and the ids in place, so unique ids stay unique |
| Animations.UpdateKeyframe | src/app/animations/page.tsx:130-136 | same length; a permutation of the patched list, sorted by percentage and stable (keyframes with equal percentages keep their list order); unique ids stay unique; every other keyframe is kept; every keyframe of the result is either an untouched other keyframe or a patched one with the id |
| Animations.UpdateKeyframeFacts | src/app/animations/page.tsx:130-136 | the facts behind UpdateKeyframe: the sorted, patched list is sorted, stable, keeps distinct ids, keeps the others and holds only the others and the patched keyframes |
| Animations.UpdateKeyframeValid | src/app/animations/page.tsx:130-136 | an update keeps the keyframe list valid (at least two, unique ids, sorted) |
| Animations.PresetName | src/app/animations/page.tsx:150 | the name has the preset name's length, its first space becomes `-`, and every other character is lower-cased |
| Animations.ApplyPreset | src/app/animations/page.tsx:138-152 | the keyframes are exactly the preset's, the name is the converted preset name, the other settings stay, and the ids are distinct |
| Animations.PresetsWellFormed | src/app/animations/page.tsx:30-78 | every built-in preset has at least two steps, from 0% to 100%, in percentage order |
| Animations.ApplyPresetValid | src/app/animations/page.tsx:138-152 | applying a built-in preset gives a valid keyframe list |
| Animations.PresetNameFadeIn | src/app/animations/page.tsx:150 | the preset `Fade In` names the animation `fade-in` |
| Animations.ResetAll | src/app/animations/page.tsx:158-173 | two identity keyframes at 0% and 100%, a valid list, and the default settings |
| Animations.Transforms | src/app/animations/page.tsx:177-181 | no transform functions exactly when translateX, translateY and rotate are 0 and scale is 1 |
| Animations.KeyframeTransforms | src/app/animations/page.tsx:177-181 | the conditional pushes build exactly the transform list, in the order translateX, translateY, scale, rotate |
| Animations.NonEmpty | src/app/animations/page.tsx:187 | `filter(Boolean)` keeps exactly the non-empty strings (a string is in the result iff it is a non-empty part) and keeps a list without empty strings whole |
| Animations.NonEmptyConcat | src/app/animations/page.tsx:187 | filtering a concatenation is the concatenation of the filtered parts, so the kept strings stay in their order |
| Animations.KeyframeBodyCases | src/app/animations/page.tsx:183-187 | the block body is the transform declaration, then the opacity one, each only when present; it is `/* no changes */` exactly for an identity keyframe |
| Animations.KeyframeRulesAppend | src/app/animations/page.tsx:191-192 | adding a keyframe at the end adds its block after a newline |
| Animations.KeyframesCssAppend | src/app/animations/page.tsx:175-204 | adding a keyframe at the end inserts a newline and its block just before the closing `}` of `@keyframes`; the style sheet after that point is unchanged |
| Animations.KeyframesCssSameSettings | src/app/animations/page.tsx:191-204 | with the same settings, two style sheets are equal exactly when their keyframe blocks are |
| Animations.ExampleBody | src/app/animations/page.tsx:177-187 | the initial 50% keyframe's body is `transform: translateY(-20px) scale(1.2);` |
| Animations.KeyframeRuleExample | src/app/animations/page.tsx:186-188 | the whole block of the initial 50% keyframe, exactly |
| Animations.IdentityRuleExample | src/app/animations/page.tsx:186-188 | an identity keyframe's block is `/* no changes */` |
| BoxShadow.AddShadow | src/app/box-shadow/page.tsx:69-80 | exactly one layer appended, with the defaults 0/4/16/0, `rgba(0,0,0,0.2)`, not inset; earlier layers and the box unchanged |
| BoxShadow.AddShadowValid | src/app/box-shadow/page.tsx:69-80 | with a fresh id, at least one layer and unique ids are kept |
| BoxShadow.RemoveShadow | src/app/box-shadow/page.tsx:82-86 | a single layer is never removed; otherwise the id is gone, the others stay, nothing is added, and with unique ids the result is the list with exactly that layer cut out, the rest in their order; the box is unchanged |
| BoxShadow.RemoveShadowValid | src/app/box-shadow/page.tsx:82-86 | at least one layer always remains, ids stay unique, and exactly one layer goes when the id is present |
| BoxShadow.UpdateShadow | src/app/box-shadow/page.tsx:88-90 | same length and order, other layers untouched, the target patched, ids unchanged, and no change for an unknown id |
| BoxShadow.UpdateShadowValid | src/app/box-shadow/page.tsx:88-90 | an update keeps the layer list valid |
| BoxShadow.ApplyPreset | src/app/box-shadow/page.tsx:92-94 | exactly the preset's layers in order with the same values, distinct ids, and the box unchanged |
| BoxShadow.ApplyPresetValid | src/app/box-shadow/page.tsx:92-94 | every built-in preset gives a valid layer list |
| BoxShadow.ResetAll | src/app/box-shadow/page.tsx:96-100 | one layer 0/10/30/-5 `rgba(59,130,246,0.4)`, radius 16, colour `#1a1a25` |
| BoxShadow.GeometryStart | src/app/box-shadow/page.tsx:104 | the offsets start with a digit or a minus sign |
| BoxShadow.LayerTextInset | src/app/box-shadow/page.tsx:104 | a layer's text starts with `inset ` exactly when the layer is inset |
| BoxShadow.ShadowStringAppend | src/app/box-shadow/page.tsx:102-106 | adding a layer appends `,\n    ` and the new layer's text to the shadow string |
| BoxShadow.LayerTextExample | src/app/box-shadow/page.tsx:104 | the initial layer is written `0px 10px 30px -5px rgba(59,130,246,0.4)` |
| BoxShadow.ResetShadowString | src/app/box-shadow/page.tsx:96-106 | after reset the shadow string is the single layer's text |
| BoxShadow.GenerateCssShadows | src/app/box-shadow/page.tsx:108-114 | with the same radius and colour, two style sheets are equal exactly when their shadow strings are |
| Gradients.AddColorStop | src/app/gradients/page.tsx:37-40 | one stop `#ffffff` at 50 appended; earlier stops, type and angle unchanged |
| Gradients.AddColorStopValid | src/app/gradients/page.tsx:37-40 | with a fresh id, at least two stops and unique ids are kept |
| Gradients.RemoveColorStop | src/app/gradients/page.tsx:42-46 | at most two stops are left unchanged; otherwise the id is gone, the others stay, nothing is added, and with unique ids the result is the list with exactly that stop cut out, the rest in their order; type and angle unchanged |
| Gradients.RemoveColorStopValid | src/app/gradients/page.tsx:42-46 | at least two stops always remain, ids stay unique, and exactly one stop goes when the id is present |
| Gradients.UpdateColorStop | src/app/gradients/page.tsx:48-52 | same length and order, other stops untouched, the target patched, ids unchanged, no change for an unknown id |
| Gradients.UpdateColorStopValid | src/app/gradients/page.tsx:48-52 | an update keeps the stop list valid |
| Gradients.EvenPosition | src/app/gradients/page.tsx:58 | stop i of n lies in 0..100, the first at 0, the last at 100, and exactly at i·100/(n-1) when that is whole |
| Gradients.EvenPositionMonotonic | src/app/gradients/page.tsx:58 | later stops never come before earlier ones |
| Gradients.ApplyPreset | src/app/gradients/page.tsx:54-61 | one stop per colour, in order, at its even position, first 0 and last 100, distinct ids, type and angle unchanged |
| Gradients.ApplyPresetSorted | src/app/gradients/page.tsx:54-61 | a preset's stops are already in position order, so sorting leaves them as they are |
| Gradients.BuiltInPresets | src/app/gradients/page.tsx:17-26 | every built-in preset gives two valid stops at 0 and 100 |
| Gradients.SortedStops | src/app/gradients/page.tsx:72 | a permutation of the stops, sorted by position, stable for equal positions |
| Gradients.StopListOfSorted | src/app/gradients/page.tsx:72-75 | stops already in order are written in their own order |
| Gradients.RadialIgnoresAngle | src/app/gradients/page.tsx:79-80 | the radial gradient does not depend on the angle |
| Gradients.AngleShows | src/app/gradients/page.tsx:77-82 | for linear and conic gradients, a different angle gives a different text |
| Gradients.InitialGradient | src/app/gradients/page.tsx:74-78 | the initial page writes `linear-gradient(135deg, #3b82f6 0%, #8b5cf6 50%, #ec4899 100%)` |
| Gradients.GenerateCssBackground | src/app/gradients/page.tsx:86-90 | two style sheets are equal exactly when their gradient strings are |
| Transform3D.ResetTransform | src/app/transform-3d/page.tsx:70-85 | the identity transform with perspective 1000 and origin 50/50; the two flags unchanged |
| Transform3D.ApplyPreset | src/app/transform-3d/page.tsx:87-89 | the transform is replaced by the preset's, the flags unchanged |
| Transform3D.Moves | src/app/transform-3d/page.tsx:93-98 | no translate or rotate function exactly when all six are 0 |
| Transform3D.Functions | src/app/transform-3d/page.tsx:93-101 | no function at all exactly for the identity transform |
| Transform3D.GetTransformString | src/app/transform-3d/page.tsx:91-103 | the conditional pushes and the join give exactly the transform string |
| Transform3D.Scale3dIff | src/app/transform-3d/page.tsx:99-101 | `scale3d` with all three scales is written exactly when one scale is not 1, and then it comes last |
| Transform3D.FunctionStart | src/app/transform-3d/page.tsx:93-101 | no written function starts like `none` |
| Transform3D.TransformStringNone | src/app/transform-3d/page.tsx:102 | the transform string is `none` exactly for the identity transform |
| Transform3D.ResetTransformNone | src/app/transform-3d/page.tsx:70-103 | after reset the transform string is `none` |
| Transform3D.HoverTransformFunctions | src/app/transform-3d/page.tsx:122 | the hover transform is the functions followed by `translateZ(20px)`, and it agrees with the page's text whenever the transform is not the identity |
| Transform3D.HoverAsWrittenIdentity | src/app/transform-3d/page.tsx:122 | for the identity the page writes `none translateZ(20px)`, which differs from the corrected hover value |
| Transform3D.FlagKeywords | src/app/transform-3d/page.tsx:115-116 | `preserve-3d` exactly when the preserve flag is set, `visible` exactly when the backface flag is set |
| Transform3D.GenerateCssTransform | src/app/transform-3d/page.tsx:105-123 | with the same perspective, origin and flags, two style sheets are equal exactly when their transform values are |
| Transform3D.CssShowsTransform | src/app/transform-3d/page.tsx:114 | the transform value is read back from the style sheet up to the `;` ending its declaration, which the value never contains |
| Transform3D.GenerateCssFlags | src/app/transform-3d/page.tsx:115-116 | for the same transform, two style sheets are equal exactly when both the preserve-3d and the backface flags are |
| Transform3D.GenerateCssHover | src/app/transform-3d/page.tsx:121-123 | the style sheet ends with the hover declaration, whose value is the base functions followed by `translateZ(20px)` |
| FlexboxGrid.DecrementItems | src/app/flexbox-grid/page.tsx:150 | the count never drops below 1, drops by one above 1, becomes 1 at or below 1, stays within 12 when it was, and nothing else changes |
| FlexboxGrid.IncrementItems | src/app/flexbox-grid/page.tsx:159 | the count never exceeds 12, rises by one below 12, becomes 12 at or above 12, stays at least 1 when it was, and nothing else changes |
| FlexboxGrid.ItemCountStaysInRange | src/app/flexbox-grid/page.tsx:150-159 | any sequence of presses keeps a count that starts in 1..12 within 1..12 |
| FlexboxGrid.ResetSettings | src/app/flexbox-grid/page.tsx:55-78 | only the current mode's settings are reset, the other mode's are kept, and the count becomes 4 |
| FlexboxGrid.CssMatchesStyle | src/app/flexbox-grid/page.tsx:80-118 | the generated rule is the preview style object written as CSS: same properties, same values, same order |
| FlexboxGrid.FlexCssMatchesStyle | src/app/flexbox-grid/page.tsx:99-107 | in flex mode: display, flex-direction, justify-content, align-items, flex-wrap, gap |
| FlexboxGrid.GridCssMatchesStyle | src/app/flexbox-grid/page.tsx:108-116 | in grid mode: display, the two `repeat(n, 1fr)` templates, gap, justify-items, align-items |
| FlexboxGrid.SeparateGapsIgnored | src/app/flexbox-grid/page.tsx:108-116 | the column and row gaps never change the CSS |
| FlexboxGrid.InactiveSettingsIgnored | src/app/flexbox-grid/page.tsx:98-118 | only the active mode's settings reach the CSS |
| CardMaker.ResetSettings | src/app/card-maker/page.tsx:48-82 | the settings become exactly the initial ones |
| CardMaker.ApplyStylePreset | src/app/card-maker/page.tsx:84-93 | style, background and blur from the preset; border `#3b82f6`/2 exactly for outlined, otherwise the soft border/1; every other field kept |
| CardMaker.PresetOverwrites | src/app/card-maker/page.tsx:84-93 | a second preset overwrites the first entirely |
| CardMaker.PresetsBlurOnlyGlass | src/app/card-maker/page.tsx:29-36 | only the glass preset has a blur |
| CardMaker.GenerateCss | src/app/card-maker/page.tsx:392-474 | the `css +=` steps build exactly the card style sheet |
| CardMaker.ShadowNone | src/app/card-maker/page.tsx:411-439 | the shadow is `none` exactly for the flat and outlined styles |
| CardMaker.ShadowShowsIntensity | src/app/card-maker/page.tsx:411-439 | for the neumorphic, gradient and elevated styles, the shadow text determines the intensity |
| CardMaker.DropShadowShowsOffset | src/app/card-maker/page.tsx:411-439 | a `0 Ypx Bpx colour` shadow gives its vertical offset back |
| CardMaker.BlurOnlyForGlass | src/app/card-maker/page.tsx:402-441 | the blur amount changes the CSS only for the glass style |
| CardMaker.HoverRuleIff | src/app/card-maker/page.tsx:464-471 | the style sheet ends with the `.card:hover` rule exactly when the hover effect is on |
| CardMaker.CssDeterminesBox | src/app/card-maker/page.tsx:393-397 | the style sheet gives back width, padding, radius and border width |
| CardMaker.GenerateHtml | src/app/card-maker/page.tsx:476-540 | every template opens and closes the `.card` element |
| CardMaker.HtmlDeterminesType | src/app/card-maker/page.tsx:476-540 | the six templates differ, so the markup tells the card type |
| Shapes3D.WithColor | src/app/3d-shapes/page.tsx:848-851 | the face gets the colour and every other face keeps its own |
| Shapes3D.WithColorLaws | src/app/3d-shapes/page.tsx:848-851 | writing a face's own colour changes nothing; a second write to a face replaces the first |
| Shapes3D.SetFaceColor | src/app/3d-shapes/page.tsx:848-851 | exactly one face colour changes; every other setting is kept |
| Shapes3D.ResetSettings | src/app/3d-shapes/page.tsx:59-78 | a cube of 200 by 200, rotation (-20, 30, 0), perspective 1000, no auto-rotation |
| Shapes3D.ApplyPreset | src/app/3d-shapes/page.tsx:80-87 | type, size and depth from the preset; rotations, perspective, colours and auto-rotation kept |
| Shapes3D.ClassicCubeIsInitial | src/app/3d-shapes/page.tsx:80-87 | the classic cube preset leaves the initial settings as they are |
| Shapes3D.HalfSizeEven | src/app/3d-shapes/page.tsx:612 | for an even size the half size is written as a whole number |
| Shapes3D.KeyframesIff | src/app/3d-shapes/page.tsx:581-591 | the base CSS ends with the `@keyframes rotate-3d` rule exactly when auto-rotation is on |
| Shapes3D.CssDeterminesGeometry | src/app/3d-shapes/page.tsx:566-580 | the CSS gives back perspective, size, height (size for a cube, depth otherwise) and the three rotations |
| Shapes3D.FacesPushOut | src/app/3d-shapes/page.tsx:610-638 | every face but the back ends with `translateZ(size/2)` |
| Shapes3D.RecolorOneRule | src/app/3d-shapes/page.tsx:610-638 | recolouring a face leaves every other face's rule unchanged |
| Shapes3D.NoteIff | src/app/3d-shapes/page.tsx:593-641 | the CSS ends with the upper-cased type note exactly for the shapes that are not cubes |
| Shapes3D.ConeNote | src/app/3d-shapes/page.tsx:641 | the cone gets two newlines, `/* CONE */` and the structure comment |

## Left out

- The trigonometric render functions of the 3D shapes and every JSX element, framer-motion property, `getCardStyle` and `renderCardContent`: they draw the preview and do not write the copied text.
- Clipboard writes and the "copied" timers: external and asynchronous.
- The `<style>` element the animation page injects through `useEffect`, `generatePreviewStyle`, and `restartAnimation`'s animation key: DOM side effects.
- `randomGradient`: it draws from `Math.random`.
- The generic setters bound to the sliders and selects (`setAngle`, `setBoxColor`, `setMode`, the settings spreads): each replaces one field and is covered by the datatype update syntax.
- JavaScript number formatting beyond integers and hundredths: every slider value is whole, or a decimal in steps of 0.01 held in hundredths.
- The keyframe's `transform` field: it is always `''` and the generator never reads it.
- The card's `hasImage` flag: it is stored and reset, but neither generator reads it.
- Lower- and upper-casing are ASCII only: every name they meet (preset and shape type names) is ASCII.
- Gradients.ApplyPreset: requires at least two colours, since `i / (n - 1)` divides by zero for one colour, and takes the floor of `i * 100 / (n - 1)`, which is exact for every built-in preset (all have two colours) but not the JavaScript fraction in general.
- Transform3D.GenerateCss: writes the corrected hover value (see Findings) rather than the page's `none translateZ(20px)`.

## Findings

| source | as written | input that shows it | evidently intended | confidence | as-written member | corrected member |
|---|---|---|---|---|---|---|
| src/app/transform-3d/page.tsx:122 | the hover rule appends ` translateZ(20px)` to `getTransformString()`, which is `none` for the identity transform | the initial or reset transform (all translations and rotations 0, all scales 1) gives `transform: none translateZ(20px);`, which is not valid CSS | the lift alone, `translateZ(20px)`, when there is no other function | not executed | Transform3D.HoverAsWrittenIdentity | Transform3D.HoverTransformFunctions |
