/** The Flexbox & Grid editor (src/app/flexbox-grid/page.tsx): a display
    mode, flex and grid settings, the number of preview items, the preview
    container's style object and the generated `.container` rule. */
module FlexboxGrid {
  import opened Common

  datatype Mode = Flex | Grid

  datatype Direction = Row | RowReverse | Column | ColumnReverse
  datatype Justify = JustifyStart | JustifyEnd | JustifyCenter | SpaceBetween | SpaceAround | SpaceEvenly
  datatype FlexAlign = AlignStart | AlignEnd | AlignCenter | AlignStretch | Baseline
  datatype Wrap = NoWrap | DoWrap | WrapReverse
  datatype Placement = Start | End | Center | Stretch

  datatype FlexSettings = FlexSettings(
    direction: Direction, justifyContent: Justify, alignItems: FlexAlign, wrap: Wrap, gap: int)

  datatype GridSettings = GridSettings(
    columns: int, rows: int, gap: int, columnGap: int, rowGap: int,
    justifyItems: Placement, alignItems: Placement)

  datatype Page = Page(mode: Mode, itemCount: int, flex: FlexSettings, grid: GridSettings)

  const DefaultFlex: FlexSettings := FlexSettings(Row, JustifyStart, AlignStretch, NoWrap, 16)

  const DefaultGrid: GridSettings := GridSettings(3, 2, 16, 16, 16, Stretch, Stretch)

  const InitialPage: Page := Page(Flex, 4, DefaultFlex, DefaultGrid)

  const MinItems := 1
  const MaxItems := 12

  function DirectionText(d: Direction): string {
    match d
    case Row => "row"
    case RowReverse => "row-reverse"
    case Column => "column"
    case ColumnReverse => "column-reverse"
  }

  function JustifyText(j: Justify): string {
    match j
    case JustifyStart => "flex-start"
    case JustifyEnd => "flex-end"
    case JustifyCenter => "center"
    case SpaceBetween => "space-between"
    case SpaceAround => "space-around"
    case SpaceEvenly => "space-evenly"
  }

  function FlexAlignText(a: FlexAlign): string {
    match a
    case AlignStart => "flex-start"
    case AlignEnd => "flex-end"
    case AlignCenter => "center"
    case AlignStretch => "stretch"
    case Baseline => "baseline"
  }

  function WrapText(w: Wrap): string {
    match w
    case NoWrap => "nowrap"
    case DoWrap => "wrap"
    case WrapReverse => "wrap-reverse"
  }

  function PlacementText(p: Placement): string {
    match p
    case Start => "start"
    case End => "end"
    case Center => "center"
    case Stretch => "stretch"
  }

  // ---------------------------------------------------------------------
  // Handlers
  // ---------------------------------------------------------------------

  /** The minus button: `Math.max(1, itemCount - 1)`. */
  function DecrementItems(p: Page): (r: Page)
    ensures r.itemCount >= MinItems
    ensures p.itemCount > MinItems ==> r.itemCount == p.itemCount - 1
    ensures p.itemCount <= MinItems ==> r.itemCount == MinItems
    ensures p.itemCount <= MaxItems ==> r.itemCount <= MaxItems
    ensures r == p.(itemCount := r.itemCount)
  {
    p.(itemCount := if p.itemCount - 1 > MinItems then p.itemCount - 1 else MinItems)
  }

  /** The plus button: `Math.min(12, itemCount + 1)`. */
  function IncrementItems(p: Page): (r: Page)
    ensures r.itemCount <= MaxItems
    ensures p.itemCount < MaxItems ==> r.itemCount == p.itemCount + 1
    ensures p.itemCount >= MaxItems ==> r.itemCount == MaxItems
    ensures p.itemCount >= MinItems ==> r.itemCount >= MinItems
    ensures r == p.(itemCount := r.itemCount)
  {
    p.(itemCount := if p.itemCount + 1 < MaxItems then p.itemCount + 1 else MaxItems)
  }

  /** A count in [1, 12] stays there whatever buttons are pressed. */
  lemma {:induction false} ItemCountStaysInRange(p: Page, presses: seq<bool>)
    requires MinItems <= p.itemCount <= MaxItems
    ensures MinItems <= Press(p, presses).itemCount <= MaxItems
  {
    if |presses| > 0 {
      ItemCountStaysInRange(p, presses[..|presses| - 1]);
    }
  }

  /** The page after pressing plus (true) or minus (false), in order. */
  function Press(p: Page, presses: seq<bool>): Page {
    if |presses| == 0 then p
    else
      var q := Press(p, presses[..|presses| - 1]);
      if presses[|presses| - 1] then IncrementItems(q) else DecrementItems(q)
  }

  /** `resetSettings`: the current mode's settings back to their defaults,
      the other mode's kept, and four items. */
  function ResetSettings(p: Page): (r: Page)
    ensures r.mode == p.mode && r.itemCount == 4
    ensures p.mode == Flex ==> r.flex == DefaultFlex && r.grid == p.grid
    ensures p.mode == Grid ==> r.grid == DefaultGrid && r.flex == p.flex
  {
    if p.mode == Flex then p.(flex := DefaultFlex, itemCount := 4)
    else p.(grid := DefaultGrid, itemCount := 4)
  }

  // ---------------------------------------------------------------------
  // containerStyle and generateCSS
  // ---------------------------------------------------------------------

  /** The properties the container style sets, named after their keys in the
      React style object (`flexDirection`, `gridTemplateColumns`, ...). */
  datatype Prop = Display | FlexDirection | JustifyContent | AlignItems | FlexWrap | Gap
                | GridTemplateColumns | GridTemplateRows | JustifyItems

  datatype Property = Property(prop: Prop, value: string)

  /** `containerStyle`: the style object of the preview container. */
  function ContainerStyle(p: Page): seq<Property> {
    if p.mode == Flex then
      [Property(Display, "flex"),
       Property(FlexDirection, DirectionText(p.flex.direction)),
       Property(JustifyContent, JustifyText(p.flex.justifyContent)),
       Property(AlignItems, FlexAlignText(p.flex.alignItems)),
       Property(FlexWrap, WrapText(p.flex.wrap)),
       Property(Gap, IntToString(p.flex.gap) + "px")]
    else
      [Property(Display, "grid"),
       Property(GridTemplateColumns, "repeat(" + IntToString(p.grid.columns) + ", 1fr)"),
       Property(GridTemplateRows, "repeat(" + IntToString(p.grid.rows) + ", 1fr)"),
       Property(Gap, IntToString(p.grid.gap) + "px"),
       Property(JustifyItems, PlacementText(p.grid.justifyItems)),
       Property(AlignItems, PlacementText(p.grid.alignItems))]
  }

  /** `generateCSS` (each line of the template grouped in parentheses). */
  function GenerateCss(p: Page): string {
    if p.mode == Flex then
      ".container {\n" +
      "  display: flex;\n" +
      ("  flex-direction: " + DirectionText(p.flex.direction) + ";\n") +
      ("  justify-content: " + JustifyText(p.flex.justifyContent) + ";\n") +
      ("  align-items: " + FlexAlignText(p.flex.alignItems) + ";\n") +
      ("  flex-wrap: " + WrapText(p.flex.wrap) + ";\n") +
      ("  gap: " + (IntToString(p.flex.gap) + "px") + ";\n") +
      "}"
    else
      ".container {\n" +
      "  display: grid;\n" +
      ("  grid-template-columns: " + ("repeat(" + IntToString(p.grid.columns) + ", 1fr)") + ";\n") +
      ("  grid-template-rows: " + ("repeat(" + IntToString(p.grid.rows) + ", 1fr)") + ";\n") +
      ("  gap: " + (IntToString(p.grid.gap) + "px") + ";\n") +
      ("  justify-items: " + PlacementText(p.grid.justifyItems) + ";\n") +
      ("  align-items: " + PlacementText(p.grid.alignItems) + ";\n") +
      "}"
  }

  /** The start of the CSS declaration of a property: its CSS name, a colon and a space. */
  function DeclarationStart(p: Prop): string {
    match p
    case Display => "  display: "
    case FlexDirection => "  flex-direction: "
    case JustifyContent => "  justify-content: "
    case AlignItems => "  align-items: "
    case FlexWrap => "  flex-wrap: "
    case Gap => "  gap: "
    case GridTemplateColumns => "  grid-template-columns: "
    case GridTemplateRows => "  grid-template-rows: "
    case JustifyItems => "  justify-items: "
  }

  /** One declaration line of a rule. */
  function Declaration(q: Property): string {
    DeclarationStart(q.prop) + q.value + ";\n"
  }

  /** `head` followed by one declaration line per property, in order. */
  function Lines(head: string, props: seq<Property>): string {
    if |props| == 0 then head
    else Lines(head, props[..|props| - 1]) + Declaration(props[|props| - 1])
  }

  /** A style object written as a `.container` rule. */
  function Rule(props: seq<Property>): string {
    Lines(".container {\n", props) + "}"
  }

  /** Adding a property adds its declaration line at the end. */
  lemma LinesSnoc(head: string, props: seq<Property>, q: Property)
    ensures Lines(head, props + [q]) == Lines(head, props) + Declaration(q)
  {
    assert (props + [q])[..|props|] == props;
  }

  /** The lines of a style object with six properties. */
  lemma LinesSix(head: string, q1: Property, q2: Property, q3: Property,
                 q4: Property, q5: Property, q6: Property)
    ensures Lines(head, [q1, q2, q3, q4, q5, q6]) ==
      head + Declaration(q1) + Declaration(q2) + Declaration(q3) +
      Declaration(q4) + Declaration(q5) + Declaration(q6)
  {
    LinesSnoc(head, [], q1);
    LinesSnoc(head, [q1], q2);
    LinesSnoc(head, [q1, q2], q3);
    LinesSnoc(head, [q1, q2, q3], q4);
    LinesSnoc(head, [q1, q2, q3, q4], q5);
    LinesSnoc(head, [q1, q2, q3, q4, q5], q6);
    assert [q1] == [] + [q1];
    assert [q1, q2] == [q1] + [q2];
    assert [q1, q2, q3] == [q1, q2] + [q3];
    assert [q1, q2, q3, q4] == [q1, q2, q3] + [q4];
    assert [q1, q2, q3, q4, q5] == [q1, q2, q3, q4] + [q5];
    assert [q1, q2, q3, q4, q5, q6] == [q1, q2, q3, q4, q5] + [q6];
  }

  lemma FlexCssMatchesStyle(p: Page)
    requires p.mode == Flex
    ensures GenerateCss(p) == Rule(ContainerStyle(p))
  {
    var f := p.flex;
    var q1, q2, q3 := Property(Display, "flex"), Property(FlexDirection, DirectionText(f.direction)),
      Property(JustifyContent, JustifyText(f.justifyContent));
    var q4, q5, q6 := Property(AlignItems, FlexAlignText(f.alignItems)), Property(FlexWrap, WrapText(f.wrap)),
      Property(Gap, IntToString(f.gap) + "px");
    assert ContainerStyle(p) == [q1, q2, q3, q4, q5, q6];
    LinesSix(".container {\n", q1, q2, q3, q4, q5, q6);
    assert Declaration(q1) == "  display: flex;\n";
  }

  lemma GridCssMatchesStyle(p: Page)
    requires p.mode == Grid
    ensures GenerateCss(p) == Rule(ContainerStyle(p))
  {
    var g := p.grid;
    var q1, q2, q3 := Property(Display, "grid"),
      Property(GridTemplateColumns, "repeat(" + IntToString(g.columns) + ", 1fr)"),
      Property(GridTemplateRows, "repeat(" + IntToString(g.rows) + ", 1fr)");
    var q4, q5, q6 := Property(Gap, IntToString(g.gap) + "px"), Property(JustifyItems, PlacementText(g.justifyItems)),
      Property(AlignItems, PlacementText(g.alignItems));
    assert ContainerStyle(p) == [q1, q2, q3, q4, q5, q6];
    LinesSix(".container {\n", q1, q2, q3, q4, q5, q6);
    assert Declaration(q1) == "  display: grid;\n";
    assert Declaration(q2) == "  grid-template-columns: " + q2.value + ";\n";
    assert Declaration(q3) == "  grid-template-rows: " + q3.value + ";\n";
    assert Declaration(q4) == "  gap: " + q4.value + ";\n";
    assert Declaration(q5) == "  justify-items: " + q5.value + ";\n";
    assert Declaration(q6) == "  align-items: " + q6.value + ";\n";
  }

  /** The generated rule is the preview's style object written as CSS: the
      same properties, with the same values, in the same order. */
  lemma CssMatchesStyle(p: Page)
    ensures GenerateCss(p) == Rule(ContainerStyle(p))
  {
    if p.mode == Flex {
      FlexCssMatchesStyle(p);
    } else {
      GridCssMatchesStyle(p);
    }
  }

  /** The grid's column and row gaps are never written: only `gap` is. */
  lemma SeparateGapsIgnored(p: Page, columnGap: int, rowGap: int)
    ensures GenerateCss(p.(grid := p.grid.(columnGap := columnGap, rowGap := rowGap))) == GenerateCss(p)
  {
  }

  /** Only the active mode's settings are written. */
  lemma InactiveSettingsIgnored(p: Page, flex: FlexSettings, grid: GridSettings)
    ensures p.mode == Flex ==> GenerateCss(p.(grid := grid)) == GenerateCss(p)
    ensures p.mode == Grid ==> GenerateCss(p.(flex := flex)) == GenerateCss(p)
  {
  }
}
