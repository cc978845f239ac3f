/** The card maker (src/app/card-maker/page.tsx): one settings record, the
    style presets that rewrite part of it, and the CSS and HTML generated
    from it. Lengths are whole pixels; colours are CSS colour strings. */
module CardMaker {
  import opened Common

  datatype CardStyle = Glassmorphism | Neumorphism | Gradient | Flat | Outlined | Elevated

  datatype CardType = Product | Profile | Stats | Blog | Pricing | Testimonial

  datatype Settings = Settings(
    style: CardStyle,
    cardType: CardType,
    width: int,
    padding: int,
    borderRadius: int,
    backgroundColor: string,
    textColor: string,
    accentColor: string,
    borderWidth: int,
    borderColor: string,
    shadowIntensity: int,
    blurAmount: int,
    hasHoverEffect: bool,
    hasImage: bool)

  datatype StylePreset = StylePreset(name: string, style: CardStyle, bg: string, blur: int)

  const StylePresets: seq<StylePreset> := [
    StylePreset("Glassmorphism", Glassmorphism, "rgba(255, 255, 255, 0.1)", 12),
    StylePreset("Neumorphism", Neumorphism, "#e0e5ec", 0),
    StylePreset("Gradient", Gradient, "linear-gradient(135deg, #667eea 0%, #764ba2 100%)", 0),
    StylePreset("Flat", Flat, "#ffffff", 0),
    StylePreset("Outlined", Outlined, "transparent", 0),
    StylePreset("Elevated", Elevated, "#ffffff", 0)
  ]

  /** The settings the page starts with. */
  const InitialSettings: Settings := Settings(
    Glassmorphism, Product, 320, 24, 16,
    "rgba(255, 255, 255, 0.1)", "#ffffff", "#3b82f6",
    1, "rgba(255, 255, 255, 0.2)", 20, 12, true, true)

  /** The border every non-outlined preset sets. */
  const SoftBorder: string := "rgba(255, 255, 255, 0.2)"

  /** The border the outlined preset sets. */
  const AccentBorder: string := "#3b82f6"

  // ---------------------------------------------------------------------
  // Handlers
  // ---------------------------------------------------------------------

  /** `resetSettings`: the page writes the whole record out again, and it is
      the one the page starts with. */
  function ResetSettings(s: Settings): (r: Settings)
    ensures r == InitialSettings
  {
    Settings(
      Glassmorphism, Product, 320, 24, 16,
      "rgba(255, 255, 255, 0.1)", "#ffffff", "#3b82f6",
      1, "rgba(255, 255, 255, 0.2)", 20, 12, true, true)
  }

  /** `applyStylePreset`: style, background and blur come from the preset; the
      border is 2px of the accent blue exactly for the outlined style and 1px
      of translucent white otherwise; every other field is kept. */
  function ApplyStylePreset(s: Settings, preset: StylePreset): (r: Settings)
    ensures r.style == preset.style && r.backgroundColor == preset.bg && r.blurAmount == preset.blur
    ensures r.borderWidth == 2 <==> preset.style == Outlined
    ensures r.borderColor == AccentBorder <==> preset.style == Outlined
    ensures r.borderWidth == (if preset.style == Outlined then 2 else 1)
    ensures r.borderColor == (if preset.style == Outlined then AccentBorder else SoftBorder)
    ensures r.cardType == s.cardType && r.width == s.width && r.padding == s.padding
    ensures r.borderRadius == s.borderRadius && r.textColor == s.textColor
    ensures r.accentColor == s.accentColor && r.shadowIntensity == s.shadowIntensity
    ensures r.hasHoverEffect == s.hasHoverEffect && r.hasImage == s.hasImage
  {
    assert AccentBorder != SoftBorder by { assert |AccentBorder| != |SoftBorder|; }
    s.(style := preset.style,
       backgroundColor := preset.bg,
       blurAmount := preset.blur,
       borderColor := if preset.style == Outlined then "#3b82f6" else "rgba(255, 255, 255, 0.2)",
       borderWidth := if preset.style == Outlined then 2 else 1)
  }

  /** A preset overwrites everything an earlier preset set: applying two
      presets in a row is applying the second one. */
  lemma PresetOverwrites(s: Settings, p: StylePreset, q: StylePreset)
    ensures ApplyStylePreset(ApplyStylePreset(s, p), q) == ApplyStylePreset(s, q)
  {
  }

  /** Only the glassmorphism preset blurs. */
  lemma PresetsBlurOnlyGlass()
    ensures forall i :: 0 <= i < |StylePresets| ==>
      (StylePresets[i].blur != 0 <==> StylePresets[i].style == Glassmorphism)
  {
  }

  // ---------------------------------------------------------------------
  // generateCSS
  // ---------------------------------------------------------------------

  /** A length in pixels, `${n}px`. */
  function Px(n: int): string {
    IntToString(n) + "px"
  }

  /** The `.card` rule up to its style-dependent part: width, padding, radius,
      border and text colour straight from the settings. It is written cut
      after each number, so that the numbers can be read back one by one. */
  function CardHead(s: Settings): string {
    ".card {\n  width: " + IntToString(s.width) + AfterWidth(s)
  }

  function AfterWidth(s: Settings): string {
    "px;\n  padding: " + IntToString(s.padding) + AfterPadding(s)
  }

  function AfterPadding(s: Settings): string {
    "px;\n  border-radius: " + IntToString(s.borderRadius) + AfterRadius(s)
  }

  function AfterRadius(s: Settings): string {
    "px;\n  border: " + IntToString(s.borderWidth) + AfterBorderWidth(s)
  }

  function AfterBorderWidth(s: Settings): string {
    "px solid " + s.borderColor + ";\n" +
    "  color: " + s.textColor + ";\n" +
    "  transition: all 0.3s ease;\n"
  }

  /** A drop shadow `0 ${y}px ${blur}px color`, cut after its vertical offset. */
  function DropShadow(y: int, blur: int, color: string): string {
    "0 " + (IntToString(y) + AfterOffset(blur, color))
  }

  function AfterOffset(blur: int, color: string): string {
    "px " + Px(blur) + " " + color
  }

  /** The neumorphic pair of shadows, dark below right and light above left,
      cut after the first offset. */
  function NeumorphicShadow(i: int): string {
    IntToString(i) + AfterNeumorphicOffset(i)
  }

  function AfterNeumorphicOffset(i: int): string {
    "px " + Px(i) + " " + Px(i * 2) + " #bebebe,\n" +
    "              -" + Px(i) + " -" + Px(i) + " " + Px(i * 2) + " #ffffff"
  }

  /** The `box-shadow` value of each style, scaled by the shadow intensity. */
  function ShadowValue(s: Settings): string {
    var i := s.shadowIntensity;
    match s.style
    case Glassmorphism => "0 8px 32px 0 rgba(31, 38, 135, 0.37)"
    case Neumorphism => NeumorphicShadow(i)
    case Gradient => DropShadow(i, i * 2, "rgba(0, 0, 0, 0.2)")
    case Flat => "none"
    case Outlined => "none"
    case Elevated => DropShadow(i, i * 3, "rgba(0, 0, 0, 0.15)")
  }

  /** The two backdrop-filter declarations, written by the glassmorphism style only. */
  function BackdropLines(s: Settings): string {
    if s.style == Glassmorphism then
      "  backdrop-filter: blur(" + Px(s.blurAmount) + ");\n" +
      "  -webkit-backdrop-filter: blur(" + Px(s.blurAmount) + ");\n"
    else ""
  }

  /** The style-dependent part of the `.card` rule: every style sets the
      background, the glass style adds its backdrop filter, and every style
      ends with its shadow. */
  function StyleBlock(s: Settings): string {
    "  background: " + s.backgroundColor + ";\n" +
    BackdropLines(s) +
    "  box-shadow: " + ShadowValue(s) + ";\n"
  }

  /** The end of the `.card` rule and the accent and button rules. */
  function CardTail(s: Settings): string {
    "}\n\n" +
    ".card-accent {\n" +
    "  color: " + s.accentColor + ";\n" +
    "}\n\n" +
    ".card-button {\n" +
    "  background: " + s.accentColor + ";\n" +
    "  color: white;\n" +
    "  padding: 12px 24px;\n" +
    "  border-radius: 8px;\n" +
    "  border: none;\n" +
    "  font-weight: 500;\n" +
    "  cursor: pointer;\n" +
    "  transition: transform 0.2s ease;\n" +
    "}\n\n" +
    ".card-button:hover {\n" +
    "  transform: translateY(-2px);\n}"
  }

  /** The shadow of the hovered card: 10px lower and blurred four times the intensity. */
  function HoverShadow(s: Settings): string {
    DropShadow(s.shadowIntensity + 10, s.shadowIntensity * 4, "rgba(0, 0, 0, 0.2)")
  }

  function HoverRule(s: Settings): string {
    "\n\n.card:hover {\n" +
    "  transform: translateY(-8px);\n" +
    "  box-shadow: " + HoverShadow(s) + ";\n}"
  }

  /** The whole style sheet: head, style block, tail, and the hover rule
      when the hover effect is on. */
  function CardCss(s: Settings): string {
    CardHead(s) + CardBody(s)
  }

  function CardBody(s: Settings): string {
    StyleBlock(s) + CardTail(s) + (if s.hasHoverEffect then HoverRule(s) else "")
  }

  /** `generateCSS`: the head, then `css +=` of the block the style's case
      writes, of the tail, and of the hover rule when the effect is on. */
  method GenerateCss(s: Settings) returns (css: string)
    ensures css == CardCss(s)
  {
    var i := s.shadowIntensity;
    css := CardHead(s);
    var block: string;
    if s.style != Glassmorphism {
      var pre := "  background: " + s.backgroundColor + ";\n";
      assert pre + BackdropLines(s) == pre;
    }
    match s.style {
      case Glassmorphism =>
        block := "  background: " + s.backgroundColor + ";\n" +
          ("  backdrop-filter: blur(" + Px(s.blurAmount) + ");\n" +
           "  -webkit-backdrop-filter: blur(" + Px(s.blurAmount) + ");\n") +
          "  box-shadow: " + "0 8px 32px 0 rgba(31, 38, 135, 0.37)" + ";\n";
      case Neumorphism =>
        block := "  background: " + s.backgroundColor + ";\n" +
          "  box-shadow: " + NeumorphicShadow(i) + ";\n";
      case Gradient =>
        block := "  background: " + s.backgroundColor + ";\n" +
          "  box-shadow: " + DropShadow(i, i * 2, "rgba(0, 0, 0, 0.2)") + ";\n";
      case Flat =>
        block := "  background: " + s.backgroundColor + ";\n" +
          "  box-shadow: " + "none" + ";\n";
      case Outlined =>
        block := "  background: " + s.backgroundColor + ";\n" +
          "  box-shadow: " + "none" + ";\n";
      case Elevated =>
        block := "  background: " + s.backgroundColor + ";\n" +
          "  box-shadow: " + DropShadow(i, i * 3, "rgba(0, 0, 0, 0.15)") + ";\n";
    }
    assert block == StyleBlock(s);
    css := css + block;
    css := css + CardTail(s);
    if s.hasHoverEffect {
      css := css + HoverRule(s);
    }
    AppendThree(CardHead(s), block, CardTail(s), if s.hasHoverEffect then HoverRule(s) else "");
  }

  /** The shadow is `none` exactly for the flat and the outlined styles;
      every other style casts one. */
  lemma ShadowNone(s: Settings)
    ensures ShadowValue(s) == "none" <==> s.style == Flat || s.style == Outlined
  {
    var v := ShadowValue(s);
    if s.style == Neumorphism {
      assert v[0] == IntToString(s.shadowIntensity)[0];
      if s.shadowIntensity >= 0 {
        assert IsDigit(NatToString(s.shadowIntensity)[0]);
      }
    } else if s.style != Flat && s.style != Outlined {
      assert v[0] == '0';
    }
  }

  /** The shadow shows the intensity: for the styles whose shadow scales with
      it, two settings of one such style with the same shadow have the same
      intensity. */
  lemma ShadowShowsIntensity(a: Settings, b: Settings)
    requires a.style == b.style
    requires a.style == Neumorphism || a.style == Gradient || a.style == Elevated
    requires ShadowValue(a) == ShadowValue(b)
    ensures a.shadowIntensity == b.shadowIntensity
  {
    var i, j := a.shadowIntensity, b.shadowIntensity;
    if a.style == Neumorphism {
      IntTextCancel(i, j, AfterNeumorphicOffset(i), AfterNeumorphicOffset(j));
    } else {
      var k, c := if a.style == Gradient then 2 else 3,
        if a.style == Gradient then "rgba(0, 0, 0, 0.2)" else "rgba(0, 0, 0, 0.15)";
      DropShadowShowsOffset(i, i * k, j, j * k, c);
    }
  }

  /** A drop shadow gives its vertical offset back. */
  lemma DropShadowShowsOffset(y1: int, b1: int, y2: int, b2: int, color: string)
    requires DropShadow(y1, b1, color) == DropShadow(y2, b2, color)
    ensures y1 == y2
  {
    var x1, x2 := AfterOffset(b1, color), AfterOffset(b2, color);
    DropPrefix("0 ", IntToString(y1) + x1, IntToString(y2) + x2);
    IntTextCancel(y1, y2, x1, x2);
  }

  /** The blur amount reaches the style sheet only through the glass style:
      for any other style the blur slider changes nothing. */
  lemma BlurOnlyForGlass(s: Settings, blur: int)
    requires s.style != Glassmorphism
    ensures CardCss(s.(blurAmount := blur)) == CardCss(s)
  {
    var t := s.(blurAmount := blur);
    assert CardHead(t) == CardHead(s);
    assert StyleBlock(t) == StyleBlock(s);
    assert CardTail(t) == CardTail(s);
    assert HoverRule(t) == HoverRule(s);
  }

  /** The style sheet ends with the `.card:hover` rule exactly when the hover
      effect is on; without it, it ends with the button's hover rule. */
  lemma HoverRuleIff(s: Settings)
    ensures EndsWith(CardCss(s), HoverRule(s)) <==> s.hasHoverEffect
  {
    if s.hasHoverEffect {
      HoverRuleWhenOn(s);
    } else {
      HoverRuleWhenOff(s);
    }
  }

  lemma HoverRuleWhenOn(s: Settings)
    requires s.hasHoverEffect
    ensures EndsWith(CardCss(s), HoverRule(s))
  {
    var h := HoverRule(s);
    assert CardBody(s) == (StyleBlock(s) + CardTail(s)) + h;
    EndsWithAppend(StyleBlock(s) + CardTail(s), h);
    EndsWithExtend(CardHead(s), CardBody(s), h);
  }

  lemma HoverRuleWhenOff(s: Settings)
    requires !s.hasHoverEffect
    ensures !EndsWith(CardCss(s), HoverRule(s))
  {
    var t := CardTail(s);
    assert CardBody(s) == StyleBlock(s) + t;
    EndsWithAppend(StyleBlock(s), t);
    EndsWithExtend(CardHead(s), CardBody(s), t);
    TailFifthLast(s);
    HoverFifthLast(s);
    EndsWithDiffer(CardCss(s), t, HoverRule(s), 5);
  }

  /** The tail ends with the button's `translateY(-2px);` and `}`. */
  lemma TailFifthLast(s: Settings)
    ensures |CardTail(s)| >= 5 && CardTail(s)[|CardTail(s)| - 5] == 'x'
  {
    var last := "  transform: translateY(-2px);\n}";
    var t := CardTail(s);
    assert t[|t| - 5] == last[|last| - 5];
  }

  /** The hover rule ends with the shadow's `0.2)`, then `;` and `}`. */
  lemma HoverFifthLast(s: Settings)
    ensures |HoverRule(s)| >= 5 && HoverRule(s)[|HoverRule(s)| - 5] == '2'
  {
    var hs := HoverShadow(s);
    var last := "rgba(0, 0, 0, 0.2)";
    assert hs[|hs| - 2] == last[|last| - 2];
    var h := HoverRule(s);
    assert h[|h| - 5] == hs[|hs| - 2];
  }

  /** The style sheet gives the box back: two settings with the same CSS have
      the same width, padding, radius and border width. */
  lemma CssDeterminesBox(a: Settings, b: Settings)
    requires CardCss(a) == CardCss(b)
    ensures a.width == b.width && a.padding == b.padding
    ensures a.borderRadius == b.borderRadius && a.borderWidth == b.borderWidth
  {
    var ra, rb := CardBody(a), CardBody(b);
    PeelNumber(".card {\n  width: ", a.width, b.width, AfterWidth(a), AfterWidth(b), ra, rb);
    PeelNumber("px;\n  padding: ", a.padding, b.padding, AfterPadding(a), AfterPadding(b), ra, rb);
    PeelNumber("px;\n  border-radius: ", a.borderRadius, b.borderRadius, AfterRadius(a), AfterRadius(b), ra, rb);
    PeelNumber("px;\n  border: ", a.borderWidth, b.borderWidth, AfterBorderWidth(a), AfterBorderWidth(b), ra, rb);
  }

  // ---------------------------------------------------------------------
  // generateHTML
  // ---------------------------------------------------------------------

  const CardOpen: string := "  <div class=\"card\">\n"

  const CardClose: string := "\n  </div>"

  /** The inside of each card type's template. */
  function Content(t: CardType): string {
    match t
    case Product =>
      "    <img src=\"product.jpg\" alt=\"Product\" class=\"card-image\">\n" +
      "    <h3>Nom du Produit</h3>\n" +
      "    <p>Description du produit...</p>\n" +
      "    <div class=\"card-footer\">\n" +
      "      <span class=\"card-accent\">49.99€</span>\n" +
      "      <button class=\"card-button\">Acheter</button>\n" +
      "    </div>"
    case Profile =>
      "    <img src=\"avatar.jpg\" alt=\"Profile\" class=\"card-avatar\">\n" +
      "    <h3>John Doe</h3>\n" +
      "    <p>UI/UX Designer</p>\n" +
      "    <div class=\"card-stats\">\n" +
      "      <div><strong class=\"card-accent\">1.2K</strong> Followers</div>\n" +
      "      <div><strong class=\"card-accent\">456</strong> Following</div>\n" +
      "    </div>"
    case Stats =>
      "    <div class=\"card-icon\">📈</div>\n" +
      "    <p>Total Revenue</p>\n" +
      "    <h3>$45,231</h3>\n" +
      "    <span class=\"card-accent\">+20.1% from last month</span>"
    case Blog =>
      "    <img src=\"blog-cover.jpg\" alt=\"Blog\" class=\"card-image\">\n" +
      "    <span class=\"card-tag\">Design</span>\n" +
      "    <h3>Guide complet du design moderne</h3>\n" +
      "    <p>Découvrez les dernières tendances...</p>\n" +
      "    <div class=\"card-author\">\n" +
      "      <img src=\"author.jpg\" alt=\"Author\">\n" +
      "      <div>\n" +
      "        <strong>Marie Dubois</strong>\n" +
      "        <span>Dec 12, 2024</span>\n" +
      "      </div>\n" +
      "    </div>"
    case Pricing =>
      "    <h4>PRO</h4>\n" +
      "    <h2><span class=\"card-accent\">29€</span>/mois</h2>\n" +
      "    <ul>\n" +
      "      <li>✓ Feature 1</li>\n" +
      "      <li>✓ Feature 2</li>\n" +
      "      <li>✓ Feature 3</li>\n" +
      "      <li>✓ Feature 4</li>\n" +
      "    </ul>\n" +
      "    <button class=\"card-button\">Commencer</button>"
    case Testimonial =>
      "    <div class=\"card-stars\">⭐⭐⭐⭐⭐</div>\n" +
      "    <p>\"Cette application a complètement transformé ma façon de travailler...\"</p>\n" +
      "    <div class=\"card-author\">\n" +
      "      <img src=\"avatar.jpg\" alt=\"Sophie\">\n" +
      "      <div>\n" +
      "        <strong>Sophie Martin</strong>\n" +
      "        <span>CEO, TechStart</span>\n" +
      "      </div>\n" +
      "    </div>"
  }

  /** The template of one card type: the `.card` element around its content. */
  function CardHtml(t: CardType): string {
    CardOpen + Content(t) + CardClose
  }

  /** `generateHTML`: the template for the settings' card type, whatever the
      other settings are; it always opens and closes a `.card` element. */
  function GenerateHtml(s: Settings): (r: string)
    ensures |r| >= |CardOpen| + |CardClose|
    ensures r[..|CardOpen|] == CardOpen
    ensures r[|r| - |CardClose|..] == CardClose
  {
    CardHtml(s.cardType)
  }

  /** The number of characters inside each template. */
  lemma ProductLength()
    ensures |Content(Product)| == 263
  {
  }

  lemma ProfileLength()
    ensures |Content(Profile)| == 285
  {
  }

  lemma StatsLength()
    ensures |Content(Stats)| == 140
  {
  }

  lemma BlogLength()
    ensures |Content(Blog)| == 374
  {
  }

  lemma PricingLength()
    ensures |Content(Pricing)| == 249
  {
  }

  lemma TestimonialLength()
    ensures |Content(Testimonial)| == 305
  {
  }

  /** The six contents have six different lengths. */
  function ContentLength(t: CardType): nat {
    match t
    case Product => 263
    case Profile => 285
    case Stats => 140
    case Blog => 374
    case Pricing => 249
    case Testimonial => 305
  }

  lemma ContentLengths(t: CardType)
    ensures |Content(t)| == ContentLength(t)
  {
    match t
    case Product => ProductLength();
    case Profile => ProfileLength();
    case Stats => StatsLength();
    case Blog => BlogLength();
    case Pricing => PricingLength();
    case Testimonial => TestimonialLength();
  }

  lemma HtmlLength(t: CardType)
    ensures |CardHtml(t)| == |CardOpen| + ContentLength(t) + |CardClose|
  {
    ContentLengths(t);
  }

  lemma ContentLengthInjective(t1: CardType, t2: CardType)
    ensures ContentLength(t1) == ContentLength(t2) ==> t1 == t2
  {
  }

  /** The six templates are different: the markup tells the card type. */
  lemma HtmlDeterminesType(t1: CardType, t2: CardType)
    ensures CardHtml(t1) == CardHtml(t2) ==> t1 == t2
  {
    HtmlLength(t1);
    HtmlLength(t2);
    ContentLengthInjective(t1, t2);
  }
}
