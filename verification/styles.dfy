/**
 * The stylesheet the shortcode emits (`get_dynamic_css`): the template's own
 * first `<style>` block, a newline, then an override block built from the
 * options in a fixed order.
 */
module Styles {
  import opened Wrappers
  import opened Php
  import opened Text

  const StyleOpen := "<style>"
  const StyleClose := "</style>"

  /** The inner text of the template's first `<style>…</style>` (the pattern
   *  `/<style>(.*?)<\/style>/is`), or "" when it does not match. */
  function TemplateStyle(template: string): (css: string)
    ensures
      || (exists p, c :: FirstSpan(template, StyleOpen, StyleClose, p, c)
                         && css == template[p + |StyleOpen|..c])
      || (NoSpan(template, StyleOpen, StyleClose) && css == "")
    ensures forall j :: !CiAt(css, j, StyleClose)
  {
    match FindSpan(template, StyleOpen, StyleClose)
    case None => ""
    case Some((p, c)) =>
      CaptureHasNoClose(template, StyleClose, p + |StyleOpen|, c);
      template[p + |StyleOpen|..c]
  }

  const ForceStackedKey := "hero_force_stacked_mobile"
  const BreakpointKey := "hero_stack_breakpoint"
  const CustomCssKey := "custom_css"
  const TemplateKey := "template_html"

  /** Line breaks with the indentation the stylesheet's source text carries,
   *  and that indentation alone. */
  const Nl8 := "\n        "
  const Nl12 := "\n            "
  const Nl16 := "\n                "
  const Indent12 := "            "

  /** The four `:root` colour variables: dark primary, accent, light grey, white. */
  function ColorBlock(dark: string, accent: string, gray: string, white: string): string
  {
    Nl12 + ":root {"
    + Nl16 + "--color-" + "dark-primary: " + dark + ";"
    + Nl16 + "--color-accent: " + accent + ";"
    + Nl16 + "--color-light-gray: " + gray + ";"
    + Nl16 + "--color-white: " + white + ";"
    + Nl12 + "}" + "\n"
  }

  /** The desktop hero padding and heading size. */
  function DesktopRules(padding: string, heading: string): string
  {
    Indent12 + "#hero { padding: " + padding + " !important; }"
    + Nl12 + "#hero .hero-text h1 " + "{ font-size: " + heading + " !important; }" + "\n"
  }

  /** A media block at a fixed width with a hero padding and heading size. */
  function MediaRules(width: string, padding: string, heading: string): string
  {
    Indent12 + "@media (max-width: " + width + "px) {"
    + Nl16 + "#hero { padding: " + padding + " !important; }"
    + Nl16 + "#hero .hero-text h1 " + "{ font-size: " + heading + " !important; }"
    + Nl12 + "}" + "\n"
  }

  /** The options the fixed rules read, in the order they appear. */
  const FixedKeys: seq<string> := [
    "color_dark_primary", "color_accent", "color_light_gray", "color_white",
    "hero_desktop_padding", "hero_desktop_heading_size", "hero_tablet_padding",
    "hero_tablet_heading_size", "hero_mobile_padding", "hero_mobile_heading_size"
  ]

  /** The values of `keys` in `o`, as interpolated text. */
  function Fields(o: map<string, Value>, keys: seq<string>): (vals: seq<string>)
    ensures |vals| == |keys|
    ensures forall i :: 0 <= i < |keys| ==> vals[i] == Field(o, keys[i])
  {
    seq(|keys|, i requires 0 <= i < |keys| => Field(o, keys[i]))
  }

  /** The colour block, the desktop rules, then the 992px and 768px blocks,
   *  whose thresholds are literals rather than options. */
  function FixedRulesOf(v: seq<string>): string
    requires |v| == |FixedKeys|
  {
    ColorBlock(v[0], v[1], v[2], v[3]) + DesktopRules(v[4], v[5])
    + MediaRules("992", v[6], v[7]) + MediaRules("768", v[8], v[9]) + Indent12
  }

  /** The stack rule's text on either side of the breakpoint (lines 215-220).
   *  The literal is cut only at word boundaries, to keep each piece short. */
  const StackHead := Nl12 + "@media (max-width: "
  const StackTail :=
    "px) {"
    + Nl16 + "#hero .hero-content " + "{ flex-direction: " + "column !important; }"
    + Nl16 + "#hero .hero-text, " + "#hero .hero-visual " + "{ max-width: 100% "
    + "!important; " + "width: 100% " + "!important; }"
    + Nl12 + "}" + Nl8

  /** The rule that stacks the hero's columns below `breakpoint` pixels,
   *  present exactly when the force-stacked option is truthy. */
  function StackRuleOf(flag: Value, breakpoint: string): (rule: string)
    ensures rule != "" <==> !Empty(flag)
  {
    if !Empty(flag) then StackHead + breakpoint + StackTail else ""
  }

  /** Text cancels on both sides of an equation. */
  lemma {:induction false} CancelAround<T>(a: seq<T>, b1: seq<T>, b2: seq<T>, c: seq<T>)
    requires a + b1 + c == a + b2 + c
    ensures b1 == b2
  {
    var s := a + b1 + c;
    assert |b1| == |b2|;
    assert b1 == s[|a|..|a| + |b1|];
  }

  /** When the stack rule is present it names the breakpoint: different
   *  breakpoints give different rules. */
  lemma {:induction false} StackRuleNamesBreakpoint(flag: Value, b1: string, b2: string)
    requires !Empty(flag) && b1 != b2
    ensures StackRuleOf(flag, b1) != StackRuleOf(flag, b2)
  {
    if StackRuleOf(flag, b1) == StackRuleOf(flag, b2) {
      CancelAround(StackHead, b1, b2, StackTail);
    }
  }

  /** Regrouping a seven-part concatenation. */
  lemma Assoc<T>(a: seq<T>, b: seq<T>, c: seq<T>, d: seq<T>, e: seq<T>, f: seq<T>, g: seq<T>)
    ensures a + b + (c + d + e + f + g) == a + b + c + d + e + f + g
  {
  }

  /** The fixed rules with the options' values filled in. */
  function FixedRules(o: map<string, Value>): string
  {
    FixedRulesOf(Fields(o, FixedKeys))
  }

  /**
   * The fixed rules read each option where its name says: the four colours
   * in the colour block, the desktop padding and heading size in the
   * desktop rules, the tablet ones under the 992px threshold and the mobile
   * ones under the 768px threshold.
   */
  lemma FixedRulesNamed(o: map<string, Value>)
    ensures FixedRules(o) ==
      ColorBlock(Field(o, "color_dark_primary"), Field(o, "color_accent"),
                 Field(o, "color_light_gray"), Field(o, "color_white"))
      + DesktopRules(Field(o, "hero_desktop_padding"), Field(o, "hero_desktop_heading_size"))
      + MediaRules("992", Field(o, "hero_tablet_padding"), Field(o, "hero_tablet_heading_size"))
      + MediaRules("768", Field(o, "hero_mobile_padding"), Field(o, "hero_mobile_heading_size"))
      + Indent12
  {
  }

  /** The stack rule for the options' flag and breakpoint. */
  function StackRule(o: map<string, Value>): string
  {
    StackRuleOf(Get(o, ForceStackedKey), Field(o, BreakpointKey))
  }

  /** The override block: the fixed rules, the stack rule, and the operator's
   *  CSS last so that it wins. */
  function OverrideCss(o: map<string, Value>): string
  {
    FixedRules(o) + StackRule(o) + Nl12 + Field(o, CustomCssKey) + Nl8
  }

  /** `get_dynamic_css($options)`: the template's style, a newline, then the
   *  override block, which ends with the operator's CSS. */
  function DynamicCss(o: map<string, Value>): (css: string)
    ensures TemplateStyle(Field(o, TemplateKey)) + "\n" <= css
    ensures EndsWith(css, Field(o, CustomCssKey) + Nl8)
  {
    var front := TemplateStyle(Field(o, TemplateKey)) + "\n";
    EndsWithLastTwo(FixedRules(o) + StackRule(o) + Nl12, Field(o, CustomCssKey), Nl8);
    EndsWithTail(front, OverrideCss(o), Field(o, CustomCssKey) + Nl8);
    front + OverrideCss(o)
  }

  /** Option maps that agree on the keys in `keys`. */
  ghost predicate AgreeOn(o1: map<string, Value>, o2: map<string, Value>, keys: seq<string>)
  {
    forall i :: 0 <= i < |keys| ==> Get(o1, keys[i]) == Get(o2, keys[i])
  }

  lemma FieldsReadOnly(o1: map<string, Value>, o2: map<string, Value>, keys: seq<string>)
    requires AgreeOn(o1, o2, keys)
    ensures Fields(o1, keys) == Fields(o2, keys)
  {
  }

  /** Two option maps that agree on the keys the stylesheet reads give the
   *  same stylesheet: `FixedKeys`, the template, the force-stacked flag, the
   *  breakpoint and the operator's CSS. */
  lemma CssReadsOnlyItsKeys(o1: map<string, Value>, o2: map<string, Value>)
    requires AgreeOn(o1, o2, FixedKeys)
    requires Get(o1, TemplateKey) == Get(o2, TemplateKey)
    requires Get(o1, ForceStackedKey) == Get(o2, ForceStackedKey)
    requires Get(o1, BreakpointKey) == Get(o2, BreakpointKey)
    requires Get(o1, CustomCssKey) == Get(o2, CustomCssKey)
    ensures DynamicCss(o1) == DynamicCss(o2)
  {
    FieldsReadOnly(o1, o2, FixedKeys);
  }

  /** The breakpoint only matters when the force-stacked option is truthy:
   *  maps that differ at most in the breakpoint give the same stylesheet then. */
  lemma BreakpointIgnoredUnlessStacked(o1: map<string, Value>, o2: map<string, Value>)
    requires AgreeOn(o1, o2, FixedKeys)
    requires Get(o1, TemplateKey) == Get(o2, TemplateKey)
    requires Get(o1, ForceStackedKey) == Get(o2, ForceStackedKey)
    requires Get(o1, CustomCssKey) == Get(o2, CustomCssKey)
    requires Empty(Get(o1, ForceStackedKey))
    ensures DynamicCss(o1) == DynamicCss(o2)
  {
    FieldsReadOnly(o1, o2, FixedKeys);
  }

  /** Everything in the stylesheet in front of the operator's CSS. */
  function BeforeCustomCss(o: map<string, Value>): string
  {
    TemplateStyle(Field(o, TemplateKey)) + "\n" + FixedRules(o) + StackRule(o) + Nl12
  }

  /** The operator's CSS comes last, followed only by the closing indentation. */
  lemma CustomCssAtEnd(o: map<string, Value>)
    ensures DynamicCss(o) == BeforeCustomCss(o) + Field(o, CustomCssKey) + Nl8
  {
    Assoc(TemplateStyle(Field(o, TemplateKey)), "\n", FixedRules(o), StackRule(o), Nl12, Field(o, CustomCssKey), Nl8);
  }

  /** What comes before the operator's CSS does not depend on it: maps that
   *  differ at most in the operator's CSS agree on that front part. */
  lemma CustomCssLast(o1: map<string, Value>, o2: map<string, Value>)
    requires AgreeOn(o1, o2, FixedKeys)
    requires Get(o1, TemplateKey) == Get(o2, TemplateKey)
    requires Get(o1, ForceStackedKey) == Get(o2, ForceStackedKey)
    requires Get(o1, BreakpointKey) == Get(o2, BreakpointKey)
    ensures BeforeCustomCss(o1) == BeforeCustomCss(o2)
  {
    FieldsReadOnly(o1, o2, FixedKeys);
  }

  /**
   * The template contributes only its style block, in front: maps that
   * differ at most in the template have the same override block.
   */
  lemma TemplateStyleFirst(o1: map<string, Value>, o2: map<string, Value>)
    requires AgreeOn(o1, o2, FixedKeys)
    requires Get(o1, ForceStackedKey) == Get(o2, ForceStackedKey)
    requires Get(o1, BreakpointKey) == Get(o2, BreakpointKey)
    requires Get(o1, CustomCssKey) == Get(o2, CustomCssKey)
    ensures OverrideCss(o1) == OverrideCss(o2)
  {
    FieldsReadOnly(o1, o2, FixedKeys);
  }
}
