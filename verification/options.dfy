/**
 * The stored options: their defaults (`get_default_options`) and the
 * sanitiser WordPress runs on every submission of the settings form
 * (`sanitize_options`).
 */
module Options {
  import opened Php
  import opened Styles

  const CustomJsKey := "custom_js"

  /** The options run through the text-field filter, in the sanitiser's order:
   *  the twenty hero texts, the four colours, the three heading sizes and the
   *  three paddings. */
  const TextFields: seq<string> := [
    "hero_badge_1", "hero_badge_2", "hero_sub_heading", "hero_heading_before",
    "hero_heading_highlight", "hero_description", "hero_cta_1_text", "hero_cta_1_url",
    "hero_cta_2_text", "hero_cta_2_url", "hero_image_url", "hero_image_alt",
    "hero_metric_1_value", "hero_metric_1_label", "hero_metric_2_value", "hero_metric_2_label",
    "hero_metric_3_value", "hero_metric_3_label", "hero_metric_4_value", "hero_metric_4_label",
    "color_dark_primary", "color_accent", "color_light_gray", "color_white",
    "hero_desktop_heading_size", "hero_tablet_heading_size", "hero_mobile_heading_size",
    "hero_desktop_padding", "hero_tablet_padding", "hero_mobile_padding"
  ]

  /** The stack breakpoint stored when the submitted one is not a non-zero integer. */
  const FallbackBreakpoint := 992

  /** The default operator script (line 311). The literal is cut only at
   *  token boundaries, to keep each piece short; the pieces join to the
   *  script byte for byte. */
  const DefaultCustomJs :=
    "document." + "addEventListener('" + "DOMContentLoaded', " + "function() {" + "\n"
    + "    " + "const tabs = " + "document." + "querySelectorAll('." + "tab-button');" + "\n"
    + "    " + "const contents = " + "document." + "querySelectorAll('." + "industry-content');" + "\n"
    + "    " + "tabs.forEach(tab => " + "{" + "\n"
    + "        " + "tab.addEventListener" + "('click', () => {" + "\n"
    + "            " + "tabs.forEach(t => t." + "classList.remove('" + "active'));" + "\n"
    + "            " + "contents.forEach(c " + "=> c.classList." + "remove('active'));" + "\n"
    + "            " + "tab.classList.add('" + "active');" + "\n"
    + "            " + "const targetId = tab" + ".dataset.industry;" + "\n"
    + "            " + "const targetContent " + "= document." + "getElementById(" + "targetId);" + "\n"
    + "            " + "if (targetContent) " + "targetContent." + "classList.add('" + "active');" + "\n"
    + "        " + "});" + "\n"
    + "    " + "});" + "\n"
    + "});" + "\n"
    + "window.showForm = " + "function(formType) {" + "\n"
    + "    " + "const allForms = " + "document." + "querySelectorAll('." + "form-container');" + "\n"
    + "    " + "allForms.forEach(" + "form => form." + "classList.remove('" + "active-form'));" + "\n"
    + "    " + "const allButtons = " + "document." + "querySelectorAll('." + "form-tab-button');" + "\n"
    + "    " + "allButtons.forEach(" + "button => button." + "classList.remove('" + "active'));" + "\n"
    + "    " + "const selectedForm =" + " document." + "getElementById(" + "formType + '-form');" + "\n"
    + "    " + "if (selectedForm) " + "selectedForm." + "classList.add('" + "active-form');" + "\n"
    + "    " + "const selectedButton" + " = document." + "getElementById(" + "formType + '-tab');" + "\n"
    + "    " + "if (selectedButton) " + "selectedButton." + "classList.add('" + "active');" + "\n"
    + "    " + "const formSection = " + "document." + "getElementById('" + "contact-form');" + "\n"
    + "    " + "if (formSection) {" + "\n"
    + "        " + "const targetPosition" + " = formSection." + "getBoundingClientRect" + "().top + window." + "pageYOffset - 10;" + "\n"
    + "        " + "window.scrollTo({ " + "top: targetPosition," + " behavior: 'smooth' " + "});" + "\n"
    + "    " + "}" + "\n"
    + "};"

  /** `get_default_options()`, given the contents of the bundled template
   *  (the empty string when the file is missing). Long values are cut at
   *  word or path boundaries only; each joins to the value at lines 277-311. */
  function Defaults(templateHtml: string): map<string, Value>
  {
    map[
      "hero_badge_1" := Str("\U{C3}\U{A2}\U{C2}\U{AD} Trusted by 30+ " + "countries"),
      "hero_badge_2" := Str("99.999% Uptime"),
      "hero_sub_heading" := Str("Unified " + "Communication & " + "Contact Center " + "Solutions"),
      "hero_heading_before" := Str("Cutting-Edge " + "Solutions That " + "Drive Your Business"),
      "hero_heading_highlight" := Str("Forward"),
      "hero_description" := Str("Gain the " + "competitive " + "advantage by " + "combining HD Audio, "
        + "Video, Messaging, " + "and CRM integration " + "all from one secure "
        + "and simplified " + "interface."),
      "hero_cta_1_text" := Str("Schedule a Demo"),
      "hero_cta_1_url" := Str("https://voipoffice.in" + "/contact-us/"),
      "hero_cta_2_text" := Str("View Pricing"),
      "hero_cta_2_url" := Str("https://voipoffice.in" + "/plans-pricing/"),
      "hero_image_url" := Str("https://voipoffice.in" + "/wp-content/uploads"
        + "/2026/02/" + "Group-3-2-scaled-1.webp"),
      "hero_image_alt" := Str("Dynamic VOIP Office " + "Communication Visual"),
      "hero_metric_1_value" := Str("99.999%"),
      "hero_metric_1_label" := Str("Uptime SLA"),
      "hero_metric_2_value" := Str("30+"),
      "hero_metric_2_label" := Str("Countries Served"),
      "hero_metric_3_value" := Str("HD"),
      "hero_metric_3_label" := Str("Audio & Video"),
      "hero_metric_4_value" := Str("24/7"),
      "hero_metric_4_label" := Str("Expert Support"),
      "color_dark_primary" := Str("#14213d"),
      "color_accent" := Str("#fca311"),
      "color_light_gray" := Str("#e5e5e5"),
      "color_white" := Str("#ffffff"),
      "hero_desktop_heading_size" := Str("clamp(1.8rem, 4vw, " + "2.8rem)"),
      "hero_tablet_heading_size" := Str("2rem"),
      "hero_mobile_heading_size" := Str("1.5rem"),
      "hero_desktop_padding" := Str("60px 30px 60px"),
      "hero_tablet_padding" := Str("40px 20px 40px"),
      "hero_mobile_padding" := Str("28px 15px 28px"),
      BreakpointKey := Int(992),
      ForceStackedKey := Int(1),
      TemplateKey := Str(templateHtml),
      CustomCssKey := Str(""),
      CustomJsKey := Str(DefaultCustomJs)
    ]
  }

  /** The WordPress filters the sanitiser calls: `sanitize_text_field`,
   *  `wp_kses_post` and `sanitize_textarea_field`. Each turns a value into text. */
  datatype Filters = Filters(text: Value -> string, kses: Value -> string, textarea: Value -> string)

  /** `wp_parse_args($input, $defaults)`: the submission over the defaults,
   *  key by key. */
  function Merge(input: map<string, Value>, defaults: map<string, Value>): (merged: map<string, Value>)
    ensures merged.Keys == input.Keys + defaults.Keys
    ensures forall k :: Get(merged, k) == if k in input then input[k] else Get(defaults, k)
  {
    defaults + input
  }

  /** The text fields, each through `sanitize_text_field`. */
  function FilterTextFields(m: map<string, Value>, filters: Filters): (r: map<string, Value>)
    ensures r.Keys == m.Keys + set k | k in TextFields
    ensures forall k :: k in TextFields ==> Get(r, k) == Str(filters.text(Get(m, k)))
    ensures forall k :: k !in TextFields ==> Get(r, k) == Get(m, k)
  {
    m + map k | k in TextFields :: Str(filters.text(Get(m, k)))
  }

  /** `absint` of the value, or the fallback when that is 0. */
  function CoerceBreakpoint(v: Value): (n: nat)
    ensures n > 0
    ensures IntVal(v) != 0 ==> n == IntVal(v) || n == -IntVal(v)
    ensures IntVal(v) == 0 ==> n == FallbackBreakpoint
  {
    var b := AbsInt(v);
    if b > 0 then b else FallbackBreakpoint
  }

  /** 1 when the submitted flag is non-empty in PHP's sense, else 0. */
  function FlagOf(submitted: Value): (flag: int)
    ensures flag == 0 || flag == 1
  {
    if !Empty(submitted) then 1 else 0
  }

  /** The template, custom CSS and custom script: cast to text for a user who
   *  may post unfiltered HTML, through the post-content and textarea filters
   *  otherwise. */
  function FilterBlobs(m: map<string, Value>, unfilteredHtml: bool, filters: Filters): (r: map<string, Value>)
    ensures r.Keys == m.Keys + {TemplateKey, CustomCssKey, CustomJsKey}
    ensures forall k :: k !in {TemplateKey, CustomCssKey, CustomJsKey} ==> Get(r, k) == Get(m, k)
  {
    if unfilteredHtml then
      m[TemplateKey := Str(ToStr(Get(m, TemplateKey)))]
       [CustomCssKey := Str(ToStr(Get(m, CustomCssKey)))]
       [CustomJsKey := Str(ToStr(Get(m, CustomJsKey)))]
    else
      m[TemplateKey := Str(filters.kses(Get(m, TemplateKey)))]
       [CustomCssKey := Str(filters.textarea(Get(m, CustomCssKey)))]
       [CustomJsKey := Str(filters.textarea(Get(m, CustomJsKey)))]
  }

  /** `sanitize_options($input)` against the given defaults: merge, filter the
   *  text fields, coerce the breakpoint, normalise the force-stacked flag from
   *  the raw submission, then treat the three blobs by capability. */
  function SanitizeWith(input: map<string, Value>, defaults: map<string, Value>,
                        unfilteredHtml: bool, filters: Filters): map<string, Value>
  {
    var merged := Merge(input, defaults);
    var texts := FilterTextFields(merged, filters);
    var stacked := texts[BreakpointKey := Int(CoerceBreakpoint(Get(texts, BreakpointKey)))]
                        [ForceStackedKey := Int(FlagOf(Get(input, ForceStackedKey)))];
    FilterBlobs(stacked, unfilteredHtml, filters)
  }

  /** `sanitize_options($input)`, with the bundled template's contents. */
  function Sanitize(input: map<string, Value>, templateHtml: string,
                    unfilteredHtml: bool, filters: Filters): map<string, Value>
  {
    SanitizeWith(input, Defaults(templateHtml), unfilteredHtml, filters)
  }

  /** The keys the sanitiser treats specially are none of the text fields. */
  lemma SpecialKeysNotText()
    ensures BreakpointKey !in TextFields && ForceStackedKey !in TextFields
    ensures TemplateKey !in TextFields && CustomCssKey !in TextFields && CustomJsKey !in TextFields
  {
    BreakpointNotText();
    FlagNotText();
    TemplateNotText();
    CustomCssNotText();
    CustomJsNotText();
  }

  lemma BreakpointNotText() ensures BreakpointKey !in TextFields {}
  lemma FlagNotText() ensures ForceStackedKey !in TextFields {}
  lemma TemplateNotText() ensures TemplateKey !in TextFields {}
  lemma CustomCssNotText() ensures CustomCssKey !in TextFields {}
  lemma CustomJsNotText() ensures CustomJsKey !in TextFields {}

  /** ... and are distinct from each other. */
  lemma SpecialKeysDistinct()
    ensures BreakpointKey !in {ForceStackedKey, TemplateKey, CustomCssKey, CustomJsKey}
    ensures ForceStackedKey !in {TemplateKey, CustomCssKey, CustomJsKey}
  {
  }

  /** The stored breakpoint is the submitted (or default) one coerced to a
   *  positive integer. */
  lemma SanitizedBreakpoint(input: map<string, Value>, defaults: map<string, Value>,
                            unfilteredHtml: bool, filters: Filters)
    ensures Get(SanitizeWith(input, defaults, unfilteredHtml, filters), BreakpointKey)
         == Int(CoerceBreakpoint(Get(Merge(input, defaults), BreakpointKey)))
  {
    SpecialKeysNotText();
    SpecialKeysDistinct();
  }

  /** The force-stacked flag is 1 exactly when the raw submission holds a
   *  non-empty value for it, and 0 otherwise; the defaults are not read. */
  lemma SanitizedFlag(input: map<string, Value>, defaults: map<string, Value>,
                      unfilteredHtml: bool, filters: Filters)
    ensures Get(SanitizeWith(input, defaults, unfilteredHtml, filters), ForceStackedKey)
         == Int(if Empty(Get(input, ForceStackedKey)) then 0 else 1)
  {
    SpecialKeysDistinct();
  }

  /** Every text field holds the text filter's output for the submitted (or
   *  default) value. */
  lemma SanitizedTextFields(input: map<string, Value>, defaults: map<string, Value>,
                            unfilteredHtml: bool, filters: Filters)
    ensures forall k :: k in TextFields ==>
      Get(SanitizeWith(input, defaults, unfilteredHtml, filters), k)
        == Str(filters.text(Get(Merge(input, defaults), k)))
  {
    SpecialKeysNotText();
  }

  /** The three blobs: the submitted (or default) value as text for a user
   *  with the `unfiltered_html` capability, filtered otherwise. */
  lemma SanitizedBlobs(input: map<string, Value>, defaults: map<string, Value>,
                       unfilteredHtml: bool, filters: Filters)
    ensures var out, merged := SanitizeWith(input, defaults, unfilteredHtml, filters), Merge(input, defaults);
      if unfilteredHtml then
        && Get(out, TemplateKey) == Str(ToStr(Get(merged, TemplateKey)))
        && Get(out, CustomCssKey) == Str(ToStr(Get(merged, CustomCssKey)))
        && Get(out, CustomJsKey) == Str(ToStr(Get(merged, CustomJsKey)))
      else
        && Get(out, TemplateKey) == Str(filters.kses(Get(merged, TemplateKey)))
        && Get(out, CustomCssKey) == Str(filters.textarea(Get(merged, CustomCssKey)))
        && Get(out, CustomJsKey) == Str(filters.textarea(Get(merged, CustomJsKey)))
  {
    SpecialKeysNotText();
    SpecialKeysDistinct();
  }

  /** The keys the sanitiser treats specially. */
  const SpecialKeys := {BreakpointKey, ForceStackedKey, TemplateKey, CustomCssKey, CustomJsKey}

  /** Every other key keeps the submitted value, or the default when nothing
   *  was submitted for it. */
  lemma SanitizedOthersUnchanged(input: map<string, Value>, defaults: map<string, Value>,
                                 unfilteredHtml: bool, filters: Filters)
    ensures forall k :: (k !in TextFields && k != BreakpointKey && k != ForceStackedKey
                      && k != TemplateKey && k != CustomCssKey && k != CustomJsKey) ==>
      Get(SanitizeWith(input, defaults, unfilteredHtml, filters), k)
        == if k in input then input[k] else Get(defaults, k)
  {
  }

  /**
   * Whatever is submitted, the stored array has the types the renderer
   * reads: the breakpoint is a positive integer, the flag is 0 or 1, and
   * the text fields and the three blobs are strings.
   */
  lemma StoredTypes(input: map<string, Value>, defaults: map<string, Value>,
                    unfilteredHtml: bool, filters: Filters)
    ensures var stored := SanitizeWith(input, defaults, unfilteredHtml, filters);
      && Get(stored, BreakpointKey).Int? && Get(stored, BreakpointKey).i > 0
      && (Get(stored, ForceStackedKey) == Int(0) || Get(stored, ForceStackedKey) == Int(1))
      && (forall k :: k in TextFields ==> Get(stored, k).Str?)
      && Get(stored, TemplateKey).Str? && Get(stored, CustomCssKey).Str? && Get(stored, CustomJsKey).Str?
  {
    SanitizedBreakpoint(input, defaults, unfilteredHtml, filters);
    SanitizedFlag(input, defaults, unfilteredHtml, filters);
    SanitizedTextFields(input, defaults, unfilteredHtml, filters);
    SanitizedBlobs(input, defaults, unfilteredHtml, filters);
  }

  /**
   * Against the bundled defaults: a submission without a breakpoint stores
   * 992, one without the checkbox stores 0, and a user who may post
   * unfiltered HTML and submits no template stores the bundled one.
   */
  lemma SanitizeFillsGaps(input: map<string, Value>, templateHtml: string,
                          unfilteredHtml: bool, filters: Filters)
    ensures var stored := Sanitize(input, templateHtml, unfilteredHtml, filters);
      && (BreakpointKey !in input ==> Get(stored, BreakpointKey) == Int(FallbackBreakpoint))
      && (ForceStackedKey !in input ==> Get(stored, ForceStackedKey) == Int(0))
      && (unfilteredHtml && TemplateKey !in input ==> Get(stored, TemplateKey) == Str(templateHtml))
  {
    var defaults := Defaults(templateHtml);
    DefaultBreakpoint(templateHtml);
    DefaultTemplate(templateHtml);
    SanitizedBreakpoint(input, defaults, unfilteredHtml, filters);
    SanitizedFlag(input, defaults, unfilteredHtml, filters);
    SanitizedBlobs(input, defaults, unfilteredHtml, filters);
  }

  /** The defaults hold exactly the thirty text fields and the five keys the
   *  sanitiser treats specially. */
  lemma DefaultKeys(templateHtml: string)
    ensures Defaults(templateHtml).Keys == (set k | k in TextFields) + SpecialKeys
  {
    DefaultKeysKnown(templateHtml);
    DefaultKeysPresent(templateHtml);
  }

  lemma DefaultKeysKnown(templateHtml: string)
    ensures forall k :: k in Defaults(templateHtml) ==> k in TextFields || k in SpecialKeys
  {
  }

  lemma DefaultKeysPresent(templateHtml: string)
    ensures forall k :: k in TextFields || k in SpecialKeys ==> k in Defaults(templateHtml)
  {
    DefaultTextFieldsPresent(templateHtml, 0, 15);
    DefaultTextFieldsPresent(templateHtml, 15, 30);
  }

  lemma DefaultTextFieldsPresent(templateHtml: string, from: nat, to: nat)
    requires (from, to) in {(0, 15), (15, 30)}
    ensures forall i :: from <= i < to ==> TextFields[i] in Defaults(templateHtml)
  {
  }

  /** The default breakpoint is the sanitiser's fallback. */
  lemma DefaultBreakpoint(templateHtml: string)
    ensures Get(Defaults(templateHtml), BreakpointKey) == Int(FallbackBreakpoint)
  {
  }

  /** The default template is the bundled file's contents. */
  lemma DefaultTemplate(templateHtml: string)
    ensures Get(Defaults(templateHtml), TemplateKey) == Str(templateHtml)
  {
  }

  /** The stored options hold every submitted key, every default key, the text
   *  fields and the special keys, and nothing else. */
  lemma SanitizedKeys(input: map<string, Value>, defaults: map<string, Value>,
                      unfilteredHtml: bool, filters: Filters)
    ensures SanitizeWith(input, defaults, unfilteredHtml, filters).Keys
         == input.Keys + defaults.Keys + (set k | k in TextFields) + SpecialKeys
  {
  }

  /** A negative breakpoint is stored as its magnitude; text that is not a
   *  number, and zero, fall back to 992. */
  lemma BreakpointExamples()
    ensures CoerceBreakpoint(Int(-500)) == 500
    ensures CoerceBreakpoint(Str("abc")) == 992
    ensures CoerceBreakpoint(Int(0)) == 992
  {
    assert SkipSpaces("abc") == "abc";
    assert DigitRun("abc") == 0;
  }

  /** A stored breakpoint survives another save, whether it comes back as the
   *  stored integer or as the decimal text the settings form posts. */
  lemma {:induction false} BreakpointStable(n: nat)
    requires n > 0
    ensures CoerceBreakpoint(Int(n)) == n
    ensures CoerceBreakpoint(Str(ToStr(Int(n)))) == n
  {
    IntTextRoundTrip(n);
  }

  /** With the `unfiltered_html` capability the blobs are stored verbatim:
   *  a submitted string as it is, and a missing one as its default. */
  lemma CapabilityPassThrough(input: map<string, Value>, defaults: map<string, Value>, filters: Filters, k: string)
    requires k == TemplateKey || k == CustomCssKey || k == CustomJsKey
    ensures k in input && input[k].Str? ==> Get(SanitizeWith(input, defaults, true, filters), k) == input[k]
    ensures k !in input && k in defaults && defaults[k].Str? ==>
      Get(SanitizeWith(input, defaults, true, filters), k) == defaults[k]
  {
    SanitizedBlobs(input, defaults, true, filters);
  }

  /** An omitted checkbox stores 0, even though the default is 1. */
  lemma OmittedCheckboxStoresZero(input: map<string, Value>, templateHtml: string,
                                  unfilteredHtml: bool, filters: Filters)
    requires ForceStackedKey !in input
    ensures Get(Defaults(templateHtml), ForceStackedKey) == Int(1)
    ensures Get(Sanitize(input, templateHtml, unfilteredHtml, filters), ForceStackedKey) == Int(0)
  {
    DefaultFlag(templateHtml);
    SanitizedFlag(input, Defaults(templateHtml), unfilteredHtml, filters);
  }

  lemma DefaultFlag(templateHtml: string)
    ensures Get(Defaults(templateHtml), ForceStackedKey) == Int(1)
  {
  }

  /** Filters that leave their own output alone; only the text filter matters
   *  for a user with the `unfiltered_html` capability. */
  ghost predicate Settled(filters: Filters, unfilteredHtml: bool)
  {
    && (forall v :: filters.text(Str(filters.text(v))) == filters.text(v))
    && (!unfilteredHtml ==> forall v :: filters.kses(Str(filters.kses(v))) == filters.kses(v))
    && (!unfilteredHtml ==> forall v :: filters.textarea(Str(filters.textarea(v))) == filters.textarea(v))
  }

  /** The stored options, and the result of saving them once more. */
  function Resaved(input: map<string, Value>, defaults: map<string, Value>,
                   unfilteredHtml: bool, filters: Filters): map<string, Value>
  {
    SanitizeWith(SanitizeWith(input, defaults, unfilteredHtml, filters), defaults, unfilteredHtml, filters)
  }

  lemma ResavedTextField(input: map<string, Value>, defaults: map<string, Value>,
                         unfilteredHtml: bool, filters: Filters, k: string)
    requires Settled(filters, unfilteredHtml) && k in TextFields
    ensures Get(Resaved(input, defaults, unfilteredHtml, filters), k)
         == Get(SanitizeWith(input, defaults, unfilteredHtml, filters), k)
  {
    var out := SanitizeWith(input, defaults, unfilteredHtml, filters);
    SanitizedKeys(input, defaults, unfilteredHtml, filters);
    SanitizedTextFields(input, defaults, unfilteredHtml, filters);
    SanitizedTextFields(out, defaults, unfilteredHtml, filters);
    assert Get(Merge(out, defaults), k) == Get(out, k);
  }

  lemma ResavedBreakpoint(input: map<string, Value>, defaults: map<string, Value>,
                          unfilteredHtml: bool, filters: Filters)
    ensures Get(Resaved(input, defaults, unfilteredHtml, filters), BreakpointKey)
         == Get(SanitizeWith(input, defaults, unfilteredHtml, filters), BreakpointKey)
  {
    var out := SanitizeWith(input, defaults, unfilteredHtml, filters);
    SanitizedKeys(input, defaults, unfilteredHtml, filters);
    SanitizedBreakpoint(input, defaults, unfilteredHtml, filters);
    SanitizedBreakpoint(out, defaults, unfilteredHtml, filters);
    assert Get(Merge(out, defaults), BreakpointKey) == Get(out, BreakpointKey);
    BreakpointStable(CoerceBreakpoint(Get(Merge(input, defaults), BreakpointKey)));
  }

  lemma ResavedFlag(input: map<string, Value>, defaults: map<string, Value>,
                    unfilteredHtml: bool, filters: Filters)
    ensures Get(Resaved(input, defaults, unfilteredHtml, filters), ForceStackedKey)
         == Get(SanitizeWith(input, defaults, unfilteredHtml, filters), ForceStackedKey)
  {
    var out := SanitizeWith(input, defaults, unfilteredHtml, filters);
    SanitizedFlag(input, defaults, unfilteredHtml, filters);
    SanitizedFlag(out, defaults, unfilteredHtml, filters);
  }

  lemma ResavedBlob(input: map<string, Value>, defaults: map<string, Value>,
                    unfilteredHtml: bool, filters: Filters, k: string)
    requires Settled(filters, unfilteredHtml)
    requires k == TemplateKey || k == CustomCssKey || k == CustomJsKey
    ensures Get(Resaved(input, defaults, unfilteredHtml, filters), k)
         == Get(SanitizeWith(input, defaults, unfilteredHtml, filters), k)
  {
    var out := SanitizeWith(input, defaults, unfilteredHtml, filters);
    SanitizedKeys(input, defaults, unfilteredHtml, filters);
    SanitizedBlobs(input, defaults, unfilteredHtml, filters);
    SanitizedBlobs(out, defaults, unfilteredHtml, filters);
    assert Get(Merge(out, defaults), k) == Get(out, k);
  }

  lemma ResavedOther(input: map<string, Value>, defaults: map<string, Value>,
                     unfilteredHtml: bool, filters: Filters, k: string)
    requires k !in TextFields && k != BreakpointKey && k != ForceStackedKey
    requires k != TemplateKey && k != CustomCssKey && k != CustomJsKey
    requires k in SanitizeWith(input, defaults, unfilteredHtml, filters)
    ensures Get(Resaved(input, defaults, unfilteredHtml, filters), k)
         == Get(SanitizeWith(input, defaults, unfilteredHtml, filters), k)
  {
    var out := SanitizeWith(input, defaults, unfilteredHtml, filters);
    SanitizedOthersUnchanged(out, defaults, unfilteredHtml, filters);
  }

  lemma ResavedAt(input: map<string, Value>, defaults: map<string, Value>,
                  unfilteredHtml: bool, filters: Filters, k: string)
    requires Settled(filters, unfilteredHtml)
    requires k in SanitizeWith(input, defaults, unfilteredHtml, filters)
    ensures k in Resaved(input, defaults, unfilteredHtml, filters)
    ensures Resaved(input, defaults, unfilteredHtml, filters)[k]
         == SanitizeWith(input, defaults, unfilteredHtml, filters)[k]
  {
    ResavedKeys(input, defaults, unfilteredHtml, filters);
    if k in TextFields {
      ResavedTextField(input, defaults, unfilteredHtml, filters, k);
    } else if k == BreakpointKey {
      ResavedBreakpoint(input, defaults, unfilteredHtml, filters);
    } else if k == ForceStackedKey {
      ResavedFlag(input, defaults, unfilteredHtml, filters);
    } else if k == TemplateKey || k == CustomCssKey || k == CustomJsKey {
      ResavedBlob(input, defaults, unfilteredHtml, filters, k);
    } else {
      ResavedOther(input, defaults, unfilteredHtml, filters, k);
    }
  }

  lemma ResavedKeys(input: map<string, Value>, defaults: map<string, Value>,
                    unfilteredHtml: bool, filters: Filters)
    ensures Resaved(input, defaults, unfilteredHtml, filters).Keys
         == SanitizeWith(input, defaults, unfilteredHtml, filters).Keys
  {
    SanitizedKeys(input, defaults, unfilteredHtml, filters);
    SanitizedKeys(SanitizeWith(input, defaults, unfilteredHtml, filters), defaults, unfilteredHtml, filters);
  }

  /** Saving the stored options again, with filters that leave their own
   *  output alone, changes nothing. */
  lemma {:induction false} SanitizeIdempotent(input: map<string, Value>, defaults: map<string, Value>,
                                              unfilteredHtml: bool, filters: Filters)
    requires Settled(filters, unfilteredHtml)
    ensures Resaved(input, defaults, unfilteredHtml, filters) == SanitizeWith(input, defaults, unfilteredHtml, filters)
  {
    var out := SanitizeWith(input, defaults, unfilteredHtml, filters);
    var again := Resaved(input, defaults, unfilteredHtml, filters);
    ResavedKeys(input, defaults, unfilteredHtml, filters);
    forall k | k in out
      ensures again[k] == out[k]
    {
      ResavedAt(input, defaults, unfilteredHtml, filters, k);
    }
    MapsEqual(again, out);
  }

  /** Maps with the same keys and the same value at each key are equal. */
  lemma MapsEqual<K, V>(a: map<K, V>, b: map<K, V>)
    requires a.Keys == b.Keys
    requires forall k :: k in a ==> a[k] == b[k]
    ensures a == b
  {
  }

  /** The bundled template only supplies the default `template_html`. */
  lemma DefaultsVaryOnlyInTemplate(t1: string, t2: string)
    ensures Defaults(t2) == Defaults(t1)[TemplateKey := Str(t2)]
  {
  }

  /** A submitted key hides the default under it. */
  lemma MergeHidesDefault(input: map<string, Value>, defaults: map<string, Value>, k: string, v: Value)
    requires k in input
    ensures Merge(input, defaults[k := v]) == Merge(input, defaults)
  {
  }
}
