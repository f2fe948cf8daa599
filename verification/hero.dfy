/**
 * The hero section the plugin generates (`get_hero_section_html`): one fixed
 * `sprintf` format with twenty positional arguments, each an option value
 * passed through the WordPress escaping function for its context.
 */
module Hero {
  import opened Php
  import opened Text

  /** WordPress's escaping functions `esc_html`, `esc_url` and `esc_attr`. */
  datatype Escapers = Escapers(html: string -> string, url: string -> string, attr: string -> string)

  /** What WordPress guarantees of all three: their output holds no '<'. */
  ghost predicate AngleSafe(esc: Escapers)
  {
    forall s :: '<' !in esc.html(s) && '<' !in esc.url(s) && '<' !in esc.attr(s)
  }

  datatype Context = HtmlText | Url | Attribute

  function Escape(esc: Escapers, ctx: Context, s: string): string
  {
    match ctx
    case HtmlText => esc.html(s)
    case Url => esc.url(s)
    case Attribute => esc.attr(s)
  }

  /** Argument `%n$s` of the format is `Slots[n - 1]`: the option key and how it is escaped. */
  const Slots: seq<(string, Context)> := [
    ("hero_badge_1", HtmlText), ("hero_badge_2", HtmlText), ("hero_sub_heading", HtmlText),
    ("hero_heading_before", HtmlText), ("hero_heading_highlight", HtmlText),
    ("hero_description", HtmlText),
    ("hero_cta_1_url", Url), ("hero_cta_1_text", HtmlText),
    ("hero_cta_2_url", Url), ("hero_cta_2_text", HtmlText),
    ("hero_metric_1_value", HtmlText), ("hero_metric_1_label", HtmlText),
    ("hero_metric_2_value", HtmlText), ("hero_metric_2_label", HtmlText),
    ("hero_metric_3_value", HtmlText), ("hero_metric_3_label", HtmlText),
    ("hero_metric_4_value", HtmlText), ("hero_metric_4_label", HtmlText),
    ("hero_image_url", Url), ("hero_image_alt", Attribute)
  ]

  /** The twenty escaped arguments, in format order. */
  function Arguments(options: map<string, Value>, esc: Escapers): (args: seq<string>)
    ensures |args| == |Slots| == 20
  {
    seq(|Slots|, n requires 0 <= n < |Slots| => Escape(esc, Slots[n].1, ToStr(Get(options, Slots[n].0))))
  }

  /** `<body>`: a complete tag. */
  function Tag(body: string): string
  {
    "<" + body + ">"
  }

  /** `<body`: a tag whose attributes continue after an argument. */
  function TagStart(body: string): string
  {
    "<" + body
  }

  function ClassTag(name: string, cls: string): string
  {
    Tag(name + " class=\"" + cls + "\"")
  }

  /** The rest of a link's opening tag after its `href` argument. */
  function ClassAttrEnd(cls: string): string
  {
    "\" class=\"" + cls + "\">"
  }

  const SectionOpenBody := "section id=\"hero\">"
  /** `<section id="hero">`: the fragment starts with it and the splice searches for it. */
  const SectionOpen := "<" + SectionOpenBody
  /** `</section>`: the fragment ends with it and the splice stops at the first one. */
  const CloseTag := Tag("/section")
  /** `<img`: the fragment holds exactly one. */
  const ImgTag := TagStart("img")

  const ImgAttrsEnd := "\" width=\"600\"" + " height=\"400\"" + " fetchpriority=\"high\">"
  const MetricOpen := ClassTag("div", "hero-metric-item") + ClassTag("div", "hero-metric-value")
  const ImgHead := Tag("/div") + Tag("/div") + Tag("/div") + Tag("/div") + ClassTag("div", "hero-visual")
  const ImgTagStart := TagStart("img src=\"")
  const CloseHead := ImgAttrsEnd + Tag("/div") + Tag("/div")

  /** The fixed text of the format before `%1$s` (n = 0), between `%n$s` and
   *  `%(n+1)$s`, and after `%20$s` (n = 20). */
  function Run(n: nat): string
    requires n <= 20
  {
    if n == 0 then
      SectionOpen + ClassTag("div", "hero-content") + ClassTag("div", "hero-text")
      + ClassTag("div", "trust-badges") + ClassTag("div", "badge")
    else if n == 1 then Tag("/div") + ClassTag("div", "badge")
    else if n == 2 then Tag("/div") + Tag("/div") + ClassTag("p", "sub-heading")
    else if n == 3 then Tag("/p") + Tag("h1")
    else if n == 4 then " " + Tag("span")
    else if n == 5 then Tag("/span") + Tag("/h1") + ClassTag("p", "description")
    else if n == 6 then Tag("/p") + ClassTag("div", "hero-cta-group") + TagStart("a href=\"")
    else if n == 7 then ClassAttrEnd("cta-button cta-primary")
    else if n == 8 then Tag("/a") + TagStart("a href=\"")
    else if n == 9 then ClassAttrEnd("cta-button cta-secondary")
    else if n == 10 then Tag("/a") + Tag("/div") + ClassTag("div", "hero-metrics") + MetricOpen
    else if n == 18 then ImgHead + ImgTagStart
    else if n == 19 then "\" alt=\""
    else if n == 20 then CloseHead + CloseTag
    else if n % 2 == 1 then Tag("/div") + ClassTag("div", "hero-metric-label")
    else Tag("/div") + Tag("/div") + MetricOpen
  }

  /** A text whose last byte closes a tag follows no attribute opening. */
  lemma TagClosed(s: string)
    requires |s| > 0 && s[|s| - 1] == '>'
    ensures EndsWith(s, ">")
    ensures !EndsWith(s, "href=\"") && !EndsWith(s, "src=\"") && !EndsWith(s, "alt=\"")
  {
  }

  /** A text ending in `<a href="` follows exactly that attribute opening. */
  lemma HrefOpened(x: string)
    ensures var s := x + TagStart("a href=\"");
      EndsWith(s, "href=\"") && !EndsWith(s, "src=\"") && !EndsWith(s, "alt=\"") && !EndsWith(s, ">")
  {
    var b := TagStart("a href=\"");
    assert b == "<a href=\"";
    EndsWithTail(x, b, "href=\"");
    EndsWithTail(x, b, "src=\"");
    EndsWithTail(x, b, "alt=\"");
    EndsWithTail(x, b, ">");
  }

  /** A text ending in `<img src="` follows exactly that attribute opening. */
  lemma SrcOpened(x: string)
    ensures var s := x + ImgTagStart;
      !EndsWith(s, "href=\"") && EndsWith(s, "src=\"") && !EndsWith(s, "alt=\"") && !EndsWith(s, ">")
  {
    var b := ImgTagStart;
    assert b == "<img src=\"";
    EndsWithTail(x, b, "href=\"");
    EndsWithTail(x, b, "src=\"");
    EndsWithTail(x, b, "alt=\"");
    EndsWithTail(x, b, ">");
  }

  /** The fixed text before each text argument ends with a tag's `>`. */
  lemma ClosedRunLow(n: nat)
    requires n < 6
    ensures |Run(n)| > 0 && Run(n)[|Run(n)| - 1] == '>'
  {
  }

  lemma ClosedRunMid(n: nat)
    requires n == 7 || n == 9
    ensures |Run(n)| > 0 && Run(n)[|Run(n)| - 1] == '>'
  {
  }

  lemma ClosedRunHigh(n: nat)
    requires 10 <= n < 18
    ensures |Run(n)| > 0 && Run(n)[|Run(n)| - 1] == '>'
  {
  }

  /** The arguments that sit in element text: all but the two link targets,
   *  the image source and the image's alternative text. */
  predicate TextSlot(n: nat)
  {
    n < 6 || n == 7 || n == 9 || 10 <= n < 18
  }

  lemma TextSlotsEscapedAsText(n: nat)
    requires TextSlot(n)
    ensures n < |Slots| && Slots[n].1 == HtmlText
  {
  }

  /** The fixed text before each text argument closes a tag. */
  lemma TextSlotsFollowTags(n: nat)
    requires TextSlot(n)
    ensures |Run(n)| > 0 && Run(n)[|Run(n)| - 1] == '>'
  {
    if n < 6 { ClosedRunLow(n); } else if n < 10 { ClosedRunMid(n); } else { ClosedRunHigh(n); }
  }

  lemma TextContext(n: nat)
    requires TextSlot(n)
    ensures n < |Slots|
    ensures Slots[n].1 == Url <==> EndsWith(Run(n), "href=\"") || EndsWith(Run(n), "src=\"")
    ensures Slots[n].1 == Attribute <==> EndsWith(Run(n), "alt=\"")
    ensures Slots[n].1 == HtmlText <==> EndsWith(Run(n), ">")
  {
    TextSlotsEscapedAsText(n);
    TextSlotsFollowTags(n);
    TagClosed(Run(n));
  }

  lemma FirstCtaContext()
    ensures Slots[6].1 == Url <==> EndsWith(Run(6), "href=\"") || EndsWith(Run(6), "src=\"")
    ensures Slots[6].1 == Attribute <==> EndsWith(Run(6), "alt=\"")
    ensures Slots[6].1 == HtmlText <==> EndsWith(Run(6), ">")
  {
    var x := Tag("/p") + ClassTag("div", "hero-cta-group");
    assert Slots[6].1 == Url;
    assert Run(6) == x + TagStart("a href=\"");
    HrefOpened(x);
  }

  lemma SecondCtaContext()
    ensures Slots[8].1 == Url <==> EndsWith(Run(8), "href=\"") || EndsWith(Run(8), "src=\"")
    ensures Slots[8].1 == Attribute <==> EndsWith(Run(8), "alt=\"")
    ensures Slots[8].1 == HtmlText <==> EndsWith(Run(8), ">")
  {
    assert Run(8) == "</a><a href=\"";
  }

  lemma ImageUrlContext()
    ensures Slots[18].1 == Url <==> EndsWith(Run(18), "href=\"") || EndsWith(Run(18), "src=\"")
    ensures Slots[18].1 == Attribute <==> EndsWith(Run(18), "alt=\"")
    ensures Slots[18].1 == HtmlText <==> EndsWith(Run(18), ">")
  {
    SrcOpened(ImgHead);
  }

  lemma ImageAltContext()
    ensures Slots[19].1 == Url <==> EndsWith(Run(19), "href=\"") || EndsWith(Run(19), "src=\"")
    ensures Slots[19].1 == Attribute <==> EndsWith(Run(19), "alt=\"")
    ensures Slots[19].1 == HtmlText <==> EndsWith(Run(19), ">")
  {
    assert Run(19) == "\" alt=\"";
  }

  /**
   * Each slot's escaper suits the place the format gives it. `esc_url` is
   * used exactly for the arguments that follow `href="` or `src="`,
   * `esc_attr` exactly for the one that follows `alt="`, and `esc_html` for
   * the rest, which follow a tag's `>` and so sit in element text.
   */
  lemma SlotContext(n: nat)
    requires n < |Slots|
    ensures Slots[n].1 == Url <==> EndsWith(Run(n), "href=\"") || EndsWith(Run(n), "src=\"")
    ensures Slots[n].1 == Attribute <==> EndsWith(Run(n), "alt=\"")
    ensures Slots[n].1 == HtmlText <==> EndsWith(Run(n), ">")
  {
    if TextSlot(n) {
      TextContext(n);
    } else if n == 6 {
      FirstCtaContext();
    } else if n == 8 {
      SecondCtaContext();
    } else if n == 18 {
      ImageUrlContext();
    } else {
      assert n == 19;
      ImageAltContext();
    }
  }

  /** ... and the option it reads: `esc_url` exactly for the `_url` options,
   *  `esc_attr` exactly for the `_alt` option. */
  lemma SlotKeys(n: nat)
    requires n < |Slots|
    ensures Slots[n].1 == Url <==> EndsWith(Slots[n].0, "_url")
    ensures Slots[n].1 == Attribute <==> EndsWith(Slots[n].0, "_alt")
  {
    if n < 10 { FirstSlotKeys(n); } else { LastSlotKeys(n); }
  }

  lemma FirstSlotKeys(n: nat)
    requires n < 10
    ensures Slots[n].1 == Url <==> EndsWith(Slots[n].0, "_url")
    ensures Slots[n].1 == Attribute <==> EndsWith(Slots[n].0, "_alt")
  {
  }

  lemma LastSlotKeys(n: nat)
    requires 10 <= n < |Slots|
    ensures Slots[n].1 == Url <==> EndsWith(Slots[n].0, "_url")
    ensures Slots[n].1 == Attribute <==> EndsWith(Slots[n].0, "_alt")
  {
  }

  /** The format filled in up to and including the fixed text after argument `n`. */
  function Prefix(args: seq<string>, n: nat): string
    requires |args| == 20 && n <= 20
  {
    if n == 0 then Run(0) else Prefix(args, n - 1) + args[n - 1] + Run(n)
  }

  /** `sprintf` of the hero format with already-escaped arguments. */
  function Fragment(args: seq<string>): string
    requires |args| == 20
  {
    Prefix(args, 20)
  }

  /** `get_hero_section_html($options)`: whatever the options hold, the
   *  fragment opens the hero section and ends by closing it. */
  function SectionHtml(options: map<string, Value>, esc: Escapers): (html: string)
    ensures SectionOpen <= html
    ensures EndsWith(html, CloseTag)
  {
    var args := Arguments(options, esc);
    OpeningPrefix(args);
    Prefix20(args);
    EndsWithTail(Prefix(args, 18) + (args[18] + Run(19) + args[19] + CloseHead), CloseTag, CloseTag);
    Fragment(args)
  }

  lemma TagTight(body: string, pat: string, at: nat)
    requires |pat| > 0 && pat[0] == '<' && '<' !in body
    requires at < |body| && at + 1 < |pat|
    requires LowerChar(body[at]) != LowerChar(pat[at + 1])
    ensures Tight(Tag(body), pat)
  {
    assert Tag(body) == "<" + (body + ">");
    assert (body + ">")[at] == body[at];
    TagStartTight(body + ">", pat, at);
  }

  lemma ClassTagTight(name: string, cls: string, pat: string, at: nat)
    requires |pat| > 0 && pat[0] == '<' && '<' !in name && '<' !in cls
    requires at < |name| && at + 1 < |pat|
    requires LowerChar(name[at]) != LowerChar(pat[at + 1])
    ensures Tight(ClassTag(name, cls), pat)
  {
    var body := name + " class=\"" + cls + "\"";
    assert body[at] == name[at];
    TagTight(body, pat, at);
  }

  /** A class-carrying tag whose name starts with neither '/' nor 'i' is
   *  tight for both tags. */
  lemma ClassTagTightBoth(name: string, cls: string)
    requires |name| > 0 && name[0] != '/' && LowerChar(name[0]) != 'i'
    requires '<' !in name && '<' !in cls
    ensures Tight(ClassTag(name, cls), CloseTag) && Tight(ClassTag(name, cls), ImgTag)
  {
    ClassTagTight(name, cls, CloseTag, 0);
    ClassTagTight(name, cls, ImgTag, 0);
  }

  /** An end tag other than `</section>` is tight for both tags; `at` is where
   *  its name parts from "section". */
  lemma EndTagTightBoth(name: string, at: nat)
    requires 0 < at < |name| && at < 9 && name[0] == '/' && '<' !in name
    requires LowerChar(name[at]) != LowerChar(CloseTag[at + 1])
    ensures Tight(Tag(name), CloseTag) && Tight(Tag(name), ImgTag)
  {
    TagTight(name, CloseTag, at);
    TagTight(name, ImgTag, 0);
  }

  lemma ClassTagsTight()
    ensures Tight(ClassTag("div", "hero-content"), CloseTag) && Tight(ClassTag("div", "hero-content"), ImgTag)
    ensures Tight(ClassTag("div", "hero-text"), CloseTag) && Tight(ClassTag("div", "hero-text"), ImgTag)
    ensures Tight(ClassTag("div", "trust-badges"), CloseTag) && Tight(ClassTag("div", "trust-badges"), ImgTag)
    ensures Tight(ClassTag("div", "badge"), CloseTag) && Tight(ClassTag("div", "badge"), ImgTag)
    ensures Tight(ClassTag("p", "sub-heading"), CloseTag) && Tight(ClassTag("p", "sub-heading"), ImgTag)
    ensures Tight(ClassTag("p", "description"), CloseTag) && Tight(ClassTag("p", "description"), ImgTag)
  {
    ClassTagTightBoth("div", "hero-content");
    ClassTagTightBoth("div", "hero-text");
    ClassTagTightBoth("div", "trust-badges");
    ClassTagTightBoth("div", "badge");
    ClassTagTightBoth("p", "sub-heading");
    ClassTagTightBoth("p", "description");
  }

  lemma MoreClassTagsTight()
    ensures Tight(ClassTag("div", "hero-cta-group"), CloseTag) && Tight(ClassTag("div", "hero-cta-group"), ImgTag)
    ensures Tight(ClassTag("div", "hero-metrics"), CloseTag) && Tight(ClassTag("div", "hero-metrics"), ImgTag)
    ensures Tight(ClassTag("div", "hero-metric-label"), CloseTag) && Tight(ClassTag("div", "hero-metric-label"), ImgTag)
    ensures Tight(ClassTag("div", "hero-visual"), CloseTag) && Tight(ClassTag("div", "hero-visual"), ImgTag)
    ensures Tight(MetricOpen, CloseTag) && Tight(MetricOpen, ImgTag)
  {
    ClassTagTightBoth("div", "hero-cta-group");
    ClassTagTightBoth("div", "hero-metrics");
    ClassTagTightBoth("div", "hero-metric-label");
    ClassTagTightBoth("div", "hero-visual");
    ClassTagTightBoth("div", "hero-metric-item");
    ClassTagTightBoth("div", "hero-metric-value");
    TightConcat(ClassTag("div", "hero-metric-item"), ClassTag("div", "hero-metric-value"), CloseTag);
    TightConcat(ClassTag("div", "hero-metric-item"), ClassTag("div", "hero-metric-value"), ImgTag);
  }

  lemma PlainTagsTight()
    ensures Tight(Tag("h1"), CloseTag) && Tight(Tag("h1"), ImgTag)
    ensures Tight(Tag("span"), CloseTag) && Tight(Tag("span"), ImgTag)
    ensures Tight(TagStart("a href=\""), CloseTag) && Tight(TagStart("a href=\""), ImgTag)
    ensures Tight(Tag("/div"), CloseTag) && Tight(Tag("/div"), ImgTag)
    ensures Tight(Tag("/p"), CloseTag) && Tight(Tag("/p"), ImgTag)
    ensures Tight(Tag("/h1"), CloseTag) && Tight(Tag("/h1"), ImgTag)
    ensures Tight(Tag("/a"), CloseTag) && Tight(Tag("/a"), ImgTag)
    ensures Tight(Tag("/span"), CloseTag) && Tight(Tag("/span"), ImgTag)
  {
    TagTight("h1", CloseTag, 0);
    TagTight("h1", ImgTag, 0);
    TagTight("span", CloseTag, 0);
    TagTight("span", ImgTag, 0);
    TagStartTight("a href=\"", CloseTag, 0);
    TagStartTight("a href=\"", ImgTag, 0);
    EndTagTightBoth("/div", 1);
    EndTagTightBoth("/p", 1);
    EndTagTightBoth("/h1", 1);
    EndTagTightBoth("/a", 1);
    EndTagTightBoth("/span", 2);
  }

  /** Neither `</section>` nor `<img` can start inside `s`. */
  ghost predicate TightBoth(s: string)
  {
    Tight(s, CloseTag) && Tight(s, ImgTag)
  }

  lemma TightBothConcat(a: string, b: string)
    requires TightBoth(a) && TightBoth(b)
    ensures TightBoth(a + b)
  {
    TightConcat(a, b, CloseTag);
    TightConcat(a, b, ImgTag);
  }

  lemma AngleFreeTightBoth(s: string)
    requires '<' !in s
    ensures TightBoth(s)
  {
    AngleFreeTight(s, CloseTag);
    AngleFreeTight(s, ImgTag);
  }

  lemma OpeningRunTight()
    ensures TightBoth(Run(0))
  {
    ClassTagsTight();
    TagStartTight(SectionOpenBody, CloseTag, 0);
    TagStartTight(SectionOpenBody, ImgTag, 0);
    TightBothConcat(SectionOpen, ClassTag("div", "hero-content"));
    TightBothConcat(SectionOpen + ClassTag("div", "hero-content"), ClassTag("div", "hero-text"));
    TightBothConcat(SectionOpen + ClassTag("div", "hero-content") + ClassTag("div", "hero-text"),
      ClassTag("div", "trust-badges"));
    TightBothConcat(SectionOpen + ClassTag("div", "hero-content") + ClassTag("div", "hero-text")
      + ClassTag("div", "trust-badges"), ClassTag("div", "badge"));
  }

  lemma InnerRunsTight(n: nat)
    requires 1 <= n <= 19 && n != 18
    ensures TightBoth(Run(n))
  {
    ClassTagsTight();
    MoreClassTagsTight();
    PlainTagsTight();
    if n == 1 {
      TightBothConcat(Tag("/div"), ClassTag("div", "badge"));
    } else if n == 2 {
      TightBothConcat(Tag("/div"), Tag("/div"));
      TightBothConcat(Tag("/div") + Tag("/div"), ClassTag("p", "sub-heading"));
    } else if n == 3 {
      TightBothConcat(Tag("/p"), Tag("h1"));
    } else if n == 4 {
      AngleFreeTightBoth(" ");
      TightBothConcat(" ", Tag("span"));
    } else if n == 5 {
      TightBothConcat(Tag("/span"), Tag("/h1"));
      TightBothConcat(Tag("/span") + Tag("/h1"), ClassTag("p", "description"));
    } else if n == 6 {
      TightBothConcat(Tag("/p"), ClassTag("div", "hero-cta-group"));
      TightBothConcat(Tag("/p") + ClassTag("div", "hero-cta-group"), TagStart("a href=\""));
    } else if n == 7 {
      AngleFreeTightBoth(ClassAttrEnd("cta-button cta-primary"));
    } else if n == 8 {
      TightBothConcat(Tag("/a"), TagStart("a href=\""));
    } else if n == 9 {
      AngleFreeTightBoth(ClassAttrEnd("cta-button cta-secondary"));
    } else if n == 10 {
      TightBothConcat(Tag("/a"), Tag("/div"));
      TightBothConcat(Tag("/a") + Tag("/div"), ClassTag("div", "hero-metrics"));
      TightBothConcat(Tag("/a") + Tag("/div") + ClassTag("div", "hero-metrics"), MetricOpen);
    } else if n == 19 {
      AngleFreeTightBoth("\" alt=\"");
    } else if n % 2 == 1 {
      TightBothConcat(Tag("/div"), ClassTag("div", "hero-metric-label"));
    } else {
      TightBothConcat(Tag("/div"), Tag("/div"));
      TightBothConcat(Tag("/div") + Tag("/div"), MetricOpen);
    }
  }

  /** Run 18 ends with the image tag's opening, run 20 with `</section>`. */
  lemma ClosingRunsTight()
    ensures TightBoth(ImgHead) && Tight(ImgTagStart, CloseTag)
    ensures TightBoth(CloseHead) && Tight(CloseTag, ImgTag)
  {
    MoreClassTagsTight();
    PlainTagsTight();
    TightBothConcat(Tag("/div"), Tag("/div"));
    TightBothConcat(Tag("/div") + Tag("/div"), Tag("/div"));
    TightBothConcat(Tag("/div") + Tag("/div") + Tag("/div"), Tag("/div"));
    TightBothConcat(Tag("/div") + Tag("/div") + Tag("/div") + Tag("/div"), ClassTag("div", "hero-visual"));
    TagStartTight("img src=\"", CloseTag, 0);
    AngleFreeTightBoth("\" width=\"600\"");
    AngleFreeTightBoth(" height=\"400\"");
    AngleFreeTightBoth(" fetchpriority=\"high\">");
    TightBothConcat("\" width=\"600\"", " height=\"400\"");
    TightBothConcat("\" width=\"600\"" + " height=\"400\"", " fetchpriority=\"high\">");
    TightBothConcat(ImgAttrsEnd, Tag("/div"));
    TightBothConcat(ImgAttrsEnd + Tag("/div"), Tag("/div"));
    TagTight("/section", ImgTag, 0);
  }

  /** No escaped argument holds a '<'. */
  ghost predicate AngleFreeArgs(args: seq<string>)
  {
    forall i :: 0 <= i < |args| ==> '<' !in args[i]
  }

  lemma AngleSafeArguments(options: map<string, Value>, esc: Escapers)
    requires AngleSafe(esc)
    ensures AngleFreeArgs(Arguments(options, esc))
  {
  }

  lemma {:induction false} PrefixTight(args: seq<string>, n: nat)
    requires |args| == 20 && n <= 17 && AngleFreeArgs(args)
    ensures TightBoth(Prefix(args, n))
  {
    if n == 0 {
      OpeningRunTight();
    } else {
      PrefixTight(args, n - 1);
      AngleFreeTightBoth(args[n - 1]);
      InnerRunsTight(n);
      TightBothConcat(Prefix(args, n - 1), args[n - 1]);
      TightBothConcat(Prefix(args, n - 1) + args[n - 1], Run(n));
    }
  }

  /** The fragment before `<img src="`, and between it and `</section>`. */
  function BeforeImg(args: seq<string>): string
    requires |args| == 20
  {
    Prefix(args, 17) + args[17] + ImgHead
  }

  function AfterImg(args: seq<string>): string
    requires |args| == 20
  {
    args[18] + Run(19) + args[19] + CloseHead
  }

  /** Where the image tag starts in the fragment. */
  function ImgAt(args: seq<string>): nat
    requires |args| == 20
  {
    |BeforeImg(args)|
  }

  lemma Prefix18(args: seq<string>)
    requires |args| == 20
    ensures Prefix(args, 18) == BeforeImg(args) + ImgTagStart
  {
    assert Run(18) == ImgHead + ImgTagStart;
  }

  lemma Regroup<T>(p: seq<T>, a: seq<T>, r: seq<T>, b: seq<T>, c: seq<T>, s: seq<T>)
    ensures p + a + r + b + (c + s) == p + (a + r + b + c) + s
  {
  }

  lemma Prefix20(args: seq<string>)
    requires |args| == 20
    ensures Fragment(args) == Prefix(args, 18) + (args[18] + Run(19) + args[19] + CloseHead) + CloseTag
  {
    assert Run(20) == CloseHead + CloseTag;
    assert Prefix(args, 19) == Prefix(args, 18) + args[18] + Run(19);
    Regroup(Prefix(args, 18), args[18], Run(19), args[19], CloseHead, CloseTag);
  }

  lemma FragmentParts(args: seq<string>)
    requires |args| == 20
    ensures Fragment(args) == BeforeImg(args) + ImgTagStart + (AfterImg(args) + CloseTag)
    ensures Fragment(args) == BeforeImg(args) + ImgTagStart + AfterImg(args) + CloseTag
  {
    Prefix18(args);
    Prefix20(args);
  }

  lemma PartsTight(args: seq<string>)
    requires |args| == 20 && AngleFreeArgs(args)
    ensures TightBoth(BeforeImg(args)) && TightBoth(AfterImg(args))
    ensures Tight(ImgTagStart, CloseTag) && Tight(CloseTag, ImgTag)
  {
    PrefixTight(args, 17);
    ClosingRunsTight();
    AngleFreeTightBoth(args[17]);
    TightBothConcat(Prefix(args, 17), args[17]);
    TightBothConcat(Prefix(args, 17) + args[17], ImgHead);
    AngleFreeTightBoth(args[18]);
    AngleFreeTightBoth(args[19]);
    InnerRunsTight(19);
    TightBothConcat(args[18], Run(19));
    TightBothConcat(args[18] + Run(19), args[19]);
    TightBothConcat(args[18] + Run(19) + args[19], CloseHead);
  }

  lemma FragmentImg(args: seq<string>)
    requires |args| == 20 && AngleFreeArgs(args)
    ensures OccursOnlyAt(Fragment(args), ImgTag, ImgAt(args))
  {
    var x, z := BeforeImg(args), AfterImg(args);
    FragmentParts(args);
    PartsTight(args);
    TightConcat(z, CloseTag, ImgTag);
    assert ImgTagStart == "<" + "img src=\"";
    SoleOpener(x, "img src=\"", z + CloseTag, ImgTag);
  }

  lemma Flatten<T>(x: seq<T>, i: seq<T>, a: seq<T>, r: seq<T>, b: seq<T>, c: seq<T>, s: seq<T>)
    ensures x + i + (a + r + b + c) + s == x + (i + a + r + b + c + s)
  {
  }

  lemma FragmentFromImg(args: seq<string>)
    requires |args| == 20
    ensures Fragment(args)
      == BeforeImg(args) + (ImgTagStart + args[18] + Run(19) + args[19] + CloseHead + CloseTag)
  {
    FragmentParts(args);
    Flatten(BeforeImg(args), ImgTagStart, args[18], Run(19), args[19], CloseHead, CloseTag);
  }

  lemma FragmentClose(args: seq<string>)
    requires |args| == 20 && AngleFreeArgs(args)
    ensures OccursOnlyAt(Fragment(args), CloseTag, |Fragment(args)| - |CloseTag|)
  {
    var x, z := BeforeImg(args), AfterImg(args);
    FragmentParts(args);
    PartsTight(args);
    var y := x + ImgTagStart + z;
    TightConcat(x, ImgTagStart, CloseTag);
    TightConcat(x + ImgTagStart, z, CloseTag);
    assert CloseTag == "<" + "/section>";
    assert Fragment(args) == y + ("<" + "/section>") + "";
    assert Tight("", CloseTag);
    SoleOpener(y, "/section>", "", CloseTag);
  }

  /**
   * The shape the shortcode's splice relies on: the fragment starts with
   * `<section id="hero">`, its only `</section>` is its last ten bytes, and
   * it holds exactly one `<img`, whose `src` and `alt` are arguments 19 and 20.
   */
  lemma FragmentShape(args: seq<string>)
    requires |args| == 20 && AngleFreeArgs(args)
    ensures SectionOpen <= Fragment(args)
    ensures |SectionOpen| <= ImgAt(args) && ImgAt(args) + |ImgTag| + |CloseTag| <= |Fragment(args)|
    ensures OccursOnlyAt(Fragment(args), CloseTag, |Fragment(args)| - |CloseTag|)
    ensures OccursOnlyAt(Fragment(args), ImgTag, ImgAt(args))
    ensures Fragment(args)
      == BeforeImg(args) + (ImgTagStart + args[18] + Run(19) + args[19] + CloseHead + CloseTag)
  {
    FragmentImg(args);
    FragmentClose(args);
    FragmentFromImg(args);
    OpeningPrefix(args);
  }

  lemma OpeningPrefix(args: seq<string>)
    requires |args| == 20
    ensures SectionOpen <= Fragment(args)
    ensures |SectionOpen| <= ImgAt(args)
  {
    PrefixStartsWithOpening(args, 20);
    PrefixStartsWithOpening(args, 17);
    assert SectionOpen <= Run(0);
  }

  lemma {:induction false} PrefixStartsWithOpening(args: seq<string>, n: nat)
    requires |args| == 20 && n <= 20
    ensures Run(0) <= Prefix(args, n)
  {
    if n > 0 {
      PrefixStartsWithOpening(args, n - 1);
    }
  }

  /** The format filled in up to one point begins the format filled in up to any later one. */
  lemma PrefixGrows(args: seq<string>, m: nat, n: nat)
    requires |args| == 20 && m <= n <= 20
    ensures Prefix(args, m) <= Prefix(args, n)
  {
    var prefixes := seq(21, k requires 0 <= k <= 20 => Prefix(args, k));
    forall k | 0 < k < |prefixes|
      ensures prefixes[k - 1] <= prefixes[k]
    {
      PrefixExtendsPrevious(args, k);
    }
    ChainGrows(prefixes, m, n);
  }

  /** In a chain where each text begins the next, each begins every later one. */
  lemma {:induction false} ChainGrows(chain: seq<string>, m: nat, n: nat)
    requires m <= n < |chain|
    requires forall k :: 0 < k < |chain| ==> chain[k - 1] <= chain[k]
    ensures chain[m] <= chain[n]
    decreases n
  {
    if m < n {
      ChainGrows(chain, m, n - 1);
      PrefixTransitive(chain[m], chain[n - 1], chain[n]);
    }
  }

  /** The text before argument `n` begins the text after it. */
  lemma PrefixExtendsPrevious(args: seq<string>, n: nat)
    requires |args| == 20 && 0 < n <= 20
    ensures Prefix(args, n - 1) <= Prefix(args, n)
  {
    PrefixOfExtension(Prefix(args, n - 1), args[n - 1], Run(n), Prefix(args, n));
  }

  lemma PrefixOfExtension<T>(a: seq<T>, x: seq<T>, y: seq<T>, c: seq<T>)
    requires c == a + x + y
    ensures a <= c
  {
  }

  lemma PrefixTransitive<T>(a: seq<T>, b: seq<T>, c: seq<T>)
    requires a <= b && b <= c
    ensures a <= c
  {
  }

  /** The text in front of argument `n` depends on the arguments before it only. */
  lemma {:induction false} PrefixReadsOnlyEarlier(a1: seq<string>, a2: seq<string>, n: nat)
    requires |a1| == |a2| == 20 && n <= 20 && a1[..n] == a2[..n]
    ensures Prefix(a1, n) == Prefix(a2, n)
    decreases n
  {
    if n > 0 {
      assert a1[..n - 1] == a1[..n][..n - 1] == a2[..n][..n - 1] == a2[..n - 1];
      assert a1[n - 1] == a1[..n][n - 1] == a2[..n][n - 1] == a2[n - 1];
      PrefixReadsOnlyEarlier(a1, a2, n - 1);
    }
  }

  /** Argument `n` (counting from 1) follows the fixed text and the
   *  arguments before it. */
  lemma ArgumentInPlace(args: seq<string>, n: nat)
    requires |args| == 20 && 1 <= n <= 20
    ensures Prefix(args, n - 1) + args[n - 1] <= Fragment(args)
  {
    PrefixGrows(args, n, 20);
    PrefixStep(args, n);
    FrontOfPrefix(Prefix(args, n), Prefix(args, n - 1), args[n - 1], Run(n), Fragment(args));
  }

  /** The format filled in up to a later point is no shorter. */
  lemma {:induction false} PrefixLengthGrows(args: seq<string>, m: nat, n: nat)
    requires |args| == 20 && m <= n <= 20
    ensures |Prefix(args, m)| <= |Prefix(args, n)|
    decreases n
  {
    if m < n {
      PrefixLengthGrows(args, m, n - 1);
      PrefixStep(args, n);
    }
  }

  /** The arguments appear in format order: argument `m` ends no later than
   *  any later argument `n` starts. */
  lemma ArgumentsInOrder(args: seq<string>, m: nat, n: nat)
    requires |args| == 20 && 1 <= m < n <= 20
    ensures |Prefix(args, m - 1)| + |args[m - 1]| <= |Prefix(args, n - 1)|
  {
    PrefixLengthGrows(args, m, n - 1);
    PrefixStep(args, m);
  }

  lemma PrefixStep(args: seq<string>, n: nat)
    requires |args| == 20 && 1 <= n <= 20
    ensures Prefix(args, n) == Prefix(args, n - 1) + args[n - 1] + Run(n)
  {
  }

  /** The front of a prefix is a prefix, and no longer than the whole. */
  lemma FrontOfPrefix<T>(x: seq<T>, p: seq<T>, a: seq<T>, r: seq<T>, q: seq<T>)
    requires x == p + a + r && x <= q
    ensures p + a <= q && |p| + |a| <= |q|
  {
    assert p + a == x[..|p| + |a|];
  }
}
