/**
 * The shortcode (`render_shortcode`): the template's body, with its hero
 * section replaced by the generated one, wrapped with the stylesheet, the
 * operator's script and a container element.
 */
module Render {
  import opened Wrappers
  import opened Php
  import opened Text
  import opened Hero
  import opened Styles
  import opened Options

  const BodyOpen := "<body"
  const BodyClose := "</body>"
  const Gt := ">"

  /** `<body[^>]*>(.*?)</body>` (flags i and s) matches with `<body` at `p`,
   *  the tag's `>` at `g` and `</body>` at `c`. */
  ghost predicate BodyMatchAt(t: string, p: int, g: int, c: int)
  {
    && CiAt(t, p, BodyOpen)
    && p + |BodyOpen| <= g && CiAt(t, g, Gt)
    && (forall j :: p + |BodyOpen| <= j < g ==> !CiAt(t, j, Gt))
    && g + 1 <= c && CiAt(t, c, BodyClose)
  }

  /** The match PCRE reports: the leftmost start, and from there the nearest
   *  `</body>` (the capture is lazy). */
  ghost predicate LeftmostBodyMatch(t: string, p: int, g: int, c: int)
  {
    && BodyMatchAt(t, p, g, c)
    && (forall p', g', c' :: p' < p ==> !BodyMatchAt(t, p', g', c'))
    && (forall c' :: g + 1 <= c' < c ==> !CiAt(t, c', BodyClose))
  }

  ghost predicate NoBodyMatch(t: string)
  {
    forall p, g, c :: !BodyMatchAt(t, p, g, c)
  }

  lemma NoBodyWithoutGt(t: string, p: int)
    requires CiAt(t, p, BodyOpen) && forall q :: 0 <= q < p ==> !CiAt(t, q, BodyOpen)
    requires forall j :: p + |BodyOpen| <= j ==> !CiAt(t, j, Gt)
    ensures NoBodyMatch(t)
  {
  }

  /** When the first `<body` tag is not followed by a `</body>`, no later one
   *  is: a later tag's `>` comes no earlier than the first tag's. */
  lemma NoBodyWithoutClose(t: string, p: int, g: int)
    requires CiAt(t, p, BodyOpen) && forall q :: 0 <= q < p ==> !CiAt(t, q, BodyOpen)
    requires FirstFrom(t, Gt, p + |BodyOpen|, g)
    requires forall j :: g + 1 <= j ==> !CiAt(t, j, BodyClose)
    ensures NoBodyMatch(t)
  {
  }

  lemma BodyFound(t: string, p: int, g: int, c: int)
    requires CiAt(t, p, BodyOpen) && forall q :: 0 <= q < p ==> !CiAt(t, q, BodyOpen)
    requires FirstFrom(t, Gt, p + |BodyOpen|, g)
    requires FirstFrom(t, BodyClose, g + 1, c)
    ensures LeftmostBodyMatch(t, p, g, c)
  {
  }

  /** The template's body: what the body pattern captures, or the whole
   *  template when it does not match. */
  function ExtractBody(t: string): (body: string)
    ensures || (exists p, g, c :: LeftmostBodyMatch(t, p, g, c) && 0 <= g + 1 <= c <= |t| && body == t[g + 1..c])
            || (NoBodyMatch(t) && body == t)
  {
    match FindCi(t, BodyOpen, 0)
    case None => t
    case Some(p) =>
      match FindCi(t, Gt, p + |BodyOpen|)
      case None => NoBodyWithoutGt(t, p); t
      case Some(g) =>
        match FindCi(t, BodyClose, g + 1)
        case None => NoBodyWithoutClose(t, p, g); t
        case Some(c) => BodyFound(t, p, g, c); t[g + 1..c]
  }

  /** `preg_replace('/<section id="hero">.*?<\/section>/is', $hero, $body, 1)`,
   *  with the replacement taken literally: the first hero span, if any, is
   *  replaced and the text around it is kept. */
  function SpliceHero(body: string, hero: string): (r: string)
    ensures || (exists p, c :: FirstSpan(body, SectionOpen, CloseTag, p, c)
                             && c + |CloseTag| <= |body|
                             && r == body[..p] + hero + body[c + |CloseTag|..])
            || (NoSpan(body, SectionOpen, CloseTag) && r == body)
  {
    match FindSpan(body, SectionOpen, CloseTag)
    case None => body
    case Some((p, c)) => body[..p] + hero + body[c + |CloseTag|..]
  }

  /** The body the shortcode expands: the template's body with the hero
   *  replaced by the fragment built from the options. */
  function PageBody(o: map<string, Value>, esc: Escapers): string
  {
    SpliceHero(ExtractBody(Field(o, TemplateKey)), SectionHtml(o, esc))
  }

  /** The plugin's container, opened at line 196 and closed at line 204. */
  const WrapperOpen := ClassTag("div", "voip-office-homepage-plugin")
  const WrapperClose := Tag("/div")
  const ScriptOpen := "<script>"
  const ScriptClose := "</script>"

  /** The operator's script block, present exactly when the option is
   *  non-empty in PHP's sense. */
  function ScriptPart(js: Value): (part: string)
    ensures part != "" <==> !Empty(js)
  {
    if !Empty(js) then ScriptOpen + ToStr(js) + ScriptClose else ""
  }

  /** The shortcode's output for the merged options; `expand` is
   *  `do_shortcode`. It opens the plugin's container and the style block
   *  holding the stylesheet, and it ends by closing the container. */
  function RenderWith(o: map<string, Value>, esc: Escapers, expand: string -> string): (out: string)
    ensures WrapperOpen + StyleOpen + DynamicCss(o) + StyleClose <= out
    ensures EndsWith(out, WrapperClose)
  {
    var body, script := expand(PageBody(o, esc)), ScriptPart(Get(o, CustomJsKey));
    Framed(Head(o), body, script, WrapperClose);
    Head(o) + body + script + WrapperClose
  }

  /** The container's opening tag and the stylesheet block. */
  function Head(o: map<string, Value>): string
  {
    WrapperOpen + StyleOpen + DynamicCss(o) + StyleClose
  }

  /** `render_shortcode()`: the stored options over the defaults, given the
   *  bundled template's contents. Whatever is stored, the output is wrapped
   *  in the plugin's container. */
  function RenderShortcode(stored: map<string, Value>, templateHtml: string,
                           esc: Escapers, expand: string -> string): (out: string)
    ensures WrapperOpen <= out
    ensures EndsWith(out, WrapperClose)
  {
    var o := Merge(stored, Defaults(templateHtml));
    Framed(WrapperOpen, StyleOpen, DynamicCss(o), StyleClose);
    PrefixTransitive(WrapperOpen, Head(o), RenderWith(o, esc, expand));
    RenderWith(o, esc, expand)
  }

  /** A replacement shaped like the generated hero: it starts with the hero
   *  opening tag and its only `</section>` is its last one. */
  ghost predicate HeroShaped(h: string)
  {
    && SectionOpen <= h
    && |SectionOpen| + |CloseTag| <= |h|
    && OccursOnlyAt(h, CloseTag, |h| - |CloseTag|)
  }

  /** The generated hero has that shape when the escapers never emit `<`. */
  lemma SectionHtmlShaped(o: map<string, Value>, esc: Escapers)
    requires AngleSafe(esc)
    ensures HeroShaped(SectionHtml(o, esc))
  {
    AngleSafeArguments(o, esc);
    FragmentShape(Arguments(o, esc));
  }

  lemma CiAtInPrefix(a: string, b: string, q: int, pat: string)
    requires CiAt(a, q, pat)
    ensures CiAt(a + b, q, pat)
  {
    assert (a + b)[q..] == a[q..] + b;
    CiPrefixOfConcat(pat, a[q..], b);
  }

  lemma ExactPrefixCi(a: string, b: string)
    requires a <= b
    ensures CiPrefix(a, b)
  {
  }

  /** After a splice with a hero-shaped replacement, the first hero span is
   *  the replacement itself. */
  lemma {:induction false} SplicedHeroIsFirstSpan(body: string, h: string, p: int, c: int)
    requires HeroShaped(h)
    requires FirstSpan(body, SectionOpen, CloseTag, p, c) && c + |CloseTag| <= |body|
    ensures FirstSpan(body[..p] + h + body[c + |CloseTag|..], SectionOpen, CloseTag, p, p + |h| - |CloseTag|)
  {
    var pre, post := body[..p], body[c + |CloseTag|..];
    assert body == pre + body[p..];
    forall q | 0 <= q < |pre|
      ensures !CiAt(pre, q, SectionOpen)
    {
      if CiAt(pre, q, SectionOpen) {
        CiAtInPrefix(pre, body[p..], q, SectionOpen);
      }
    }
    ExactPrefixCi(SectionOpen, h);
    assert SectionOpen == "<" + SectionOpenBody;
    SplicedSpan(pre, h, post, SectionOpen, CloseTag);
  }

  /** Splicing a hero-shaped replacement into a body whose first span it
   *  already is changes nothing. */
  lemma {:induction false} ResplicedUnchanged(body: string, h: string, p: int, c: int)
    requires HeroShaped(h)
    requires FirstSpan(body, SectionOpen, CloseTag, p, c) && c + |CloseTag| <= |body|
    ensures var r := body[..p] + h + body[c + |CloseTag|..]; SpliceHero(r, h) == r
  {
    var pre, post := body[..p], body[c + |CloseTag|..];
    var r := pre + h + post;
    var c2 := p + |h| - |CloseTag|;
    SplicedHeroIsFirstSpan(body, h, p, c);
    match FindSpan(r, SectionOpen, CloseTag)
    case None =>
      assert false;
    case Some((p', c')) =>
      FirstSpanUnique(r, SectionOpen, CloseTag, p, c2, p', c');
      assert r[..p] == pre;
      assert r[c2 + |CloseTag|..] == post;
  }

  /**
   * Splicing the generated hero in again changes nothing: the first hero span
   * of the result is the fragment that was put there, and it is replaced by
   * itself. With no span the body is left alone both times.
   */
  lemma {:induction false} SpliceIdempotent(body: string, h: string)
    requires HeroShaped(h)
    ensures SpliceHero(SpliceHero(body, h), h) == SpliceHero(body, h)
  {
    match FindSpan(body, SectionOpen, CloseTag)
    case None =>
    case Some((p, c)) =>
      ResplicedUnchanged(body, h, p, c);
  }

  /** The page body's hero is stable: splicing the generated hero into the
   *  page body once more leaves it as it is. */
  lemma PageBodySpliceStable(o: map<string, Value>, esc: Escapers)
    requires AngleSafe(esc)
    ensures SpliceHero(PageBody(o, esc), SectionHtml(o, esc)) == PageBody(o, esc)
  {
    SectionHtmlShaped(o, esc);
    SpliceIdempotent(ExtractBody(Field(o, TemplateKey)), SectionHtml(o, esc));
  }

  /** Both "" and "0" omit the script block, and nothing else does. */
  lemma ScriptOmittedForBlankOrZero(js: Value)
    ensures ScriptPart(js) == "" <==> (ToStr(js) == "" || ToStr(js) == "0")
  {
  }

  /** Shortcode expansion sees only the page body: expanders that agree on it
   *  give the same output. */
  lemma OnlyBodyExpanded(o: map<string, Value>, esc: Escapers, e1: string -> string, e2: string -> string)
    requires e1(PageBody(o, esc)) == e2(PageBody(o, esc))
    ensures RenderWith(o, esc, e1) == RenderWith(o, esc, e2)
  {
  }

  /** Without a script the output is the container's opening tag, the
   *  stylesheet block, the expanded body and the container's end tag. */
  lemma OutputWithoutScript(o: map<string, Value>, esc: Escapers, expand: string -> string)
    requires Empty(Get(o, CustomJsKey))
    ensures RenderWith(o, esc, expand) == Head(o) + expand(PageBody(o, esc)) + WrapperClose
  {
    Layout(Head(o), expand(PageBody(o, esc)), ScriptPart(Get(o, CustomJsKey)), WrapperClose);
  }

  /** With one, the operator's script follows the expanded body, verbatim,
   *  just before the container's end tag. */
  lemma OutputWithScript(o: map<string, Value>, esc: Escapers, expand: string -> string)
    requires !Empty(Get(o, CustomJsKey))
    ensures RenderWith(o, esc, expand)
         == Head(o) + expand(PageBody(o, esc)) + (ScriptOpen + Field(o, CustomJsKey) + ScriptClose + WrapperClose)
  {
    Layout(Head(o), expand(PageBody(o, esc)), ScriptPart(Get(o, CustomJsKey)), WrapperClose);
  }

  lemma Layout<T>(h: seq<T>, b: seq<T>, s: seq<T>, w: seq<T>)
    ensures h + b + s + w == h + b + (s + w)
    ensures s == [] ==> h + b + s + w == h + b + w
  {
  }

  /** A stored template replaces the bundled one: the bundled file's contents
   *  then make no difference to the output. */
  lemma StoredTemplateWins(stored: map<string, Value>, t1: string, t2: string,
                           esc: Escapers, expand: string -> string)
    requires TemplateKey in stored
    ensures RenderShortcode(stored, t1, esc, expand) == RenderShortcode(stored, t2, esc, expand)
  {
    DefaultsVaryOnlyInTemplate(t1, t2);
    MergeHidesDefault(stored, Defaults(t1), TemplateKey, Str(t2));
  }
}
