# VOIP Office homepage plugin — a Dafny model

The plugin is a WordPress plugin. It stores one option array and renders a
homepage through a shortcode. This project models the part of its single
class that transforms text and option maps:

- **`render_shortcode`** (module `Render`). It starts from the stored options
  merged over the defaults. It takes the inner text of the template's first
  `<body…>…</body>`, or the whole template when there is none. It replaces the
  first `<section id="hero">…</section>` span with the generated hero. It then
  wraps the result in a container `<div>`, in this order:
  - a `<style>` block with the generated stylesheet;
  - the body after shortcode expansion;
  - the operator's script, when there is one.
- **`get_hero_section_html`** (module `Hero`). This is one `sprintf` format
  with twenty positional arguments, each an escaped option value.
- **`get_dynamic_css`** (module `Styles`). The stylesheet is made of, in order:
  - the template's first `<style>` block;
  - a newline;
  - the colour variables;
  - the desktop, 992px and 768px hero rules;
  - the optional stack rule;
  - the operator's CSS.
- **`sanitize_options`** and **`get_default_options`** (module `Options`). The
  sanitiser runs on every save of the settings form. It merges the submission
  over the defaults, filters the text fields and coerces the stack breakpoint
  to a positive integer. It sets the force-stacked flag to 0/1 from the raw
  submission. It passes the template, CSS and script through verbatim for a
  user with the `unfiltered_html` capability, and filters them otherwise.

Supporting modules:

- `Php` models the PHP value semantics the code relies on: `empty()`, the
  `(string)` cast, `intval`/`absint`, and reading a missing array key as null.
- `Text` holds ASCII case-insensitive search. It also defines the declarative
  "first match" of a lazy `open.*?close` pattern and proves facts about it.
  The patterns carry the `i` flag and no `u` flag, so only ASCII letters fold.
- `Wrappers` holds `Option`.

Strings are PHP byte strings, one `char` per byte. The WordPress helpers
become function-valued parameters:
- `Escapers` stands for `esc_html`, `esc_url` and `esc_attr`;
- `Filters` stands for `sanitize_text_field`, `wp_kses_post` and
  `sanitize_textarea_field`;
- `expand` stands for `do_shortcode`;
- a boolean stands for `current_user_can('unfiltered_html')`.

The stored option array (`get_option`) is a parameter. So is the bundled
template's contents (`file_get_contents`), with the empty string when the
file is missing.

## Model

| member | source | states |
|---|---|---|
| `Render.ExtractBody` | voip-office-homepage-plugin/voip-office-homepage-plugin.php:187-190 | The body is exactly the text the body pattern captures at its leftmost match: after the first `<body` whose tag closes with `>`, up to the first `</body>` after that `>`, matched case-insensitively. When no such match exists, the body is the whole template. |
| `Render.SpliceHero` | voip-office-homepage-plugin/voip-office-homepage-plugin.php:192 | At most one span is replaced. It runs from the first `<section id="hero">` (case-insensitive) to the nearest `</section>` after it. Everything before and after the span is kept byte for byte. Without an opener, or without a closer after it, the body is unchanged. |
| `Render.SpliceIdempotent` | voip-office-homepage-plugin/voip-office-homepage-plugin.php:192 | Take a replacement that starts with the hero tag and whose only `</section>` is at its end. Splicing it in a second time changes nothing: the first hero span of the result is the replacement itself. |
| `Render.PageBodySpliceStable` | voip-office-homepage-plugin/voip-office-homepage-plugin.php:187-192 | When the escapers never emit `<`, splicing the generated hero into the page body again leaves the page body as it is. |
| `Render.SectionHtmlShaped` | voip-office-homepage-plugin/voip-office-homepage-plugin.php:246-270 | When the escapers never emit `<`, the generated hero starts with `<section id="hero">` and its only `</section>` is its last one. |
| `Render.ScriptPart` | voip-office-homepage-plugin/voip-office-homepage-plugin.php:200-202 | The script block is present exactly when the `custom_js` option is non-empty in PHP's sense. |
| `Render.ScriptOmittedForBlankOrZero` | voip-office-homepage-plugin/voip-office-homepage-plugin.php:200-202 | The script block is omitted exactly when the option's text is `""` or `"0"`. |
| `Render.OutputWithoutScript` | voip-office-homepage-plugin/voip-office-homepage-plugin.php:196-206 | Without a script, the output is the container's opening tag, then `<style>` + stylesheet + `</style>`, then the expanded body, then `</div>`. |
| `Render.OutputWithScript` | voip-office-homepage-plugin/voip-office-homepage-plugin.php:196-206 | With a script, the operator's text follows the expanded body verbatim inside `<script>…</script>`, just before `</div>`. |
| `Render.OnlyBodyExpanded` | voip-office-homepage-plugin/voip-office-homepage-plugin.php:198 | Shortcode expansion sees only the page body. Two expanders that agree on it give the same output. |
| `Render.RenderWith` | voip-office-homepage-plugin/voip-office-homepage-plugin.php:196-206 | The output opens the plugin's `div` container, then `<style>` with the stylesheet and `</style>`. It ends by closing the container. |
| `Render.RenderShortcode` | voip-office-homepage-plugin/voip-office-homepage-plugin.php:183-207 | Whatever is stored, the output is wrapped in the plugin's container: it starts with the opening `div` and ends with `</div>`. |
| `Render.StoredTemplateWins` | voip-office-homepage-plugin/voip-office-homepage-plugin.php:184-185 | When a template is stored, the bundled template file's contents make no difference to the output. |
| `Hero.FragmentShape` | voip-office-homepage-plugin/voip-office-homepage-plugin.php:246-270 | With arguments free of `<`, the fragment's shape is fixed. It starts with `<section id="hero">`. Its only `</section>` is its last ten bytes. It holds exactly one `<img`, which comes after the opening tag and is followed by the image url and alt arguments. |
| `Hero.ArgumentInPlace` | voip-office-homepage-plugin/voip-office-homepage-plugin.php:248-268 | Argument n of the format directly follows the fixed text and the arguments before it. |
| `Hero.ArgumentsInOrder` | voip-office-homepage-plugin/voip-office-homepage-plugin.php:248-268 | The arguments appear in format order. Each argument ends no later than any later argument starts. |
| `Hero.PrefixReadsOnlyEarlier` | voip-office-homepage-plugin/voip-office-homepage-plugin.php:248-268 | The text in front of an argument depends on the earlier arguments only. |
| `Hero.Arguments` | voip-office-homepage-plugin/voip-office-homepage-plugin.php:249-268 | There are exactly twenty escaped arguments, one per slot of the format. Which escaper each slot uses is stated by `Hero.SlotContext` and `Hero.SlotKeys`. |
| `Hero.SlotContext` | voip-office-homepage-plugin/voip-office-homepage-plugin.php:248-268 | Each argument's escaper suits where the format puts it. `esc_url` is used exactly for the arguments right after `href="` or `src="`. `esc_attr` is used exactly for the one right after `alt="`. `esc_html` is used for the rest, each right after a tag's `>`. |
| `Hero.SlotKeys` | voip-office-homepage-plugin/voip-office-homepage-plugin.php:249-268 | `esc_url` is applied exactly to the `_url` options, and `esc_attr` exactly to the `_alt` option. |
| `Hero.SectionHtml` | voip-office-homepage-plugin/voip-office-homepage-plugin.php:246-270 | Whatever the options hold, the hero fragment starts with `<section id="hero">` and ends with `</section>`. |
| `Styles.TemplateStyle` | voip-office-homepage-plugin/voip-office-homepage-plugin.php:210-213 | The base CSS is the inner text of the template's first `<style>…</style>` span (case-insensitive), or `""` when there is none. It never contains `</style>`. |
| `Styles.DynamicCss` | voip-office-homepage-plugin/voip-office-homepage-plugin.php:209-244 | The stylesheet starts with the template's base CSS and a newline, and ends with the operator's CSS and the closing indentation. |
| `Styles.FixedRulesNamed` | voip-office-homepage-plugin/voip-office-homepage-plugin.php:222-238 | The four colour options fill the `:root` block. The desktop padding and heading size fill the unconditional rules. The tablet ones go under `max-width: 992px` and the mobile ones under `max-width: 768px`. |
| `Styles.StackRuleOf` | voip-office-homepage-plugin/voip-office-homepage-plugin.php:215-220 | The stack rule is present exactly when the force-stacked option is truthy. |
| `Styles.StackRuleNamesBreakpoint` | voip-office-homepage-plugin/voip-office-homepage-plugin.php:215-220 | When the rule is present, it names the breakpoint: different breakpoints give different rules. |
| `Styles.BreakpointIgnoredUnlessStacked` | voip-office-homepage-plugin/voip-office-homepage-plugin.php:215-220 | With the force-stacked option falsy, the breakpoint does not affect the stylesheet. |
| `Styles.CssReadsOnlyItsKeys` | voip-office-homepage-plugin/voip-office-homepage-plugin.php:209-244 | The stylesheet depends only on these options: the ten colour and size options, the template, the force-stacked flag, the breakpoint and the operator's CSS. |
| `Styles.CustomCssAtEnd` | voip-office-homepage-plugin/voip-office-homepage-plugin.php:222-243 | The operator's CSS comes last, followed only by the closing indentation. |
| `Styles.CustomCssLast` | voip-office-homepage-plugin/voip-office-homepage-plugin.php:222-243 | Everything in front of the operator's CSS is independent of it. |
| `Styles.TemplateStyleFirst` | voip-office-homepage-plugin/voip-office-homepage-plugin.php:222-243 | The template affects only the leading base CSS. Maps that differ only in the template have the same override block. |
| `Options.Merge` | voip-office-homepage-plugin/voip-office-homepage-plugin.php:51 | A submitted key overrides its default key by key. A key missing from the submission reads as its default. The result holds exactly the union of the keys. |
| `Options.FilterTextFields` | voip-office-homepage-plugin/voip-office-homepage-plugin.php:53-66 | Each of the thirty text fields holds the text filter's output for its value, and every other key is unchanged. |
| `Options.SanitizedTextFields` | voip-office-homepage-plugin/voip-office-homepage-plugin.php:53-66 | After sanitising, every text field holds the filtered submitted-or-default value. |
| `Options.CoerceBreakpoint` | voip-office-homepage-plugin/voip-office-homepage-plugin.php:68-69 | The breakpoint is always positive. It is the magnitude of `intval` of the value when that is non-zero, and 992 otherwise. |
| `Options.SanitizedBreakpoint` | voip-office-homepage-plugin/voip-office-homepage-plugin.php:68-69 | The stored breakpoint is the submitted-or-default value, coerced. |
| `Options.BreakpointExamples` | voip-office-homepage-plugin/voip-office-homepage-plugin.php:68-69 | -500 is stored as 500. `"abc"` and 0 are stored as 992. |
| `Options.BreakpointStable` | voip-office-homepage-plugin/voip-office-homepage-plugin.php:68-69 | A stored positive breakpoint survives another save, whether it is posted back as the integer or as its decimal text. |
| `Options.FlagOf` | voip-office-homepage-plugin/voip-office-homepage-plugin.php:71 | The force-stacked flag is always 0 or 1. |
| `Options.SanitizedFlag` | voip-office-homepage-plugin/voip-office-homepage-plugin.php:71 | The stored flag is 1 exactly when the raw submission holds a non-empty value for it, and 0 otherwise. The defaults are not consulted. |
| `Options.OmittedCheckboxStoresZero` | voip-office-homepage-plugin/voip-office-homepage-plugin.php:71 | A submission without the checkbox stores 0, although the default is 1. |
| `Options.DefaultFlag` | voip-office-homepage-plugin/voip-office-homepage-plugin.php:308 | The default force-stacked flag is 1. |
| `Options.DefaultKeys` | voip-office-homepage-plugin/voip-office-homepage-plugin.php:276-312 | The defaults hold exactly the thirty text fields plus the breakpoint, flag, template, CSS and script keys. |
| `Options.DefaultBreakpoint` | voip-office-homepage-plugin/voip-office-homepage-plugin.php:307 | The default breakpoint is 992, the same value the sanitiser falls back to. |
| `Options.DefaultTemplate` | voip-office-homepage-plugin/voip-office-homepage-plugin.php:309 | The default template is the bundled file's contents. |
| `Options.FilterBlobs` | voip-office-homepage-plugin/voip-office-homepage-plugin.php:73-81 | Treating the three blobs adds exactly the template, CSS and script keys, and leaves every other key unchanged. |
| `Options.SanitizedBlobs` | voip-office-homepage-plugin/voip-office-homepage-plugin.php:73-81 | With the capability, the template, CSS and script are the merged values cast to text. Without it, the template goes through the post-content filter and the other two through the textarea filter. |
| `Options.CapabilityPassThrough` | voip-office-homepage-plugin/voip-office-homepage-plugin.php:73-76 | With the capability, a submitted string blob is stored verbatim. A missing one is stored as its default. |
| `Options.SanitizedOthersUnchanged` | voip-office-homepage-plugin/voip-office-homepage-plugin.php:49-84 | Every key outside the sanitised lists keeps its submitted value, or its default when nothing was submitted. This includes extra submitted keys. |
| `Options.SanitizedKeys` | voip-office-homepage-plugin/voip-office-homepage-plugin.php:49-84 | The stored array holds every submitted key, every default key, the text fields and the special keys, and nothing else. |
| `Options.StoredTypes` | voip-office-homepage-plugin/voip-office-homepage-plugin.php:49-84 | Whatever is submitted, the stored breakpoint is a positive integer and the flag is 0 or 1. The thirty text fields and the three blobs are strings. |
| `Options.SanitizeFillsGaps` | voip-office-homepage-plugin/voip-office-homepage-plugin.php:49-84 | Against the bundled defaults, a submission without a breakpoint stores 992, and one without the checkbox stores 0. A user who may post unfiltered HTML and submits no template stores the bundled template. |
| `Options.SanitizeIdempotent` | voip-office-homepage-plugin/voip-office-homepage-plugin.php:49-84 | Suppose the filters leave their own output alone. Then saving the stored options once more changes nothing. |
| `Options.DefaultsVaryOnlyInTemplate` | voip-office-homepage-plugin/voip-office-homepage-plugin.php:272-313 | The bundled template file affects only the default `template_html`. |
| `Options.MergeHidesDefault` | voip-office-homepage-plugin/voip-office-homepage-plugin.php:184 | Once a key is submitted, its default no longer matters. |
| `Php.IntTextRoundTrip` | voip-office-homepage-plugin/voip-office-homepage-plugin.php:68 | `intval` of an integer's decimal text is the integer. |
| `Php.Empty` | voip-office-homepage-plugin/voip-office-homepage-plugin.php:200 | A scalar is empty in PHP's sense exactly when its text is `""` or `"0"`. |
| `Php.IntVal` | voip-office-homepage-plugin/voip-office-homepage-plugin.php:68 | Every value that is empty in PHP's sense reads as the integer 0. |
| `Php.AbsInt` | voip-office-homepage-plugin/voip-office-homepage-plugin.php:68 | `absint` gives the magnitude of `intval`. |

## Left out

- `Render.SpliceHero`: the hero splice takes its replacement literally. `preg_replace` would read `$0`, `\1` or `${1}` inside the escaped hero text as back-references. Escaped option text can contain such sequences, and then PHP's output differs from this model.
- PCRE's backtracking and recursion limits are not modelled. On huge templates `preg_match` can fail and leave the template whole, or `preg_replace` can return null.
- Stored or submitted input that is not an array is not modelled: the `(array)` cast at line 51, and `get_option` returning `false` or a query string at line 184. Only scalar values (null, booleans, integers, strings) are modelled; floats and nested arrays are not.
- `Options.Merge`: keys are strings. PHP stores a decimal-integer key such as `"7"` as an integer key, and `array_merge` renumbers integer keys instead of overriding them. `Options.Merge`, `Options.SanitizedKeys` and `Options.SanitizedOthersUnchanged` quantify over all keys, so their statements do not hold for such keys.
- `Php.IntVal` models decimal integer strings with leading whitespace and a sign. Hexadecimal, exponent and overflow forms are not modelled. PHP's integer range, with saturation on overflow, is not modelled either.
- The WordPress helpers (`esc_*`, `sanitize_text_field`, `wp_kses_post`, `sanitize_textarea_field`, `do_shortcode`, `current_user_can`) are parameters. Their own behaviour is not modelled. The hero shape lemmas assume only that the escapers never emit `<`. WordPress core's escapers guarantee this when no filter is hooked on them.
- Hook, menu and settings registration, activation (lines 16-47, 22-27, 316-317) and the admin form (lines 86-181) are left out. They are host plumbing and UI output.
- Option storage (`get_option`, `add_option`) and the template file read (lines 273-274) are I/O. The stored map and the file's contents are parameters.
- The settings form's 320-1920 bounds on the breakpoint are not enforced by the sanitiser. So the model enforces them nowhere either.
- `Options.SanitizedBlobs`: with the capability, a blob's `(string)` cast is modelled for scalar values only. Arrays would become the text `Array` with a warning in PHP.

