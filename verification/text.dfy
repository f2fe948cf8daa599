/**
 * Case-insensitive search over byte strings, as PCRE does it for the plugin's
 * patterns: the `i` flag without `u` folds ASCII letters only, and the `s`
 * flag lets `.` match every byte, so a lazy `open.*?close` match is fully
 * described by where the delimiters occur.
 */
module Text {
  import opened Wrappers

  /** ASCII lower-casing; every other byte is left alone. */
  function LowerChar(c: char): char
  {
    if 'A' <= c <= 'Z' then (c as int + 32) as char else c
  }

  /** `a` is a prefix of `b`, ignoring ASCII case. */
  predicate CiPrefix(a: string, b: string)
  {
    |a| <= |b| && forall i :: 0 <= i < |a| ==> LowerChar(a[i]) == LowerChar(b[i])
  }

  /** `pat` occurs at position `k` of `s`, ignoring ASCII case. */
  predicate CiAt(s: string, k: int, pat: string)
  {
    0 <= k <= |s| && CiPrefix(pat, s[k..])
  }

  /** The first position at or after `from` where `pat` occurs. */
  function FindCi(s: string, pat: string, from: nat): (r: Option<nat>)
    ensures r.Some? ==> from <= r.value && CiAt(s, r.value, pat)
    ensures r.Some? ==> forall j :: from <= j < r.value ==> !CiAt(s, j, pat)
    ensures r.None? ==> forall j :: from <= j ==> !CiAt(s, j, pat)
    decreases |s| - from
  {
    if from + |pat| > |s| then None
    else if CiAt(s, from, pat) then Some(from)
    else FindCi(s, pat, from + 1)
  }

  /** `c` is the first occurrence of `close` at or after `from`. */
  ghost predicate FirstFrom(s: string, close: string, from: int, c: int)
  {
    from <= c && CiAt(s, c, close) && forall j :: from <= j < c ==> !CiAt(s, j, close)
  }

  /** The span a lazy `open.*?close` match (flags i and s) takes: `open` at `p`
   *  with no earlier occurrence, and the nearest `close` after it at `c`. */
  ghost predicate FirstSpan(s: string, open: string, close: string, p: int, c: int)
  {
    && CiAt(s, p, open)
    && (forall q :: 0 <= q < p ==> !CiAt(s, q, open))
    && FirstFrom(s, close, p + |open|, c)
  }

  /** `open.*?close` matches nowhere: no `close` follows any `open`. */
  ghost predicate NoSpan(s: string, open: string, close: string)
  {
    forall p, c :: !(CiAt(s, p, open) && p + |open| <= c && CiAt(s, c, close))
  }

  /** Finds the span of `open.*?close`: the positions of the delimiters. */
  function FindSpan(s: string, open: string, close: string): (r: Option<(nat, nat)>)
    ensures r.Some? ==> FirstSpan(s, open, close, r.value.0, r.value.1)
    ensures r.None? ==> NoSpan(s, open, close)
  {
    match FindCi(s, open, 0)
    case None => None
    case Some(p) =>
      match FindCi(s, close, p + |open|)
      case None => None
      case Some(c) => Some((p, c))
  }

  /** A first span is unique. */
  lemma FirstSpanUnique(s: string, open: string, close: string, p: int, c: int, p': int, c': int)
    requires FirstSpan(s, open, close, p, c) && FirstSpan(s, open, close, p', c')
    ensures p == p' && c == c'
  {
  }

  /** No occurrence of `pat` starts inside `s`, not even one that would run
   *  on past the end of `s`: gluing such strings never creates `pat`. */
  ghost predicate Tight(s: string, pat: string)
  {
    forall k :: 0 <= k < |s| ==> !CiPrefix(pat, s[k..]) && !CiPrefix(s[k..], pat)
  }

  /** `pat` occurs in `s` at position `k` and nowhere else. */
  ghost predicate OccursOnlyAt(s: string, pat: string, k: int)
  {
    CiAt(s, k, pat) && forall j :: CiAt(s, j, pat) ==> j == k
  }

  lemma LowerAngle(c: char)
    ensures LowerChar(c) == '<' <==> c == '<'
  {
  }

  /** How a case-insensitive prefix test splits over a concatenation. */
  lemma CiPrefixOfConcat(pat: string, a: string, b: string)
    ensures CiPrefix(pat, a + b) ==> CiPrefix(pat, a) || CiPrefix(a, pat)
    ensures CiPrefix(pat, a) ==> CiPrefix(pat, a + b)
    ensures CiPrefix(a + b, pat) ==> CiPrefix(a, pat)
  {
    if CiPrefix(pat, a + b) && |pat| > |a| {
      forall i | 0 <= i < |a|
        ensures LowerChar(a[i]) == LowerChar(pat[i])
      {
        assert (a + b)[i] == a[i];
      }
    }
    if CiPrefix(pat, a + b) && |pat| <= |a| {
      forall i | 0 <= i < |pat|
        ensures LowerChar(pat[i]) == LowerChar(a[i])
      {
        assert (a + b)[i] == a[i];
      }
    }
    if CiPrefix(pat, a) {
      forall i | 0 <= i < |pat|
        ensures LowerChar(pat[i]) == LowerChar((a + b)[i])
      {
        assert (a + b)[i] == a[i];
      }
    }
    if CiPrefix(a + b, pat) {
      forall i | 0 <= i < |a|
        ensures LowerChar(a[i]) == LowerChar(pat[i])
      {
        assert (a + b)[i] == a[i];
      }
    }
  }

  /** Text without '<' cannot hold any part of a pattern that starts with '<'. */
  lemma AngleFreeTight(s: string, pat: string)
    requires |pat| > 0 && pat[0] == '<' && '<' !in s
    ensures Tight(s, pat)
  {
    forall k | 0 <= k < |s|
      ensures !CiPrefix(pat, s[k..]) && !CiPrefix(s[k..], pat)
    {
      assert s[k..][0] == s[k];
      LowerAngle(s[k]);
    }
  }

  /** A tag `<body` with no further '<' is tight for a pattern it disagrees
   *  with at some position `at` of its body. */
  lemma TagStartTight(body: string, pat: string, at: nat)
    requires |pat| > 0 && pat[0] == '<' && '<' !in body
    requires at < |body| && at + 1 < |pat|
    requires LowerChar(body[at]) != LowerChar(pat[at + 1])
    ensures Tight("<" + body, pat)
  {
    var s := "<" + body;
    forall k | 0 <= k < |s|
      ensures !CiPrefix(pat, s[k..]) && !CiPrefix(s[k..], pat)
    {
      if k == 0 {
        assert s[k..][at + 1] == body[at];
      } else {
        assert s[k..][0] == body[k - 1];
        LowerAngle(body[k - 1]);
      }
    }
  }

  lemma TightConcat(a: string, b: string, pat: string)
    requires Tight(a, pat) && Tight(b, pat)
    ensures Tight(a + b, pat)
  {
    var s := a + b;
    forall k | 0 <= k < |s|
      ensures !CiPrefix(pat, s[k..]) && !CiPrefix(s[k..], pat)
    {
      if k < |a| {
        assert s[k..] == a[k..] + b;
        CiPrefixOfConcat(pat, a[k..], b);
      } else {
        assert s[k..] == b[k - |a|..];
      }
    }
  }

  /** Occurrences in `x + y` past `x` are the occurrences in `y`, shifted. */
  lemma CiAtShift(x: string, y: string, pat: string)
    ensures forall k :: 0 <= k <= |y| ==> (CiAt(x + y, |x| + k, pat) <==> CiAt(y, k, pat))
  {
    forall k | 0 <= k <= |y|
      ensures CiAt(x + y, |x| + k, pat) <==> CiAt(y, k, pat)
    {
      assert (x + y)[|x| + k..] == y[k..];
    }
  }

  /** No occurrence in `x + y` starts inside a tight `x`. */
  lemma TightPrefixShifts(x: string, y: string, pat: string)
    requires |pat| > 0 && Tight(x, pat)
    ensures forall k :: 0 <= k < |x| ==> !CiAt(x + y, k, pat)
    ensures forall k :: 0 <= k <= |y| ==> (CiAt(x + y, |x| + k, pat) <==> CiAt(y, k, pat))
  {
    forall k | 0 <= k < |x|
      ensures !CiAt(x + y, k, pat)
    {
      assert (x + y)[k..] == x[k..] + y;
      CiPrefixOfConcat(pat, x[k..], y);
    }
    CiAtShift(x, y, pat);
  }

  lemma TightHasNoOccurrence(s: string, pat: string)
    requires |pat| > 0 && Tight(s, pat)
    ensures forall k :: !CiAt(s, k, pat)
  {
    TightPrefixShifts(s, "", pat);
    assert s + "" == s;
  }

  /** Between two tight strings, a tag that opens with `pat` is the only place
   *  `pat` occurs. */
  lemma SoleOpener(x: string, body: string, z: string, pat: string)
    requires |pat| > 0 && pat[0] == '<' && '<' !in body
    requires Tight(x, pat) && Tight(z, pat)
    requires CiPrefix(pat, "<" + body)
    ensures OccursOnlyAt(x + ("<" + body) + z, pat, |x|)
  {
    var y := "<" + body;
    var s := x + y + z;
    assert s == x + (y + z);
    TightPrefixShifts(x, y + z, pat);
    CiPrefixOfConcat(pat, y, z);
    assert (y + z)[0..] == y + z;
    assert CiAt(y + z, 0, pat);
    CiAtShift(y, z, pat);
    TightHasNoOccurrence(z, pat);
    forall j | |x| < j <= |s|
      ensures !CiAt(s, j, pat)
    {
      var k := j - |x|;
      if k < |y| {
        assert (y + z)[k..][0] == body[k - 1];
        LowerAngle(body[k - 1]);
      } else {
        assert !CiAt(z, k - |y|, pat);
      }
    }
  }

  /**
   * Splicing a replacement `h` that starts with `open` and whose only `close`
   * is its last one over the first span leaves a string whose first span is
   * `h` itself: `open` cannot straddle into `h` when '<' occurs only at the
   * start of `open`.
   */
  lemma SplicedSpan(pre: string, h: string, post: string, open: string, close: string)
    requires |open| > 0 && open[0] == '<' && '<' !in open[1..]
    requires forall q :: 0 <= q < |pre| ==> !CiAt(pre, q, open)
    requires |open| + |close| <= |h| && CiPrefix(open, h)
    requires OccursOnlyAt(h, close, |h| - |close|)
    ensures FirstSpan(pre + h + post, open, close, |pre|, |pre| + |h| - |close|)
  {
    var s := pre + h + post;
    assert s == pre + (h + post);
    assert s[|pre|..] == h + post;
    CiPrefixOfConcat(open, h, post);
    assert CiAt(s, |pre|, open);
    forall q | 0 <= q < |pre|
      ensures !CiAt(s, q, open)
    {
      if CiAt(s, q, open) {
        if q + |open| <= |pre| {
          forall i | 0 <= i < |open|
            ensures LowerChar(open[i]) == LowerChar(pre[q..][i])
          {
            assert s[q..][i] == pre[q..][i];
          }
          assert CiAt(pre, q, open);
        } else {
          var d := |pre| - q;
          assert s[q..][d] == h[0];
          assert LowerChar(h[0]) == LowerChar(open[0]);
          LowerAngle(h[0]);
          assert LowerChar(open[d]) == '<';
          LowerAngle(open[d]);
        }
      }
    }
    var c := |pre| + |h| - |close|;
    assert s[c..] == h[|h| - |close|..] + post;
    CiPrefixOfConcat(close, h[|h| - |close|..], post);
    assert CiAt(s, c, close);
    forall j | |pre| + |open| <= j < c
      ensures !CiAt(s, j, close)
    {
      if CiAt(s, j, close) {
        var k := j - |pre|;
        assert s[j..] == h[k..] + post;
        assert h[k..][..|close|] == h[k..k + |close|];
        forall i | 0 <= i < |close|
          ensures LowerChar(close[i]) == LowerChar(h[k..][i])
        {
          assert s[j..][i] == h[k..][i];
        }
        assert CiAt(h, k, close);
      }
    }
  }

  /** The text a lazy match captures between its delimiters holds no `close`. */
  lemma CaptureHasNoClose(s: string, close: string, from: int, c: int)
    requires 0 <= from && |close| > 0 && FirstFrom(s, close, from, c)
    ensures forall j :: !CiAt(s[from..c], j, close)
  {
    var t := s[from..c];
    forall j | 0 <= j <= |t| && j + |close| <= |t|
      ensures !CiAt(t, j, close)
    {
      assert !CiAt(s, from + j, close);
      var i :| 0 <= i < |close| && LowerChar(close[i]) != LowerChar(s[from + j..][i]);
      assert t[j..][i] == s[from + j..][i];
    }
  }

  /** `s` ends with `suffix`. */
  predicate EndsWith(s: string, suffix: string)
  {
    |suffix| <= |s| && s[|s| - |suffix|..] == suffix
  }

  /** Whether a text ends with a suffix is decided by its tail. */
  lemma EndsWithTail(a: string, b: string, suffix: string)
    requires |suffix| <= |b|
    ensures EndsWith(a + b, suffix) <==> EndsWith(b, suffix)
  {
    assert (a + b)[|a + b| - |suffix|..] == b[|b| - |suffix|..];
  }

  /** A text ends with its last two parts together. */
  lemma EndsWithLastTwo(x: string, c: string, n: string)
    ensures EndsWith(x + c + n, c + n)
  {
    assert (x + c + n)[|x|..] == c + n;
  }

  /** A text of four parts begins with the first and ends with the last. */
  lemma Framed(h: string, a: string, b: string, w: string)
    ensures h <= h + a + b + w
    ensures EndsWith(h + a + b + w, w)
  {
    assert (h + a + b + w)[..|h|] == h;
    EndsWithTail(h + a + b, w, w);
  }
}
