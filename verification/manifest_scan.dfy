/** The three regular expressions of the fikfap pipeline, as scanners:

      MANIFEST_REGEX          https?://[^\s"'<>]+?\.(m3u8|mpd|bin)[^\s"'<>]*
      the analyzer's pattern  (https?://[^\s"'<>]+?\.m3u8[^\s"'<>]*)
      BASE64_MANIFEST_REGEX   data:application/x-mpegURL;base64,([^"']+)

    For the two URL patterns, a match at `p` is the scheme followed by the
    longest run of URL characters, provided the run holds one of the extensions
    at index 1 or later: the lazy part needs one character before the dot, and
    since the dot and the extension letters are URL characters themselves the
    greedy tail always extends to the end of the run. The base64 pattern matches
    its prefix followed by a non-empty run of characters other than quotes.
    `find` returns the leftmost match; `findAll` resumes at the end of each match. */
module ManifestScan {
  import opened Common

  datatype Pattern =
    | Manifest    // MANIFEST_REGEX of the VPN hunter
    | HlsOnly     // the pattern of the analyzer's `extractStreamUrl`
    | Base64Data  // BASE64_MANIFEST_REGEX

  /** `[^\s"'<>]`: Java's `\s` is space, tab, line feed, vertical tab, form feed
      and carriage return (code points 9 to 13). */
  predicate IsUrlChar(c: char) {
    !(c == ' ' || ('\t' <= c <= '\r') || c == '"' || c == '\'' || c == '<' || c == '>')
  }

  /** `[^"']`. */
  predicate IsCaptureChar(c: char) {
    c != '"' && c != '\''
  }

  const BASE64_PREFIX: string := "data:application/x-mpegURL;base64,"

  /** The length of the `https?://` at `p`, or 0 when there is none. */
  function SchemeLength(s: string, p: nat): (k: nat)
    ensures k == 8 <==> OccursAt(s, "https://", p)
    ensures k == 7 <==> OccursAt(s, "http://", p)
    ensures k == 0 || k == 7 || k == 8
  {
    if OccursAt(s, "https://", p) then
      assert s[p + 4] == s[p..p + 8][4] == 's';
      8
    else if OccursAt(s, "http://", p) then 7
    else 0
  }

  /** The end of the longest run of `inRun` characters starting at `i`. */
  function RunEnd(s: string, i: nat, inRun: char -> bool): (e: nat)
    requires i <= |s|
    ensures i <= e <= |s|
    ensures forall k | i <= k < e :: inRun(s[k])
    ensures e == |s| || !inRun(s[e])
    decreases |s| - i
  {
    if i == |s| || !inRun(s[i]) then i else RunEnd(s, i + 1, inRun)
  }

  function Extensions(pat: Pattern): seq<string> {
    match pat
    case Manifest => [".m3u8", ".mpd", ".bin"]
    case HlsOnly => [".m3u8"]
    case Base64Data => []
  }

  /** `x` occurs at `j` and ends by `e`. */
  predicate OccursBy(s: string, x: string, j: nat, e: nat) {
    j + |x| <= e && OccursAt(s, x, j)
  }

  /** One of the pattern's extensions occurs at `j` and ends by `e`. */
  predicate ExtAt(pat: Pattern, s: string, j: nat, e: nat) {
    match pat
    case Manifest => OccursBy(s, ".m3u8", j, e) || OccursBy(s, ".mpd", j, e) || OccursBy(s, ".bin", j, e)
    case HlsOnly => OccursBy(s, ".m3u8", j, e)
    case Base64Data => false
  }

  /** An occurrence inside `s[p..e]` is one of the slice. */
  lemma OccursBySlice(s: string, x: string, j: nat, p: nat, e: nat)
    requires p <= j && e <= |s| && OccursBy(s, x, j, e)
    ensures OccursBy(s[p..e], x, j - p, e - p)
  {
    var v := s[p..e];
    assert v[j - p..j - p + |x|] == s[j..j + |x|] by {
      forall i | j <= i < j + |x|
        ensures v[i - p] == s[i]
      {
      }
    }
  }

  lemma ExtAtSlice(pat: Pattern, s: string, j: nat, p: nat, e: nat)
    requires p <= j && e <= |s| && ExtAt(pat, s, j, e)
    ensures ExtAt(pat, s[p..e], j - p, e - p)
  {
    if OccursBy(s, ".m3u8", j, e) {
      OccursBySlice(s, ".m3u8", j, p, e);
    } else if OccursBy(s, ".mpd", j, e) {
      OccursBySlice(s, ".mpd", j, p, e);
    } else {
      OccursBySlice(s, ".bin", j, p, e);
    }
  }

  /** The first index in `[lo, e)` where an extension occurs, if any. */
  function FindExt(pat: Pattern, s: string, lo: nat, e: nat): (r: Option<nat>)
    ensures r.Some? ==> lo <= r.value < e && ExtAt(pat, s, r.value, e)
    ensures r.None? ==> forall j | lo <= j < e :: !ExtAt(pat, s, j, e)
    decreases e - lo
  {
    if lo >= e then None
    else if ExtAt(pat, s, lo, e) then Some(lo)
    else FindExt(pat, s, lo + 1, e)
  }

  /** Where the pattern's match starting at `p` ends, if it matches there. */
  function MatchEnd(pat: Pattern, s: string, p: nat): (r: Option<nat>)
    requires p <= |s|
    ensures r.Some? ==> p < r.value <= |s|
    ensures r.Some? && pat == Base64Data ==> p + |BASE64_PREFIX| < r.value
  {
    match pat
    case Base64Data =>
      if !OccursAt(s, BASE64_PREFIX, p) then None
      else
        var e := RunEnd(s, p + |BASE64_PREFIX|, IsCaptureChar);
        if e == p + |BASE64_PREFIX| then None else Some(e)
    case _ =>
      var k := SchemeLength(s, p);
      if k == 0 then None
      else
        var e := RunEnd(s, p + k, IsUrlChar);
        if FindExt(pat, s, p + k + 1, e).Some? then Some(e) else None
  }

  /** A URL-pattern match is the scheme, then the whole run of URL characters
      after it, which holds an extension one character or more past the scheme;
      and at a position with a scheme the pattern fails only when the run holds
      no extension there. */
  lemma UrlMatchShape(pat: Pattern, s: string, p: nat)
    requires pat != Base64Data && p <= |s|
    ensures var k := SchemeLength(s, p);
      match MatchEnd(pat, s, p)
      case Some(e) =>
        && k > 0
        && (forall i | p + k <= i < e :: IsUrlChar(s[i]))
        && (e == |s| || !IsUrlChar(s[e]))
        && (exists j | p + k + 1 <= j < e :: ExtAt(pat, s, j, e))
      case None =>
        k == 0 || var e := RunEnd(s, p + k, IsUrlChar); forall j | p + k + 1 <= j < e :: !ExtAt(pat, s, j, e)
  {
  }

  /** The text of a URL-pattern match starts with "http://" or "https://",
      holds only URL characters, and holds one of the extensions one character
      or more past its scheme. */
  lemma UrlMatchText(pat: Pattern, s: string, p: nat)
    requires pat != Base64Data && p <= |s| && MatchEnd(pat, s, p).Some?
    ensures var v := s[p..MatchEnd(pat, s, p).value];
      var k := SchemeLength(s, p);
      && (StartsWith(v, "http://") || StartsWith(v, "https://"))
      && (forall i | 0 <= i < |v| :: IsUrlChar(v[i]))
      && (exists j | k + 1 <= j < |v| :: ExtAt(pat, v, j, |v|))
  {
    var e := MatchEnd(pat, s, p).value;
    var k := SchemeLength(s, p);
    var v := s[p..e];
    UrlMatchShape(pat, s, p);
    assert StartsWith(v, "http://") || StartsWith(v, "https://") by {
      assert v[..k] == s[p..p + k];
    }
    assert forall i | 0 <= i < |v| :: IsUrlChar(v[i]) by {
      forall i | 0 <= i < |v|
        ensures IsUrlChar(v[i])
      {
        if i < k {
          assert v[i] == s[p..p + k][i];
        } else {
          assert v[i] == s[p + i];
        }
      }
    }
    var j :| p + k + 1 <= j < e && ExtAt(pat, s, j, e);
    ExtAtSlice(pat, s, j, p, e);
    assert k + 1 <= j - p < |v| && ExtAt(pat, v, j - p, |v|);
  }

  /** The captured group of a base64 match: the text after the prefix, a
      non-empty run without quotes that stops at a quote or at the end. */
  function Group(s: string, p: nat, e: nat): string
    requires p + |BASE64_PREFIX| <= e <= |s|
  {
    s[p + |BASE64_PREFIX|..e]
  }

  lemma Base64MatchShape(s: string, p: nat)
    requires p <= |s|
    ensures match MatchEnd(Base64Data, s, p)
      case Some(e) =>
        && OccursAt(s, BASE64_PREFIX, p)
        && p + |BASE64_PREFIX| < e
        && (forall i | 0 <= i < |Group(s, p, e)| :: IsCaptureChar(Group(s, p, e)[i]))
        && (e == |s| || !IsCaptureChar(s[e]))
      case None =>
        !OccursAt(s, BASE64_PREFIX, p) || p + |BASE64_PREFIX| == |s|
        || !IsCaptureChar(s[p + |BASE64_PREFIX|])
  {
  }

  // ---------------------------------------------------------------------------
  // find and findAll

  /** The pattern as a matcher over every start position of `s`. */
  function Matcher(pat: Pattern, s: string): (m: nat -> Option<nat>)
    ensures forall p: nat | p <= |s| :: m(p) == MatchEnd(pat, s, p)
    ensures MatcherOf(m, |s|)
  {
    (p: nat) => if p <= |s| then MatchEnd(pat, s, p) else None
  }

  /** What the scanner needs of a matcher on a text of length `n`: a match
      starts inside the text and ends after its start, within the text. */
  ghost predicate MatcherOf(m: nat -> Option<nat>, n: nat) {
    forall p: nat :: m(p).Some? ==> p < m(p).value <= n
  }

  /** `find` from `from`: the leftmost match starting at or after `from`. */
  function FindFrom(m: nat -> Option<nat>, n: nat, from: nat): (r: Option<(nat, nat)>)
    requires from <= n
    ensures r.Some? ==> from <= r.value.0 && m(r.value.0) == Some(r.value.1)
    ensures r.Some? ==> forall p | from <= p < r.value.0 :: m(p).None?
    ensures r.None? ==> forall p | from <= p <= n :: m(p).None?
    decreases n - from
  {
    match m(from)
    case Some(e) => Some((from, e))
    case None => if from == n then None else FindFrom(m, n, from + 1)
  }

  /** `findAll`: the leftmost match, then the matches after its end. */
  function FindAll(m: nat -> Option<nat>, n: nat, from: nat): (r: seq<(nat, nat)>)
    requires from <= n && MatcherOf(m, n)
    ensures forall i | 0 <= i < |r| :: from <= r[i].0 < r[i].1 <= n
    ensures forall i | 0 <= i < |r| :: m(r[i].0) == Some(r[i].1)
    ensures forall i | 0 <= i < |r| - 1 :: r[i].1 <= r[i + 1].0
    decreases n - from
  {
    match FindFrom(m, n, from)
    case None => []
    case Some((p, e)) =>
      var rest := FindAll(m, n, e);
      assert forall i | 0 <= i < |rest| :: e <= rest[i].0;
      [(p, e)] + rest
  }

  /** The span holds position `p`. */
  predicate Covers(span: (nat, nat), p: nat) {
    span.0 <= p < span.1
  }

  /** `findAll` misses nothing: every position where the pattern matches either
      starts one of the returned matches or lies inside one. */
  lemma {:induction false} FindAllComplete(m: nat -> Option<nat>, n: nat, from: nat, p: nat)
    requires MatcherOf(m, n) && from <= p <= n && m(p).Some?
    ensures exists i | 0 <= i < |FindAll(m, n, from)| :: Covers(FindAll(m, n, from)[i], p)
    decreases n - from
  {
    var first := FindFrom(m, n, from);
    var (q, e) := first.value;
    var rest := FindAll(m, n, e);
    var r := FindAll(m, n, from);
    assert r == [(q, e)] + rest;
    if p >= e {
      FindAllComplete(m, n, e, p);
      var i :| 0 <= i < |rest| && rest[i].0 <= p < rest[i].1;
      assert r[i + 1] == rest[i];
      assert Covers(r[i + 1], p);
    } else {
      assert Covers(r[0], p);
    }
  }

  /** `findAll` keeps to the left: each match is the leftmost one at or after
      the end of the previous match (or after `from`, for the first). */
  lemma {:induction false} FindAllLeftmost(m: nat -> Option<nat>, n: nat, from: nat, i: nat)
    requires MatcherOf(m, n) && from <= n && i < |FindAll(m, n, from)|
    ensures var r := FindAll(m, n, from);
      var start := if i == 0 then from else r[i - 1].1;
      forall p | start <= p < r[i].0 :: m(p).None?
    decreases n - from
  {
    var first := FindFrom(m, n, from);
    var (q, e) := first.value;
    if i > 0 {
      FindAllLeftmost(m, n, e, i - 1);
      if i > 1 {
        assert FindAll(m, n, from)[i - 1] == FindAll(m, n, e)[i - 2];
      }
    }
  }

  /** The matched texts. */
  function Values(s: string, spans: seq<(nat, nat)>): (r: seq<string>)
    requires forall i | 0 <= i < |spans| :: spans[i].0 <= spans[i].1 <= |s|
    ensures |r| == |spans|
    ensures forall i | 0 <= i < |spans| :: r[i] == s[spans[i].0..spans[i].1]
  {
    seq(|spans|, i requires 0 <= i < |spans| => s[spans[i].0..spans[i].1])
  }

  /** A text without "http" holds no URL match at all. */
  lemma NoSchemeNoMatch(pat: Pattern, s: string, p: nat)
    requires pat != Base64Data && p <= |s| && !Contains(s, "http")
    ensures MatchEnd(pat, s, p).None?
  {
    if SchemeLength(s, p) > 0 {
      assert s[p..p + 4] == s[p..p + SchemeLength(s, p)][..4];
      assert OccursAt(s, "http", p);
    }
  }
}
