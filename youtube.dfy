/**
 * The video-id extraction both views perform with the regular expression
 * `(?:youtube\.com\/watch\?v=|youtu\.be\/)([^&\s]+)`, written out as a leftmost-match scan.
 */
module YouTube {
  import opened Wrappers
  import opened Text

  const WatchMarker: String := "youtube.com/watch?v="
  const ShortMarker: String := "youtu.be/"

  /** ECMAScript `\s`: the WhiteSpace and LineTerminator code points. */
  predicate IsJsWhitespace(c: char) {
    var n := c as int;
    || n == 0x09 || n == 0x0A || n == 0x0B || n == 0x0C || n == 0x0D || n == 0x20
    || n == 0xA0 || n == 0x1680 || (0x2000 <= n <= 0x200A) || n == 0x2028 || n == 0x2029
    || n == 0x202F || n == 0x205F || n == 0x3000 || n == 0xFEFF
  }

  /** `[^&\s]`. */
  predicate IsIdChar(c: char) {
    c != '&' && !IsJsWhitespace(c)
  }

  /** Length of the marker alternative that matches at `i` (the two cannot both match there), or 0. */
  function MarkerLen(url: String, i: nat): (n: nat)
    requires i <= |url|
    ensures n == 0 || n == |WatchMarker| || n == |ShortMarker|
    ensures n != 0 ==> i + n <= |url|
    ensures n == |WatchMarker| <==> StartsWith(url[i..], WatchMarker)
    ensures n == |ShortMarker| <==> StartsWith(url[i..], ShortMarker)
  {
    MarkersExclusive(url[i..]);
    if StartsWith(url[i..], WatchMarker) then |WatchMarker|
    else if StartsWith(url[i..], ShortMarker) then |ShortMarker|
    else 0
  }

  /** The two alternatives differ at their sixth character, so at most one matches at a position. */
  lemma MarkersExclusive(s: String)
    ensures !(StartsWith(s, WatchMarker) && StartsWith(s, ShortMarker))
  {
    if StartsWith(s, WatchMarker) {
      assert s[5] == WatchMarker[5] == 'b';
    }
    if StartsWith(s, ShortMarker) {
      assert s[5] == ShortMarker[5] == '.';
    }
  }

  /** The greedy `[^&\s]+` from `j`: the length of the longest run of id characters starting there. */
  function IdRun(url: String, j: nat): (n: nat)
    requires j <= |url|
    ensures j + n <= |url|
    ensures forall k :: j <= k < j + n ==> IsIdChar(url[k])
    ensures j + n == |url| || !IsIdChar(url[j + n])
    decreases |url| - j
  {
    if j < |url| && IsIdChar(url[j]) then 1 + IdRun(url, j + 1) else 0
  }

  /** The regular expression matches starting at `i`: a marker followed by at least one id character. */
  predicate MatchAt(url: String, i: nat) {
    i < |url| && MarkerLen(url, i) > 0 && IdRun(url, i + MarkerLen(url, i)) > 0
  }

  /** The captured group of the match at `i`. */
  function IdAt(url: String, i: nat): (id: String)
    requires MatchAt(url, i)
    ensures |id| > 0
    ensures forall k :: 0 <= k < |id| ==> IsIdChar(id[k])
  {
    var s := i + MarkerLen(url, i);
    url[s..s + IdRun(url, s)]
  }

  /** `i` is the leftmost position at which the expression matches. */
  ghost predicate LeftmostMatch(url: String, i: nat) {
    MatchAt(url, i) && forall k :: 0 <= k < i ==> !MatchAt(url, k)
  }

  /** `url.match(...)` from position `from` on: the id of the first match, or None. */
  function FindVideoId(url: String, from: nat): (r: Option<String>)
    ensures r.None? <==> forall i :: from <= i ==> !MatchAt(url, i)
    ensures r.Some? ==> exists i :: (from <= i && MatchAt(url, i) && r.value == IdAt(url, i)
                                     && forall k :: from <= k < i ==> !MatchAt(url, k))
    decreases |url| - from
  {
    if from >= |url| then None
    else if MatchAt(url, from) then Some(IdAt(url, from))
    else FindVideoId(url, from + 1)
  }

  /** The match over the whole URL is at its leftmost position. */
  lemma FindVideoIdLeftmost(url: String)
    ensures FindVideoId(url, 0).None? <==> forall i :: !MatchAt(url, i)
    ensures forall i :: LeftmostMatch(url, i) ==> FindVideoId(url, 0) == Some(IdAt(url, i))
  {
  }

  /** The thumbnail URL of a video id. */
  function MaxResUrl(id: String): String {
    "https://img.youtube.com/vi/" + id + "/maxresdefault.jpg"
  }

  /** No marker starts inside a prefix that holds no `y`. */
  lemma NoMarkerBefore(url: String, p: String, i: nat)
    requires StartsWith(url, p) && i < |p|
    requires forall k :: 0 <= k < |p| ==> p[k] != 'y'
    ensures !MatchAt(url, i)
  {
    assert url[i..][0] == p[i];
  }

  /** The id of a link `prefix + marker + id` (no `y` in `prefix`, the id a full run of id characters)
      is `id`. */
  lemma {:induction false} LinkYieldsId(prefix: String, marker: String, id: String)
    requires marker == WatchMarker || marker == ShortMarker
    requires forall k :: 0 <= k < |prefix| ==> prefix[k] != 'y'
    requires |id| > 0 && forall k :: 0 <= k < |id| ==> IsIdChar(id[k])
    ensures FindVideoId(prefix + marker + id, 0) == Some(id)
  {
    var url := prefix + marker + id;
    var i := |prefix|;
    assert url[i..] == marker + id;
    assert StartsWith(url[i..], marker);
    assert MarkerLen(url, i) == |marker|;
    IdRunToEnd(url, i + |marker|);
    assert url[i + |marker|..] == id;
    assert MatchAt(url, i);
    forall k | 0 <= k < i ensures !MatchAt(url, k) {
      assert StartsWith(url, prefix) by { assert url[..|prefix|] == prefix; }
      NoMarkerBefore(url, prefix, k);
    }
    assert IdAt(url, i) == id;
    FindVideoIdLeftmost(url);
  }

  /** A run of id characters that reaches the end of the string is the whole tail. */
  lemma {:induction false} IdRunToEnd(url: String, j: nat)
    requires j <= |url|
    requires forall k :: j <= k < |url| ==> IsIdChar(url[k])
    ensures IdRun(url, j) == |url| - j
    decreases |url| - j
  {
    if j < |url| {
      IdRunToEnd(url, j + 1);
    }
  }
}
