/**
 * The YouTube link pattern both video components search for:
 * `youtube.com/watch?v=` or `youtu.be/` anywhere in the text, followed by a
 * non-empty, greedy run of characters other than `&`, newline, `?` and `#`,
 * which is the video id. The search takes the leftmost position where the
 * pattern matches.
 */
module YouTube {
  import opened Wrappers

  const WatchMarker: string := "youtube.com/watch?v="
  const ShortMarker: string := "youtu.be/"

  /** A character the id may contain. */
  predicate IdChar(c: char) {
    c != '&' && c != '\n' && c != '?' && c != '#'
  }

  /** `marker` occurs in `s` at index `i`. */
  predicate HasAt(s: string, marker: string, i: nat) {
    i + |marker| <= |s| && s[i..i + |marker|] == marker
  }

  /** The two markers never both occur at one index: they differ in their sixth character. */
  lemma MarkersExclusive(s: string, i: nat)
    ensures !(HasAt(s, WatchMarker, i) && HasAt(s, ShortMarker, i))
  {
    if HasAt(s, WatchMarker, i) {
      assert s[i..i + |WatchMarker|][5] == s[i + 5] == 'b';
      if i + |ShortMarker| <= |s| {
        assert s[i..i + |ShortMarker|][5] == s[i + 5];
      }
    }
  }

  /**
   * The pattern matches at `i`: one of the markers occurs there and is followed
   * by at least one id character. The first alternative is tried first, but
   * since the markers exclude each other the order does not matter.
   */
  predicate MatchesAt(s: string, i: nat)
    ensures MatchesAt(s, i) ==> i + |ShortMarker| < |s| && s[i] == 'y'
  {
    || (HasAt(s, WatchMarker, i) && i + |WatchMarker| < |s| && IdChar(s[i + |WatchMarker|]))
    || (HasAt(s, ShortMarker, i) && i + |ShortMarker| < |s| && IdChar(s[i + |ShortMarker|]))
  }

  /** Where the id starts when the pattern matches at `i`. */
  function IdStart(s: string, i: nat): nat {
    if HasAt(s, WatchMarker, i) then i + |WatchMarker| else i + |ShortMarker|
  }

  /** The end of the longest run of id characters starting at `j` (the greedy `+`). */
  function IdEnd(s: string, j: nat): (r: nat)
    requires j <= |s|
    ensures j <= r <= |s|
    ensures forall k :: j <= k < r ==> IdChar(s[k])
    ensures r == |s| || !IdChar(s[r])
    decreases |s| - j
  {
    if j < |s| && IdChar(s[j]) then IdEnd(s, j + 1) else j
  }

  /** The leftmost index at or after `i` where the pattern matches. */
  function FindMatchFrom(s: string, i: nat): (r: Option<nat>)
    requires i <= |s|
    ensures r.Some? ==> i <= r.value < |s| && MatchesAt(s, r.value)
    ensures r.Some? ==> forall j :: i <= j < r.value ==> !MatchesAt(s, j)
    ensures r.None? <==> forall j :: i <= j ==> !MatchesAt(s, j)
    decreases |s| - i
  {
    if i == |s| then None
    else if MatchesAt(s, i) then Some(i)
    else FindMatchFrom(s, i + 1)
  }

  /** Where `String.prototype.match` finds the pattern, if anywhere. */
  function FindMatch(s: string): (r: Option<nat>)
    ensures r.Some? ==> MatchesAt(s, r.value) && forall j :: 0 <= j < r.value ==> !MatchesAt(s, j)
    ensures r.None? <==> forall j: nat :: !MatchesAt(s, j)
  {
    FindMatchFrom(s, 0)
  }

  /** The captured id: the run of id characters after the marker of the leftmost match. */
  function ExtractVideoId(url: string): (r: Option<string>)
    ensures r.Some? <==> FindMatch(url).Some?
    ensures r.Some? ==>
      var start := IdStart(url, FindMatch(url).value);
      && r.value != []
      && start + |r.value| <= |url|
      && r.value == url[start..start + |r.value|]
      && (forall k :: 0 <= k < |r.value| ==> IdChar(r.value[k]))
      && (start + |r.value| == |url| || !IdChar(url[start + |r.value|]))
  {
    match FindMatch(url)
    case None => None
    case Some(i) =>
      var start := IdStart(url, i);
      MarkersExclusive(url, i);
      Some(url[start..IdEnd(url, start)])
  }

  /** The pattern does not match at a position whose character is not 'y'. */
  lemma NoMatchBeforeY(s: string, i: nat)
    requires i < |s| && s[i] != 'y'
    ensures !MatchesAt(s, i)
  {
  }

  /** With no 'y' before it, a marker followed by an id character is where the pattern first matches. */
  lemma MatchAfterPrefix(prefix: string, marker: string, id: string)
    requires marker == WatchMarker || marker == ShortMarker
    requires forall k :: 0 <= k < |prefix| ==> prefix[k] != 'y'
    requires id != [] && IdChar(id[0])
    ensures FindMatch(prefix + marker + id) == Some(|prefix|)
    ensures IdStart(prefix + marker + id, |prefix|) == |prefix| + |marker|
  {
    var url := prefix + marker + id;
    var i := |prefix|;
    assert forall j: nat :: j < i ==> !MatchesAt(url, j) by {
      forall j: nat | j < i
        ensures !MatchesAt(url, j)
      {
        assert url[j] == prefix[j];
        NoMatchBeforeY(url, j);
      }
    }
    assert MatchesAt(url, i) && IdStart(url, i) == i + |marker| by {
      assert url[i..i + |marker|] == marker;
      assert url[i + |marker|] == id[0];
      MarkersExclusive(url, i);
    }
    var r := FindMatch(url);
    assert r.Some? && !(r.value < i) && !(i < r.value);
  }

  /** An id of id characters that runs to the end of the text is taken whole by the greedy run. */
  lemma IdRunsToEnd(head: string, id: string)
    requires forall k :: 0 <= k < |id| ==> IdChar(id[k])
    ensures IdEnd(head + id, |head|) == |head + id|
  {
    var url := head + id;
    assert forall k :: |head| <= k < |url| ==> IdChar(url[k]) by {
      forall k | |head| <= k < |url|
        ensures IdChar(url[k])
      {
        assert url[k] == id[k - |head|];
      }
    }
  }

  /** Where the leftmost match is known, the id is the greedy run after its marker. */
  lemma ExtractAtMatch(url: string, i: nat)
    requires FindMatch(url) == Some(i)
    ensures IdStart(url, i) <= |url|
    ensures ExtractVideoId(url) == Some(url[IdStart(url, i)..IdEnd(url, IdStart(url, i))])
  {
    MarkersExclusive(url, i);
  }

  /** After a marker, a non-empty id of id characters that runs to the end is extracted whole. */
  lemma ExtractAfterMarker(prefix: string, marker: string, id: string)
    requires marker == WatchMarker || marker == ShortMarker
    requires forall k :: 0 <= k < |prefix| ==> prefix[k] != 'y'
    requires id != [] && forall k :: 0 <= k < |id| ==> IdChar(id[k])
    ensures ExtractVideoId(prefix + marker + id) == Some(id)
  {
    var head := prefix + marker;
    var url := head + id;
    assert url == prefix + marker + id;
    MatchAfterPrefix(prefix, marker, id);
    IdRunsToEnd(head, id);
    ExtractAtMatch(url, |prefix|);
    assert url[|head|..|url|] == id;
  }

  /** A watch link round-trips: the id put into it is the id extracted from it. */
  lemma WatchLinkRoundTrip(id: string)
    requires id != [] && forall k :: 0 <= k < |id| ==> IdChar(id[k])
    ensures ExtractVideoId("https://www." + WatchMarker + id) == Some(id)
  {
    var prefix := "https://www.";
    assert forall k :: 0 <= k < |prefix| ==> prefix[k] != 'y';
    ExtractAfterMarker(prefix, WatchMarker, id);
  }

  /** A short link round-trips: the id put into it is the id extracted from it. */
  lemma ShortLinkRoundTrip(id: string)
    requires id != [] && forall k :: 0 <= k < |id| ==> IdChar(id[k])
    ensures ExtractVideoId("https://" + ShortMarker + id) == Some(id)
  {
    var prefix := "https://";
    assert forall k :: 0 <= k < |prefix| ==> prefix[k] != 'y';
    ExtractAfterMarker(prefix, ShortMarker, id);
  }

  /** `RegExp.prototype.test` on the same pattern: whether it matches at or after `i`, scanning forward. */
  function MatchesFrom(s: string, i: nat): (r: bool)
    requires i <= |s|
    ensures r <==> exists j :: i <= j < |s| && MatchesAt(s, j)
    decreases |s| - i
  {
    i < |s| && (MatchesAt(s, i) || MatchesFrom(s, i + 1))
  }
}
