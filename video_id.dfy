/** Reduction of the `videoId` query value to a YouTube video identifier
    (app.py, lines 44-46): a leftmost regex search for `v=` or `youtu.be/`
    followed by eleven identifier characters, falling back to the raw value,
    and a full match of the result against the identifier pattern. */
module VideoId {
  import opened Wrappers

  /** Width of the identifier: the `{11}` of both regular expressions. */
  const IdLength: nat := 11

  /** First alternative of the search pattern, as in `...watch?v=<id>`. */
  const WatchMarker: string := "v="

  /** Second alternative of the search pattern, as in `https://youtu.be/<id>`. */
  const ShortLinkMarker: string := "youtu.be/"

  /** The character class `[0-9A-Za-z_-]`. */
  predicate IsIdChar(c: char) {
    ('0' <= c <= '9') || ('A' <= c <= 'Z') || ('a' <= c <= 'z') || c == '_' || c == '-'
  }

  /** `re.fullmatch(r"[0-9A-Za-z_-]{11}", s)` succeeds. */
  predicate IsVideoId(s: string) {
    |s| == IdLength && forall k :: 0 <= k < |s| ==> IsIdChar(s[k])
  }

  /** The alternative `marker` followed by the group `[0-9A-Za-z_-]{11}`
      matches `s` at position `i`. */
  predicate MatchesAt(s: string, i: nat, marker: string) {
    i + |marker| + IdLength <= |s|
    && s[i..i + |marker|] == marker
    && IsVideoId(s[i + |marker|..i + |marker| + IdLength])
  }

  /** A successful match object: where the whole match starts, which
      alternative matched, and capture group 1. */
  datatype Match = Match(start: nat, marker: string, group: string)

  /** The pattern `(?:v=|youtu\.be/)([0-9A-Za-z_-]{11})` tried at position
      `i` only, alternatives in the order the pattern lists them. */
  function MatchAt(s: string, i: nat): (r: Option<Match>)
    ensures r.Some? ==>
      && r.value.start == i
      && (r.value.marker == WatchMarker || r.value.marker == ShortLinkMarker)
      && i + |r.value.marker| + IdLength <= |s|
      && s[i..i + |r.value.marker| + IdLength] == r.value.marker + r.value.group
      && IsVideoId(r.value.group)
    ensures r.None? <==> !MatchesAt(s, i, WatchMarker) && !MatchesAt(s, i, ShortLinkMarker)
  {
    if MatchesAt(s, i, WatchMarker) then
      Some(Match(i, WatchMarker, s[i + |WatchMarker|..i + |WatchMarker| + IdLength]))
    else if MatchesAt(s, i, ShortLinkMarker) then
      Some(Match(i, ShortLinkMarker, s[i + |ShortLinkMarker|..i + |ShortLinkMarker| + IdLength]))
    else
      None
  }

  /** `re.search` started at position `i`: the match at the leftmost position
      from `i` up to and including `|s|`. */
  function SearchFrom(s: string, i: nat): (r: Option<Match>)
    decreases |s| - i
    ensures r.Some? ==>
      && i <= r.value.start <= |s|
      && MatchAt(s, r.value.start) == r
      && forall k :: i <= k < r.value.start ==> MatchAt(s, k).None?
    ensures r.None? ==> forall k :: i <= k <= |s| ==> MatchAt(s, k).None?
  {
    if i > |s| then None
    else if MatchAt(s, i).Some? then MatchAt(s, i)
    else SearchFrom(s, i + 1)
  }

  /** `re.search(r"(?:v=|youtu\.be/)([0-9A-Za-z_-]{11})", s)`. */
  function Search(s: string): (r: Option<Match>)
    ensures r.Some? ==>
      && r.value.start <= |s|
      && MatchAt(s, r.value.start) == r
      && forall k :: 0 <= k < r.value.start ==> MatchAt(s, k).None?
    ensures r.None? <==> forall k :: 0 <= k <= |s| ==> MatchAt(s, k).None?
  {
    SearchFrom(s, 0)
  }

  /** The identifier the handler accepts for the raw query value `param`, or
      None where it answers 400: the search's group 1 if the search matches,
      the raw value otherwise, kept only if it is a full identifier. */
  function ExtractVideoId(param: string): (r: Option<string>)
    ensures r.Some? ==> IsVideoId(r.value)
    ensures r.None? <==> Search(param).None? && !IsVideoId(param)
    ensures Search(param).Some? ==> r == Some(Search(param).value.group)
    ensures Search(param).None? && IsVideoId(param) ==> r == Some(param)
  {
    var candidate := if Search(param).Some? then Search(param).value.group else param;
    if IsVideoId(candidate) then Some(candidate) else None
  }

  /** A match starting at `j` with no match before it is what the search
      returns. */
  lemma SearchFindsLeftmost(s: string, j: nat)
    requires MatchAt(s, j).Some?
    requires forall k :: 0 <= k < j ==> MatchAt(s, k).None?
    ensures Search(s) == MatchAt(s, j)
  {
    var r := Search(s);
    assert r.Some?;
    if r.value.start < j {
      assert false;
    } else if r.value.start > j {
      assert false;
    }
  }

  /** Neither alternative can start where `s` has neither a `v` nor a `y`. */
  lemma NoMatchWithoutMarkerHead(s: string, k: nat)
    requires k < |s| ==> s[k] != 'v' && s[k] != 'y'
    ensures MatchAt(s, k).None?
  {
    if k + |WatchMarker| <= |s| {
      assert s[k..k + |WatchMarker|][0] == s[k] != WatchMarker[0];
    }
    if k + |ShortLinkMarker| <= |s| {
      assert s[k..k + |ShortLinkMarker|][0] == s[k] != ShortLinkMarker[0];
    }
  }

  /** No match starts inside a stretch of `s` that holds no `v` and no `y`. */
  lemma NoMatchInRange(s: string, lo: nat, hi: nat)
    requires lo <= hi <= |s|
    requires 'v' !in s[lo..hi] && 'y' !in s[lo..hi]
    ensures forall k :: lo <= k < hi ==> MatchAt(s, k).None?
  {
    forall k | lo <= k < hi
      ensures MatchAt(s, k).None?
    {
      assert s[k] == s[lo..hi][k - lo];
      NoMatchWithoutMarkerHead(s, k);
    }
  }

  /** When the leftmost match sits at `j` after `marker`, the accepted
      identifier is the eleven characters right after the marker; whatever
      follows them is ignored. */
  lemma {:induction false} ExtractFollowsLeftmostMarker(s: string, j: nat, marker: string)
    requires marker == WatchMarker || marker == ShortLinkMarker
    requires MatchesAt(s, j, marker)
    requires forall k :: 0 <= k < j ==> MatchAt(s, k).None?
    ensures ExtractVideoId(s) == Some(s[j + |marker|..j + |marker| + IdLength])
  {
    if marker == ShortLinkMarker {
      assert s[j..j + |WatchMarker|][0] == s[j..j + |ShortLinkMarker|][0] == 'y';
      assert !MatchesAt(s, j, WatchMarker);
    }
    SearchFindsLeftmost(s, j);
  }

  /** `sub` occurs in `s` starting at position `i`. */
  predicate OccursAt(s: string, i: nat, sub: string) {
    i + |sub| <= |s| && s[i..i + |sub|] == sub
  }

  /** An accepted identifier is a contiguous run of eleven characters of the
      raw value. */
  lemma AcceptedIsSubstring(param: string, id: string)
    requires ExtractVideoId(param) == Some(id)
    ensures |id| == IdLength && exists i :: OccursAt(param, i, id)
  {
    match Search(param)
    case Some(m) =>
      var w := param[m.start..m.start + |m.marker| + IdLength];
      var g := m.start + |m.marker|;
      assert w == m.marker + id;
      forall t | 0 <= t < IdLength
        ensures param[g..g + IdLength][t] == id[t]
      {
        assert param[g + t] == w[|m.marker| + t];
      }
      assert OccursAt(param, g, id);
    case None =>
      assert OccursAt(param, 0, id);
  }

  /** A value made only of identifier characters contains no match: both
      alternatives hold a character (`=`, `.` or `/`) outside the class. */
  lemma AlphabetOnlyNeverMatches(s: string)
    requires forall k :: 0 <= k < |s| ==> IsIdChar(s[k])
    ensures Search(s).None?
  {
    forall k | 0 <= k <= |s|
      ensures MatchAt(s, k).None?
    {
      if k + |WatchMarker| <= |s| {
        assert s[k..k + |WatchMarker|][1] == s[k + 1] != WatchMarker[1];
      }
      if k + |ShortLinkMarker| <= |s| {
        assert s[k..k + |ShortLinkMarker|][5] == s[k + 5] != ShortLinkMarker[5];
      }
    }
  }

  /** A value made only of identifier characters is accepted, unchanged,
      exactly when it has eleven of them, and rejected otherwise. */
  lemma AlphabetOnlyAcceptedIffEleven(s: string)
    requires forall k :: 0 <= k < |s| ==> IsIdChar(s[k])
    ensures |s| == IdLength ==> ExtractVideoId(s) == Some(s)
    ensures |s| != IdLength ==> ExtractVideoId(s) == None
  {
    AlphabetOnlyNeverMatches(s);
  }

  /** A bare identifier is accepted as it is. */
  lemma BareIdAccepted(id: string)
    requires IsVideoId(id)
    ensures ExtractVideoId(id) == Some(id)
  {
    AlphabetOnlyAcceptedIffEleven(id);
  }

  /** A missing argument defaults to the empty value, which is rejected. */
  lemma EmptyRejected()
    ensures ExtractVideoId("") == None
  {
    AlphabetOnlyAcceptedIffEleven("");
  }

  /** `https://youtu.be/<id>` followed by anything yields `<id>`. */
  lemma ShortLinkYieldsId(id: string, rest: string)
    requires IsVideoId(id)
    ensures ExtractVideoId("https://youtu.be/" + id + rest) == Some(id)
  {
    var s := "https://youtu.be/" + id + rest;
    assert s[0..8] == "https://";
    assert s[8..17] == ShortLinkMarker;
    assert s[17..28] == id;
    NoMatchInRange(s, 0, 8);
    ExtractFollowsLeftmostMarker(s, 8, ShortLinkMarker);
  }

  /** The watch-page URL up to its host: it holds no `v` and no `y`. */
  const WatchUrlScheme: string := "https://www."

  /** The rest of the watch-page URL after the `y` of `youtube`, up to the
      `v=` marker: it holds no `v` and no `y` either. */
  const WatchUrlPathTail: string := "outube.com/watch?"

  /** The watch-page URL up to and including the `v=` marker,
      `https://www.youtube.com/watch?v=`. */
  const WatchUrlHead: string := WatchUrlScheme + "y" + WatchUrlPathTail + WatchMarker

  /** The pieces spell the URL prefix the handler writes. */
  lemma WatchUrlHeadSpelled()
    ensures WatchUrlHead == "https://www.youtube.com/watch?v="
  {
  }

  /** Neither alternative matches at a `y` that is followed four characters
      later by a `b`, as in `youtube.com`, rather than by the `.` of `youtu.be/`. */
  lemma NoMatchAtOtherHost(s: string, k: nat)
    requires k + 5 < |s| && s[k] == 'y' && s[k + 5] == 'b'
    ensures MatchAt(s, k).None?
  {
    assert s[k..k + |WatchMarker|][0] == s[k] != WatchMarker[0];
    if k + |ShortLinkMarker| <= |s| {
      assert s[k..k + |ShortLinkMarker|][5] == s[k + 5] != ShortLinkMarker[5];
    }
  }

  /** Neither the scheme nor the path after `youtube`'s `y` holds a `v` or a
      `y`. */
  lemma PiecesHoldNoMarkerHead()
    ensures 'v' !in WatchUrlScheme && 'y' !in WatchUrlScheme
    ensures 'v' !in WatchUrlPathTail && 'y' !in WatchUrlPathTail
  {
  }

  /** No match starts in the scheme of a value that begins with `WatchUrlHead`. */
  lemma NoMatchInWatchUrlScheme(t: string)
    ensures forall k :: 0 <= k < |WatchUrlScheme| ==> MatchAt(WatchUrlHead + t, k).None?
  {
    var s := WatchUrlHead + t;
    PiecesHoldNoMarkerHead();
    forall k | 0 <= k < |WatchUrlScheme|
      ensures MatchAt(s, k).None?
    {
      assert s[k] == WatchUrlScheme[k] && WatchUrlScheme[k] in WatchUrlScheme;
      NoMatchWithoutMarkerHead(s, k);
    }
  }

  /** No match starts at the `y` of the `youtube.com` host. */
  lemma NoMatchAtWatchUrlHost(t: string)
    ensures MatchAt(WatchUrlHead + t, |WatchUrlScheme|).None?
  {
    var s := WatchUrlHead + t;
    var host := |WatchUrlScheme|;
    assert s[host] == 'y';
    assert s[host + 5] == WatchUrlPathTail[4] == 'b';
    NoMatchAtOtherHost(s, host);
  }

  /** No match starts in the path, after the host's `y` and before `v=`. */
  lemma NoMatchInWatchUrlPath(t: string)
    ensures forall k :: |WatchUrlScheme| < k < |WatchUrlHead| - |WatchMarker| ==>
      MatchAt(WatchUrlHead + t, k).None?
  {
    var s := WatchUrlHead + t;
    var lo := |WatchUrlScheme| + 1;
    PiecesHoldNoMarkerHead();
    forall k | lo <= k < |WatchUrlHead| - |WatchMarker|
      ensures MatchAt(s, k).None?
    {
      assert s[k] == WatchUrlPathTail[k - lo] && WatchUrlPathTail[k - lo] in WatchUrlPathTail;
      NoMatchWithoutMarkerHead(s, k);
    }
  }

  /** No match starts before the `v=` of a value that begins with
      `WatchUrlHead`. */
  lemma NoMatchInWatchUrlHead(t: string)
    ensures forall k :: 0 <= k < |WatchUrlHead| - |WatchMarker| ==> MatchAt(WatchUrlHead + t, k).None?
  {
    NoMatchInWatchUrlScheme(t);
    NoMatchAtWatchUrlHost(t);
    NoMatchInWatchUrlPath(t);
  }

  /** `https://www.youtube.com/watch?v=<id>` followed by anything yields
      `<id>`: no match starts in the scheme or the path, and the `y` of the
      `youtube.com` host does not start `youtu.be/`. */
  lemma WatchLinkYieldsId(id: string, rest: string)
    requires IsVideoId(id)
    ensures ExtractVideoId(WatchUrlHead + id + rest) == Some(id)
  {
    var s := WatchUrlHead + id + rest;
    var marker := |WatchUrlHead| - |WatchMarker|;
    assert s == WatchUrlHead + (id + rest);
    NoMatchInWatchUrlHead(id + rest);
    assert s[marker..marker + |WatchMarker|] == WatchMarker;
    assert s[marker + |WatchMarker|..marker + |WatchMarker| + IdLength] == id;
    ExtractFollowsLeftmostMarker(s, marker, WatchMarker);
  }

  /** A short-link example. */
  lemma ShortLinkExample()
    ensures ExtractVideoId("https://youtu.be/dQw4w9WgXcQ") == Some("dQw4w9WgXcQ")
  {
    var id := "dQw4w9WgXcQ";
    assert IsVideoId(id);
    assert "https://youtu.be/dQw4w9WgXcQ" == "https://youtu.be/" + id + "";
    ShortLinkYieldsId(id, "");
  }

  /** A watch URL with a trailing timestamp. */
  lemma WatchLinkExample()
    ensures ExtractVideoId("https://www.youtube.com/watch?v=dQw4w9WgXcQ&t=10") == Some("dQw4w9WgXcQ")
  {
    var id := "dQw4w9WgXcQ";
    assert IsVideoId(id);
    WatchUrlHeadSpelled();
    assert "https://www.youtube.com/watch?v=dQw4w9WgXcQ&t=10" == WatchUrlHead + id + "&t=10";
    WatchLinkYieldsId(id, "&t=10");
  }
}
