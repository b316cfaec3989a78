/**
 * Extraction of a YouTube video id from a playlist link (`getVideoId` in
 * src/components/VideoPlayer.jsx). Two link shapes are recognised: the short
 * `youtu.be/<id>` link and the long `youtube.com/watch?v=<id>` link.
 */
module VideoIds {
  import opened Wrappers
  import opened Text

  /**
   * What `getVideoId` does with a link: returns an id (possibly empty),
   * returns `null`, or throws a `TypeError` because `split(...)[1]` is
   * `undefined`.
   */
  datatype IdResult = Id(value: string) | NoId | Throws

  const ShortHost := "youtu.be"
  const ShortMarker := "youtu.be/"
  const WatchMarker := "youtube.com/watch"

  /** The two canonical link shapes, used to state the round trips. */
  const ShortLinkPrefix := "https://youtu.be/"
  const WatchLinkPrefix := "https://www.youtube.com/watch?v="

  /** The characters of a YouTube video id. */
  predicate IsIdChar(c: char) {
    ('a' <= c <= 'z') || ('A' <= c <= 'Z') || ('0' <= c <= '9') || c == '-' || c == '_'
  }

  predicate IsIdText(id: string) {
    forall j :: 0 <= j < |id| ==> IsIdChar(id[j])
  }

  /**
   * The query of a URL as `new URL(url).search` sees it, without the leading
   * '?': the text after the first '?' of the part before the first '#'.
   */
  function SearchOf(url: string): (q: string)
    ensures !Contains(q, "#")
  {
    var beforeFragment := Split(url, "#")[0];
    match IndexOf(beforeFragment, "?")
    case None => []
    case Some(i) =>
      FirstPieceFree(url, "#");
      SuffixNotContained(beforeFragment, i + 1, "#");
      beforeFragment[i + 1..]
  }

  /** One `name=value` pair of a query: the name is before the first '=', the value after it. */
  function NameValue(pair: string): (string, string) {
    match IndexOf(pair, "=")
    case None => (pair, [])
    case Some(i) => (pair[..i], pair[i + 1..])
  }

  /**
   * The name holds no '=', and the pair is the name, '=' and the value when
   * it has an '='; otherwise the whole pair is the name and the value is empty.
   */
  lemma NameValueJoin(pair: string) returns (name: string, value: string)
    ensures (name, value) == NameValue(pair)
    ensures !Contains(name, "=")
    ensures Contains(pair, "=") ==> pair == name + "=" + value
    ensures !Contains(pair, "=") ==> name == pair && value == []
  {
    name, value := NameValue(pair).0, NameValue(pair).1;
    match IndexOf(pair, "=")
    case None =>
    case Some(i) =>
      PrefixNotContained(pair, i, "=");
      assert pair == pair[..i] + pair[i..i + 1] + pair[i + 1..];
  }

  /** The value of the first pair called `name` (`URLSearchParams.get`), `None` for `null`. */
  function FirstValue(pairs: seq<string>, name: string): (r: Option<string>)
    ensures r.None? <==> forall k :: 0 <= k < |pairs| ==> NameValue(pairs[k]).0 != name
    ensures r.Some? ==> exists k :: (0 <= k < |pairs| && NameValue(pairs[k]) == (name, r.value)
      && forall j :: 0 <= j < k ==> NameValue(pairs[j]).0 != name)
  {
    if pairs == [] then None
    else if NameValue(pairs[0]).0 == name then Some(NameValue(pairs[0]).1)
    else
      var r := FirstValue(pairs[1..], name);
      assert forall k :: 1 <= k < |pairs| ==> pairs[k] == pairs[1..][k - 1];
      r
  }

  /** `new URLSearchParams(query).get(name)`. */
  function QueryParam(query: string, name: string): (r: Option<string>)
    ensures r.Some? ==> !Contains(r.value, "&")
  {
    var pairs := Split(query, "&");
    var r := FirstValue(pairs, name);
    if r.Some? then
      var k :| 0 <= k < |pairs| && NameValue(pairs[k]) == (name, r.value);
      SplitPiecesFree(query, "&");
      match IndexOf(pairs[k], "=")
      case None => r
      case Some(i) =>
        SuffixNotContained(pairs[k], i + 1, "&");
        r
    else r
  }

  /** `getVideoId(url)`. */
  function GetVideoId(url: string): (r: IdResult)
    ensures r.Throws? <==> Contains(url, ShortHost) && !Contains(url, ShortMarker)
    ensures !Contains(url, ShortHost) && !Contains(url, WatchMarker) ==> r == NoId
    ensures r.Id? && Contains(url, ShortHost) ==> !Contains(r.value, "?")
    ensures r.Id? && !Contains(url, ShortHost) ==> !Contains(r.value, "&")
  {
    if Contains(url, ShortHost) then
      var parts := Split(url, ShortMarker);
      if |parts| < 2 then Throws
      else
        FirstPieceFree(parts[1], "?");
        Id(Split(parts[1], "?")[0])
    else if Contains(url, WatchMarker) then
      match QueryParam(SearchOf(url), "v")
      case Some(v) => Id(v)
      case None => NoId
    else NoId
  }

  /** JavaScript truthiness of the id: `null` and the empty string are both rejected. */
  function UsableId(r: IdResult): (id: Option<string>)
    ensures id.Some? <==> r.Id? && r.value != []
    ensures id.Some? ==> id.value == r.value
  {
    if r.Id? && r.value != [] then Some(r.value) else None
  }

  /** A link containing "youtu.be/" takes the short-link branch. */
  lemma ShortBranch(url: string)
    requires Contains(url, ShortMarker)
    ensures |Split(url, ShortMarker)| >= 2
    ensures GetVideoId(url) == Id(Split(Split(url, ShortMarker)[1], "?")[0])
  {
    PrefixPatternContains(url, ShortMarker, |ShortHost|);
    assert ShortMarker[..|ShortHost|] == ShortHost;
  }

  /**
   * The id of a short link is the text right after the first "youtu.be/",
   * up to the end of the link, the first '?' or the next "youtu.be/"; it
   * contains neither.
   */
  lemma ShortLinkId(url: string)
    requires Contains(url, ShortMarker)
    ensures GetVideoId(url).Id?
    ensures CutAt(url, IndexOf(url, ShortMarker).value + |ShortMarker|, GetVideoId(url).value, "?", ShortMarker)
  {
    ShortBranch(url);
    var k, piece := SecondPieceHead(url, ShortMarker, "?");
  }

  /** In a link that starts with "https://youtu.be/", the first "youtu.be/" is the one after "https://". */
  lemma ShortMarkerPosition(url: string)
    requires |url| >= |ShortLinkPrefix| && url[..|ShortLinkPrefix|] == ShortLinkPrefix
    ensures IndexOf(url, ShortMarker) == Some(8)
  {
    assert url[8..|ShortLinkPrefix|] == ShortMarker;
    assert OccursAt(url, ShortMarker, 8);
    forall j: nat | j < 8 ensures !OccursAt(url, ShortMarker, j) {
      assert url[j] == ShortLinkPrefix[j];
    }
  }

  /** No "youtu.be/" starts inside an id that is followed by the end of the link or a '?'. */
  lemma NoMarkerInsideId(url: string, n: nat, id: string, q: nat)
    requires n + |id| <= |url| && url[n..n + |id|] == id && IsIdText(id)
    requires n + |id| == |url| || url[n + |id|] == '?'
    requires n <= q < n + |id|
    ensures !OccursAt(url, ShortMarker, q)
  {
    if q + 5 < n + |id| {
      assert url[q + 5] == id[q + 5 - n];
      assert url[q + 5] != '.';
    } else if q + 9 <= |url| {
      assert url[n + |id|] == '?';
      assert url[q..q + 9][n + |id| - q] == '?';
      assert ShortMarker[n + |id| - q] != '?';
    }
  }

  /** Inside such an id no short-link cut can stop: there is neither a '?' nor a "youtu.be/". */
  lemma NoStopInsideId(url: string, n: nat, id: string, q: nat)
    requires n + |id| <= |url| && url[n..n + |id|] == id && IsIdText(id)
    requires n + |id| == |url| || url[n + |id|] == '?'
    requires n <= q < n + |id|
    ensures q < |url| && !OccursAt(url, "?", q) && !OccursAt(url, ShortMarker, q)
  {
    NoMarkerInsideId(url, n, id, q);
    assert url[q] == id[q - n];
    assert url[q..q + 1][0] == url[q];
  }

  /** A text without '?' sitting in `url` at `n` puts no '?' in `url` there. */
  lemma NoQueryInCut(url: string, n: nat, got: string)
    requires n + |got| <= |url| && url[n..n + |got|] == got && !Contains(got, "?")
    ensures forall q :: n <= q < n + |got| ==> url[q] != '?'
  {
    forall q | n <= q < n + |got| ensures url[q] != '?' {
      var j := q - n;
      assert url[q] == got[j];
      assert !OccursAt(got, "?", j);
      assert got[j..j + 1] == [got[j]];
    }
  }

  /** A short-link cut at the start of an id is not shorter than the id. */
  lemma CutNotShorter(url: string, n: nat, id: string, got: string)
    requires n + |id| <= |url| && url[n..n + |id|] == id && IsIdText(id)
    requires n + |id| == |url| || url[n + |id|] == '?'
    requires CutAt(url, n, got, "?", ShortMarker)
    ensures |got| >= |id|
  {
    forall q | n <= q < n + |id|
      ensures q < |url| && !OccursAt(url, "?", q) && !OccursAt(url, ShortMarker, q)
    {
      NoStopInsideId(url, n, id, q);
    }
  }

  /** A short-link cut at the start of an id is not longer than the id. */
  lemma CutNotLonger(url: string, n: nat, id: string, got: string)
    requires n + |id| <= |url| && url[n..n + |id|] == id
    requires n + |id| == |url| || url[n + |id|] == '?'
    requires CutAt(url, n, got, "?", ShortMarker)
    ensures |got| <= |id|
  {
    NoQueryInCut(url, n, got);
  }

  /**
   * A short-link cut of `url` starting at `n` is the id found there, when
   * that id is made of id characters and followed by the end or a '?'.
   */
  lemma CutUnique(url: string, n: nat, id: string, got: string)
    requires n + |id| <= |url| && url[n..n + |id|] == id && IsIdText(id)
    requires n + |id| == |url| || url[n + |id|] == '?'
    requires CutAt(url, n, got, "?", ShortMarker)
    ensures got == id
  {
    CutNotShorter(url, n, id, got);
    CutNotLonger(url, n, id, got);
  }

  /** A short link built from an id, optionally followed by a query, gives that id back. */
  lemma ShortLinkRoundTrip(id: string, tail: string)
    requires IsIdText(id)
    requires tail == [] || tail[0] == '?'
    ensures GetVideoId(ShortLinkPrefix + id + tail) == Id(id)
  {
    var url := ShortLinkPrefix + id + tail;
    var n := |ShortLinkPrefix|;
    assert url[..n] == ShortLinkPrefix;
    assert url[n..n + |id|] == id;
    ShortMarkerPosition(url);
    ShortLinkId(url);
    CutUnique(url, n, id, GetVideoId(url).value);
  }

  /** A watch link built from an id is not taken for a short link. */
  lemma WatchLinkNotShort(id: string)
    requires IsIdText(id)
    ensures !Contains(WatchLinkPrefix + id, ShortHost)
  {
    var url := WatchLinkPrefix + id;
    var n := |WatchLinkPrefix|;
    assert url[..n] == WatchLinkPrefix;
    forall p: nat | p + |ShortHost| <= |url| ensures !OccursAt(url, ShortHost, p) {
      if p >= n {
        assert url[p + 5] == id[p + 5 - n];
        assert url[p + 5] != '.';
      } else if p != 12 {
        assert url[p] == WatchLinkPrefix[p];
        assert url[p] != 'y';
      } else {
        assert url[p + 5] == 'b';
      }
    }
  }

  /** A watch link built from an id is recognised as a watch link. */
  lemma WatchLinkHasMarker(id: string)
    ensures Contains(WatchLinkPrefix + id, WatchMarker)
  {
    var url := WatchLinkPrefix + id;
    assert url[..|WatchLinkPrefix|] == WatchLinkPrefix;
    forall i | 12 <= i < 29 ensures url[i] == WatchMarker[i - 12] {
      assert url[i] == WatchLinkPrefix[i];
    }
    assert url[12..29] == WatchMarker;
    OccursContains(url, WatchMarker, 12);
  }

  /** The watch link without its query; it holds no '?'. */
  const WatchPath := "https://www.youtube.com/watch"

  lemma WatchPrefixShape()
    ensures WatchLinkPrefix == WatchPath + "?v="
    ensures '?' !in WatchPath && '#' !in WatchLinkPrefix
  {
  }

  /** The query of a watch link built from an id is `v=<id>`. */
  lemma WatchLinkSearch(id: string)
    requires IsIdText(id)
    ensures SearchOf(WatchLinkPrefix + id) == "v=" + id
  {
    var url := WatchLinkPrefix + id;
    WatchPrefixShape();
    forall j | 0 <= j < |url| ensures url[j] != '#' {
      if j < |WatchLinkPrefix| {
        assert url[j] in WatchLinkPrefix;
      } else {
        assert url[j] == id[j - |WatchLinkPrefix|];
      }
    }
    MissingCharNotContained(url, "#", 0);
    assert Split(url, "#") == [url];
    assert url == WatchPath + ['?'] + ("v=" + id);
    FirstCharAt(url, WatchPath, '?', "v=" + id);
    assert url[|WatchPath| + 1..] == "v=" + id;
  }

  /** The `v` parameter of the query `v=<id>` is the id. */
  lemma VParam(id: string)
    requires IsIdText(id)
    ensures QueryParam("v=" + id, "v") == Some(id)
  {
    var q := "v=" + id;
    forall j | 0 <= j < |q| ensures q[j] != '&' {
      if j >= 2 {
        assert q[j] == id[j - 2];
      }
    }
    MissingCharNotContained(q, "&", 0);
    assert Split(q, "&") == [q];
    assert OccursAt(q, "=", 1);
    assert !OccursAt(q, "=", 0);
    assert IndexOf(q, "=") == Some(1);
    assert q[..1] == "v" && q[2..] == id;
  }

  /** A watch link built from an id gives that id back. */
  lemma WatchLinkRoundTrip(id: string)
    requires IsIdText(id)
    ensures GetVideoId(WatchLinkPrefix + id) == Id(id)
  {
    WatchLinkNotShort(id);
    WatchLinkHasMarker(id);
    WatchLinkSearch(id);
    VParam(id);
  }
}
