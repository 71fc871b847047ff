/** The profile page: thumbnail resolution, the `m:ss` duration label,
    which tab's query feeds the grid, and where a card leads. */
module ProfilePage {
  import opened Wrappers
  import opened Strings
  import UrlState
  import VideoFeed

  // ---------------------------------------------------------------- encodeURIComponent

  /** The characters `encodeURIComponent` leaves as they are. */
  predicate Unreserved(c: char) {
    ('A' <= c <= 'Z') || ('a' <= c <= 'z') || ('0' <= c <= '9') ||
    c == '-' || c == '_' || c == '.' || c == '!' || c == '~' || c == '*' || c == '\'' || c == '(' || c == ')'
  }

  predicate IsUpperHex(c: char) {
    ('0' <= c <= '9') || ('A' <= c <= 'F')
  }

  function UpperHexDigit(d: nat): (c: char)
    requires d < 16
    ensures IsUpperHex(c)
  {
    if d < 10 then (('0' as int) + d) as char else (('A' as int) + d - 10) as char
  }

  /** The UTF-8 encoding of one character: one byte below U+0080, then two,
      three or four, with a lead byte telling the length and continuation
      bytes in 0x80..0xBF. */
  function Utf8(c: char): (bs: seq<nat>)
    ensures 1 <= |bs| <= 4 && forall i :: 0 <= i < |bs| ==> bs[i] < 256
    ensures |bs| == 1 <==> (c as int) < 0x80
    ensures |bs| == 1 ==> bs[0] == c as int
    ensures |bs| > 1 ==> 0xC0 <= bs[0] && forall i :: 1 <= i < |bs| ==> 0x80 <= bs[i] < 0xC0
  {
    var n := c as int;
    if n < 0x80 then [n]
    else if n < 0x800 then [0xC0 + n / 64, 0x80 + n % 64]
    else if n < 0x10000 then [0xE0 + n / 4096, 0x80 + (n / 64) % 64, 0x80 + n % 64]
    else [0xF0 + n / 262144, 0x80 + (n / 4096) % 64, 0x80 + (n / 64) % 64, 0x80 + n % 64]
  }

  /** Each byte as "%" and two upper-case hex digits. */
  function PercentBytes(bs: seq<nat>): (r: string)
    requires forall i :: 0 <= i < |bs| ==> bs[i] < 256
    ensures |r| == 3 * |bs|
    ensures forall i :: 0 <= i < |r| ==> (if i % 3 == 0 then r[i] == '%' else IsUpperHex(r[i]))
  {
    if |bs| == 0 then ""
    else ['%', UpperHexDigit(bs[0] / 16), UpperHexDigit(bs[0] % 16)] + PercentBytes(bs[1..])
  }

  /** A character of the encoded text: kept as it was, or part of an escape. */
  predicate EncodedChar(c: char) {
    Unreserved(c) || c == '%' || IsUpperHex(c)
  }

  /** `encodeURIComponent(s)` */
  function EncodeUriComponent(s: string): (r: string)
    ensures forall i :: 0 <= i < |r| ==> EncodedChar(r[i])
    ensures (forall i :: 0 <= i < |s| ==> Unreserved(s[i])) ==> r == s
    ensures |r| >= |s|
  {
    if |s| == 0 then ""
    else
      var head := if Unreserved(s[0]) then [s[0]] else PercentBytes(Utf8(s[0]));
      var rest := EncodeUriComponent(s[1..]);
      assert forall i :: 0 <= i < |head| ==> EncodedChar(head[i]);
      assert forall i :: 0 <= i < |head + rest| ==> EncodedChar((head + rest)[i]) by {
        forall i | 0 <= i < |head + rest| ensures EncodedChar((head + rest)[i]) {
          if i < |head| { assert (head + rest)[i] == head[i]; }
          else { assert (head + rest)[i] == rest[i - |head|]; }
        }
      }
      assert (forall i :: 0 <= i < |s| ==> Unreserved(s[i])) ==> head + rest == s by {
        if forall i :: 0 <= i < |s| ==> Unreserved(s[i]) {
          assert forall i :: 0 <= i < |s[1..]| ==> Unreserved(s[1..][i]);
          assert [s[0]] + s[1..] == s;
        }
      }
      head + rest
  }

  /** How one character is written: as itself when unreserved, otherwise
      as the escapes of its UTF-8 bytes. */
  function EncodeChar(c: char): (r: string)
    ensures Unreserved(c) ==> r == [c]
    ensures !Unreserved(c) ==> r == PercentBytes(Utf8(c))
  {
    if Unreserved(c) then [c] else PercentBytes(Utf8(c))
  }

  /** A one-character text encodes as that character's escape. */
  lemma EncodeUriComponentChar(c: char)
    ensures EncodeUriComponent([c]) == EncodeChar(c)
  {
    assert [c][1..] == [];
  }

  /** The encoding works character by character: the encoding of a
      concatenation is the concatenation of the encodings. */
  lemma {:induction false} EncodeUriComponentAppend(a: string, b: string)
    ensures EncodeUriComponent(a + b) == EncodeUriComponent(a) + EncodeUriComponent(b)
    decreases |a|
  {
    if |a| == 0 {
      assert a + b == b;
    } else {
      assert (a + b)[0] == a[0];
      assert (a + b)[1..] == a[1..] + b;
      EncodeUriComponentAppend(a[1..], b);
    }
  }

  /** The encoded text never holds a character that would end or split a
      query value, so it reaches the proxy as the single `url` parameter. */
  lemma EncodedThumbnailIsOneParam(t: string)
    ensures var e := EncodeUriComponent(t);
      UrlState.ParseQuery("url=" + e) == [UrlState.Param("url", e)]
  {
    var e := EncodeUriComponent(t);
    UrlState.ParseSinglePair("url", e);
    assert "url" + "=" + e == "url=" + e;
  }

  // ---------------------------------------------------------------- thumbnails

  /** The server's image proxy, with the thumbnail as its `url` parameter. */
  const PROXY_ENDPOINT: string := "/api/proxy/image?"
  const PROXY_PATH: string := PROXY_ENDPOINT + "url="

  /** Telegram file ids, which the page cannot show. */
  predicate IsTelegramFileId(t: string) {
    StartsWith(t, "AAMC") || StartsWith(t, "BAAC") || StartsWith(t, "AgAC")
  }

  /** `getThumbnailUrl`: nothing for an empty value or a Telegram file id,
      external links through the image proxy, anything else from `/downloads/`.
      The file-id test comes first. */
  function ThumbnailUrl(t: string, viteApiUrl: Option<string>): (r: string)
    ensures |r| == 0 <==> |t| == 0 || IsTelegramFileId(t)
    ensures |r| > 0 ==> StartsWith(r, VideoFeed.ApiBase(viteApiUrl))
    ensures |r| > 0 && StartsWith(t, "http") ==> EndsWith(r, EncodeUriComponent(t))
    ensures |r| > 0 && !StartsWith(t, "http") ==> EndsWith(r, t)
    ensures |r| > 0 && StartsWith(t, "http") ==>
              var prefix := VideoFeed.ApiBase(viteApiUrl) + PROXY_PATH;
              StartsWith(r, prefix) && r[|prefix|..] == EncodeUriComponent(t)
    ensures |r| > 0 && !StartsWith(t, "http") ==>
              var prefix := VideoFeed.ApiBase(viteApiUrl) + VideoFeed.DOWNLOADS_PATH;
              StartsWith(r, prefix) && r[|prefix|..] == t
  {
    var base := VideoFeed.ApiBase(viteApiUrl);
    if |t| == 0 || IsTelegramFileId(t) then ""
    else
      var tail := if StartsWith(t, "http") then EncodeUriComponent(t) else t;
      var path := if StartsWith(t, "http") then PROXY_PATH else VideoFeed.DOWNLOADS_PATH;
      Around(base, path, tail);
      base + path + tail
  }

  /** For a linked thumbnail, the query the proxy receives holds exactly
      one parameter, `url`, whose value is the encoded link. */
  lemma ProxyReceivesThumbnail(t: string, viteApiUrl: Option<string>)
    requires |t| > 0 && !IsTelegramFileId(t) && StartsWith(t, "http")
    ensures var r := ThumbnailUrl(t, viteApiUrl);
      var query := |VideoFeed.ApiBase(viteApiUrl) + PROXY_ENDPOINT|;
      && StartsWith(r, VideoFeed.ApiBase(viteApiUrl) + PROXY_ENDPOINT)
      && UrlState.ParseQuery(r[query..]) == [UrlState.Param("url", EncodeUriComponent(t))]
  {
    ProxyQuery(ThumbnailUrl(t, viteApiUrl), VideoFeed.ApiBase(viteApiUrl), EncodeUriComponent(t));
  }

  /** The step above for any URL made of a base, the proxy path and an encoded value. */
  lemma ProxyQuery(r: string, base: string, e: string)
    requires StartsWith(r, base + PROXY_PATH) && r[|base + PROXY_PATH|..] == e
    requires forall i :: 0 <= i < |e| ==> EncodedChar(e[i])
    ensures StartsWith(r, base + PROXY_ENDPOINT)
    ensures UrlState.ParseQuery(r[|base + PROXY_ENDPOINT|..]) == [UrlState.Param("url", e)]
  {
    assert base + PROXY_PATH == (base + PROXY_ENDPOINT) + "url=";
    ShorterPrefix(r, base + PROXY_ENDPOINT, "url=", e);
    UrlState.ParseSinglePair("url", e);
    assert "url" + "=" + e == "url=" + e;
  }

  /** Text after a prefix `a + b` is, after `a` alone, `b` followed by it. */
  lemma ShorterPrefix(r: string, a: string, b: string, e: string)
    requires StartsWith(r, a + b) && r[|a + b|..] == e
    ensures StartsWith(r, a) && r[|a|..] == b + e
  {
    assert r == (a + b) + e;
    assert r[..|a|] == a;
    assert r[|a|..] == b + e;
  }

  predicate EndsWith(s: string, p: string) {
    |p| <= |s| && s[|s| - |p|..] == p
  }

  lemma Around(a: string, b: string, c: string)
    requires |a| > 0
    ensures var r := a + b + c;
      && |r| > 0 && StartsWith(r, a) && EndsWith(r, c)
      && StartsWith(r, a + b) && r[|a + b|..] == c
  {
    var r := a + b + c;
    assert r[..|a|] == a;
    assert r[..|a + b|] == a + b;
    assert r[|r| - |c|..] == c;
  }

  /** The image is shown exactly when there is a thumbnail that resolves,
      and the placeholder exactly otherwise. */
  predicate ShowsImage(t: string, viteApiUrl: Option<string>) {
    |t| > 0 && |ThumbnailUrl(t, viteApiUrl)| > 0
  }

  lemma ImageUnlessFileId(t: string, viteApiUrl: Option<string>)
    ensures ShowsImage(t, viteApiUrl) <==> |t| > 0 && !IsTelegramFileId(t)
  {
  }

  /** A local thumbnail resolves like the feed's media files. */
  lemma LocalThumbnailLikeVideo(t: string, viteApiUrl: Option<string>)
    requires |t| > 0 && !IsTelegramFileId(t) && !StartsWith(t, "http")
    ensures ThumbnailUrl(t, viteApiUrl) == VideoFeed.VideoUrl(t, viteApiUrl)
  {
    var base := VideoFeed.ApiBase(viteApiUrl);
    LinkPrefixes(t);
    assert !VideoFeed.IsAbsoluteUrl(t);
    assert VideoFeed.VideoUrl(t, viteApiUrl) == base + VideoFeed.DOWNLOADS_PATH + t;
    assert ThumbnailUrl(t, viteApiUrl) == base + (VideoFeed.DOWNLOADS_PATH + t);
  }

  /** Both absolute-link prefixes begin with "http". */
  lemma LinkPrefixes(t: string)
    ensures StartsWith(t, "http://") ==> StartsWith(t, "http")
    ensures StartsWith(t, "https://") ==> StartsWith(t, "http")
  {
    if |t| >= 4 {
      assert t[..4] == [t[0], t[1], t[2], t[3]];
    }
  }

  /** A file id is never sent to the proxy, even one that reads like a link. */
  lemma FileIdBeforeLink()
    ensures ThumbnailUrl("AgAChttp", None) == ""
  {
    assert "AgAChttp"[..4] == "AgAC";
  }

  // ---------------------------------------------------------------- duration

  /** `${floor(d / 60)}:${(d % 60).toString().padStart(2, "0")}` for whole seconds. */
  function FormatDuration(d: nat): (r: string)
    ensures |r| >= 4 && r[|r| - 3] == ':'
  {
    NatToString(d / 60) + ":" + PadStart2(NatToString(d % 60))
  }

  lemma {:induction false} PaddedSeconds(k: nat)
    requires k < 60
    ensures var p := PadStart2(NatToString(k));
      |p| == 2 && (forall i :: 0 <= i < 2 ==> IsDigit(p[i])) && DecimalValue(p) == k
  {
    var s := NatToString(k);
    var p := PadStart2(s);
    DecimalRoundTrip(k);
    if k < 10 {
      assert p == ['0'] + s;
      assert p[..1] == ['0'];
      assert p[1] == s[0];
      assert DecimalValue(s) == DecimalValue(s[..0]) * 10 + DigitValue(s[0]);
      assert s[..0] == [];
    } else {
      assert p == s;
    }
  }

  /** The label reads back as the duration: minutes, a colon, and two
      digits of seconds below 60. */
  lemma {:induction false} DurationReadsBack(d: nat)
    ensures var r := FormatDuration(d);
      var minutes := r[..|r| - 3];
      var seconds := r[|r| - 2..];
      && |minutes| >= 1 && (forall i :: 0 <= i < |minutes| ==> IsDigit(minutes[i]))
      && (forall i :: 0 <= i < 2 ==> IsDigit(seconds[i]))
      && DecimalValue(seconds) < 60
      && DecimalValue(minutes) * 60 + DecimalValue(seconds) == d
  {
    var m := NatToString(d / 60);
    var p := PadStart2(NatToString(d % 60));
    PaddedSeconds(d % 60);
    DecimalRoundTrip(d / 60);
    var r := FormatDuration(d);
    assert r == m + ":" + p;
    assert r[..|r| - 3] == m;
    assert r[|r| - 2..] == p;
  }

  /** 65 seconds read "1:05". */
  lemma SixtyFiveSeconds()
    ensures FormatDuration(65) == "1:05"
  {
    assert NatToString(1) == "1" && NatToString(5) == "5";
    assert PadStart2("5") == "05";
  }

  // ---------------------------------------------------------------- tabs and cards

  datatype ProfileVideo = ProfileVideo(id: string, title: string, thumbnail: string, duration: nat,
                                       viewCount: nat, likeCount: nat)

  /** A query's result: its page of videos and the total. */
  datatype QueryData = QueryData(videos: seq<ProfileVideo>, totalVideos: nat)

  datatype Query = Query(data: Option<QueryData>, isLoading: bool)

  datatype Tab = MyVideos | Favorites

  /** What the grid shows: the active tab's list, loading flag and total. */
  datatype TabView = TabView(videos: seq<ProfileVideo>, isLoading: bool, total: nat)

  function ViewOf(q: Query): TabView {
    match q.data
    case None => TabView([], q.isLoading, 0)
    case Some(d) => TabView(d.videos, q.isLoading, d.totalVideos)
  }

  function SelectTab(tab: Tab, uploaded: Query, favorites: Query): (v: TabView)
    ensures v.isLoading == (if tab == MyVideos then uploaded.isLoading else favorites.isLoading)
    ensures var q := if tab == MyVideos then uploaded else favorites;
      && (q.data.None? ==> v.videos == [] && v.total == 0)
      && (q.data.Some? ==> v.videos == q.data.value.videos && v.total == q.data.value.totalVideos)
  {
    ViewOf(if tab == MyVideos then uploaded else favorites)
  }

  /** The grid depends on the active tab's query only. */
  lemma OtherTabDoesNotMatter(uploaded: Query, favorites: Query, uploaded': Query, favorites': Query)
    ensures SelectTab(MyVideos, uploaded, favorites) == SelectTab(MyVideos, uploaded, favorites')
    ensures SelectTab(Favorites, uploaded, favorites) == SelectTab(Favorites, uploaded', favorites)
  {
  }

  datatype Content = LoadingContent | EmptyContent | Grid(videos: seq<ProfileVideo>)

  function ContentOf(v: TabView): (c: Content)
    ensures c.Grid? <==> !v.isLoading && |v.videos| > 0
    ensures c.Grid? ==> c.videos == v.videos
    ensures c == LoadingContent <==> v.isLoading
  {
    if v.isLoading then LoadingContent
    else if |v.videos| == 0 then EmptyContent
    else Grid(v.videos)
  }

  const UNTITLED: string := "Untitled Video"

  function CardTitle(v: ProfileVideo): (t: string)
    ensures |t| > 0
    ensures |v.title| > 0 ==> t == v.title
  {
    if |v.title| > 0 then v.title else UNTITLED
  }

  /** The deep-link parameter the feed reads. */
  const VIDEO_PARAM: string := "video"

  /** Where a card click leads: the feed, with the video's id as parameter. */
  function CardLink(id: string): string {
    "/?" + VIDEO_PARAM + "=" + id
  }

  /** The feed reads the id back from the card's link, for ids without "&". */
  lemma CardLinkReadsBack(id: string)
    requires forall i :: 0 <= i < |id| ==> id[i] != '&'
    ensures CardLink(id)[..2] == "/?"
    ensures var ps := UrlState.ParseQuery(CardLink(id)[2..]);
      UrlState.Get(ps, VIDEO_PARAM) == Some(id)
  {
    var link := CardLink(id);
    assert link[2..] == VIDEO_PARAM + "=" + id;
    UrlState.ParseSinglePair(VIDEO_PARAM, id);
  }
}
