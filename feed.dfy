/** The vertical video feed: accumulating paginated results without
    duplicates, moving a deep-linked video to the front, choosing the single
    active item from scroll geometry, look-ahead pagination, media URL
    resolution, display of counters, and the per-item like/favourite toggles
    and view-recording timer.

    Scroll geometry, the intersection observer and timers are inputs: an
    item's vertical centre (or its absence from the DOM), the container's
    centre, an intersection ratio, and discrete "timer fired" events. */
module VideoFeed {
  import opened Wrappers
  import opened Strings

  const VIEW_RECORD_DELAY_MS: nat := 3000
  /** Seconds of watch time reported with each recorded view. */
  const VIEW_WATCH_TIME: nat := 3
  const PRELOAD_THRESHOLD: nat := 3
  const INTERSECTION_THRESHOLD: real := 0.7
  const PAGE_LIMIT: nat := 10
  const DEFAULT_API_BASE := "http://localhost:3000"
  /** Where the server serves stored media files. */
  const DOWNLOADS_PATH := "/downloads/"

  /** The fields of a feed item the feed logic reads. */
  datatype Video = Video(
    id: string,
    url: string,
    viewCount: nat,
    likeCount: nat,
    favoriteCount: nat,
    shareCount: nat)

  function IdsOf(vs: seq<Video>): (ids: set<string>)
    ensures forall i :: 0 <= i < |vs| ==> vs[i].id in ids
  {
    set i | 0 <= i < |vs| :: vs[i].id
  }

  lemma IdsOfAppend(a: seq<Video>, b: seq<Video>)
    ensures IdsOf(a + b) == IdsOf(a) + IdsOf(b)
  {
    forall id | id in IdsOf(a + b) ensures id in IdsOf(a) + IdsOf(b) {
      var i :| 0 <= i < |a + b| && (a + b)[i].id == id;
      if i >= |a| {
        assert b[i - |a|].id == id;
      }
    }
    forall id | id in IdsOf(a) ensures id in IdsOf(a + b) {
      var i :| 0 <= i < |a| && a[i].id == id;
      assert (a + b)[i] == a[i];
    }
    forall id | id in IdsOf(b) ensures id in IdsOf(a + b) {
      var i :| 0 <= i < |b| && b[i].id == id;
      assert (a + b)[|a| + i] == b[i];
    }
  }

  /** No two items share an identifier. */
  predicate UniqueIds(vs: seq<Video>) {
    forall i, j :: 0 <= i < j < |vs| ==> vs[i].id != vs[j].id
  }

  // ================================================================ merge

  /** The items of `page` whose id is not already in `prev`, in page order
      (the `filter` over the fetched page). */
  function NewItems(prev: seq<Video>, page: seq<Video>): (r: seq<Video>)
    ensures forall v :: v in r ==> v in page && v.id !in IdsOf(prev)
    ensures forall v :: v in page && v.id !in IdsOf(prev) ==> v in r
    ensures |r| <= |page|
    decreases |page|
  {
    if |page| == 0 then []
    else (if page[0].id in IdsOf(prev) then [] else [page[0]]) + NewItems(prev, page[1..])
  }

  /** Each new item is kept as often as the page holds it; nothing else is kept. */
  lemma {:induction false} NewItemsMultiplicity(prev: seq<Video>, page: seq<Video>)
    ensures forall v :: multiset(NewItems(prev, page))[v] == if v.id in IdsOf(prev) then 0 else multiset(page)[v]
    decreases |page|
  {
    if |page| > 0 {
      NewItemsMultiplicity(prev, page[1..]);
      assert page == [page[0]] + page[1..];
    }
  }

  /** The filter runs over the page front to back: filtering two pieces of
      a page and concatenating gives the filter of the whole page, so the
      kept items stay in page order. */
  lemma {:induction false} NewItemsAppend(prev: seq<Video>, a: seq<Video>, b: seq<Video>)
    ensures NewItems(prev, a + b) == NewItems(prev, a) + NewItems(prev, b)
    decreases |a|
  {
    if |a| == 0 {
      assert a + b == b;
    } else {
      assert (a + b)[1..] == a[1..] + b;
      NewItemsAppend(prev, a[1..], b);
    }
  }

  /** A single fetched item is kept exactly when its id is new. */
  lemma NewItemsSingle(prev: seq<Video>, v: Video)
    ensures NewItems(prev, [v]) == if v.id in IdsOf(prev) then [] else [v]
  {
    assert [v][1..] == [];
  }

  /** Accumulation of one fetched page into the list. */
  function MergePage(prev: seq<Video>, page: seq<Video>): (r: seq<Video>)
    ensures |r| >= |prev| && r[..|prev|] == prev
    ensures r[|prev|..] == NewItems(prev, page)
  {
    prev + NewItems(prev, page)
  }

  lemma {:induction false} NewItemsNone(prev: seq<Video>, page: seq<Video>)
    requires forall v :: v in page ==> v.id in IdsOf(prev)
    ensures NewItems(prev, page) == []
    decreases |page|
  {
    if |page| > 0 {
      assert page[0] in page;
      NewItemsNone(prev, page[1..]);
    }
  }

  /** Every id of the page is present after merging it. */
  lemma MergeCoversPage(prev: seq<Video>, page: seq<Video>)
    ensures forall v :: v in page ==> v.id in IdsOf(MergePage(prev, page))
  {
    IdsOfAppend(prev, NewItems(prev, page));
    forall v | v in page ensures v.id in IdsOf(MergePage(prev, page)) {
      if v.id !in IdsOf(prev) {
        var n := NewItems(prev, page);
        assert v in n;
        var k :| 0 <= k < |n| && n[k] == v;
        assert n[k].id in IdsOf(n);
      }
    }
  }

  /** Re-delivering the same page changes nothing. */
  lemma MergeIdempotent(prev: seq<Video>, page: seq<Video>)
    ensures MergePage(MergePage(prev, page), page) == MergePage(prev, page)
  {
    var m := MergePage(prev, page);
    MergeCoversPage(prev, page);
    NewItemsNone(m, page);
  }

  lemma {:induction false} NewItemsUnique(prev: seq<Video>, page: seq<Video>)
    requires UniqueIds(page)
    ensures UniqueIds(NewItems(prev, page))
    decreases |page|
  {
    if |page| > 0 {
      var tail := page[1..];
      assert UniqueIds(tail) by {
        forall i, j | 0 <= i < j < |tail| ensures tail[i].id != tail[j].id {
          assert tail[i] == page[i + 1] && tail[j] == page[j + 1];
        }
      }
      NewItemsUnique(prev, tail);
      var rest := NewItems(prev, tail);
      forall w | w in rest ensures w.id != page[0].id {
        assert w in tail;
        var k :| 0 <= k < |tail| && tail[k] == w;
        assert page[k + 1] == w;
      }
    }
  }

  /** Merging keeps ids unique, provided the list and the page each are. */
  lemma MergeUnique(prev: seq<Video>, page: seq<Video>)
    requires UniqueIds(prev) && UniqueIds(page)
    ensures UniqueIds(MergePage(prev, page))
  {
    var n := NewItems(prev, page);
    NewItemsUnique(prev, page);
    var m := MergePage(prev, page);
    forall i, j | 0 <= i < j < |m| ensures m[i].id != m[j].id {
      if j >= |prev| && i < |prev| {
        assert m[j] == n[j - |prev|];
        assert m[j] in n;
        assert m[i] == prev[i];
      } else if i >= |prev| {
        assert m[i] == n[i - |prev|] && m[j] == n[j - |prev|];
      }
    }
  }

  /** The merge compares only with the old list: a page that repeats an id
      yields a list with that id twice. */
  lemma MergeKeepsDuplicateWithinPage(a: Video)
    ensures MergePage([], [a, a]) == [a, a]
    ensures !UniqueIds(MergePage([], [a, a]))
  {
    assert IdsOf([]) == {};
  }

  /** The list built from a series of pages, each merged in turn. */
  function Accumulate(pages: seq<seq<Video>>): (r: seq<Video>)
    decreases |pages|
  {
    if |pages| == 0 then [] else MergePage(Accumulate(pages[..|pages| - 1]), pages[|pages| - 1])
  }

  /** Whatever pages arrive, repeated or not, every id seen is present and
      appears once, as long as each page is itself duplicate-free. */
  lemma {:induction false} AccumulateUnique(pages: seq<seq<Video>>)
    requires forall k :: 0 <= k < |pages| ==> UniqueIds(pages[k])
    ensures UniqueIds(Accumulate(pages))
    ensures forall k, v :: 0 <= k < |pages| && v in pages[k] ==> v.id in IdsOf(Accumulate(pages))
    decreases |pages|
  {
    if |pages| > 0 {
      var init := pages[..|pages| - 1];
      var last := pages[|pages| - 1];
      AccumulateUnique(init);
      MergeUnique(Accumulate(init), last);
      MergeCoversPage(Accumulate(init), last);
      IdsOfAppend(Accumulate(init), NewItems(Accumulate(init), last));
      forall k, v | 0 <= k < |pages| && v in pages[k]
        ensures v.id in IdsOf(Accumulate(pages))
      {
        if k < |pages| - 1 {
          assert pages[k] == init[k];
        }
      }
    }
  }

  // ================================================================ deep link

  /** `findIndex` by id: the first index holding `id`, or -1. */
  function FindIndex(vs: seq<Video>, id: string): (r: int)
    ensures r == -1 <==> id !in IdsOf(vs)
    ensures r != -1 ==> 0 <= r < |vs| && vs[r].id == id
    ensures r != -1 ==> forall j :: 0 <= j < r ==> vs[j].id != id
    decreases |vs|
  {
    if |vs| == 0 then -1
    else if vs[0].id == id then 0
    else
      var k := FindIndex(vs[1..], id);
      assert IdsOf(vs) == {vs[0].id} + IdsOf(vs[1..]) by {
        IdsOfAppend([vs[0]], vs[1..]);
        assert [vs[0]] + vs[1..] == vs;
      }
      if k == -1 then -1 else k + 1
  }

  /** How many items carry `id`. */
  function CountId(vs: seq<Video>, id: string): (n: nat)
    ensures n <= |vs|
    decreases |vs|
  {
    if |vs| == 0 then 0 else (if vs[0].id == id then 1 else 0) + CountId(vs[1..], id)
  }

  /** `filter(v => v._id !== id)` */
  function RemoveId(vs: seq<Video>, id: string): (r: seq<Video>)
    ensures id !in IdsOf(r)
    ensures forall v :: v in r ==> v in vs
    ensures forall v :: v in vs && v.id != id ==> v in r
    ensures |r| == |vs| - CountId(vs, id)
    decreases |vs|
  {
    if |vs| == 0 then []
    else
      var rest := RemoveId(vs[1..], id);
      IdsOfAppend([vs[0]], rest);
      if vs[0].id == id then rest else [vs[0]] + rest
  }

  /** Every element with another id survives as often as it occurred. */
  lemma {:induction false} RemoveIdMultiplicity(vs: seq<Video>, id: string)
    ensures forall v :: multiset(RemoveId(vs, id))[v] == if v.id == id then 0 else multiset(vs)[v]
    decreases |vs|
  {
    if |vs| > 0 {
      RemoveIdMultiplicity(vs[1..], id);
      assert vs == [vs[0]] + vs[1..];
    }
  }

  /** Removal keeps the survivors in their order: removing from two pieces
      and concatenating gives the removal from the whole. */
  lemma {:induction false} RemoveIdAppend(a: seq<Video>, b: seq<Video>, id: string)
    ensures RemoveId(a + b, id) == RemoveId(a, id) + RemoveId(b, id)
    decreases |a|
  {
    if |a| == 0 {
      assert a + b == b;
    } else {
      assert (a + b)[1..] == a[1..] + b;
      RemoveIdAppend(a[1..], b, id);
    }
  }

  /** One element survives exactly when it carries another id. */
  lemma RemoveIdSingle(v: Video, id: string)
    ensures RemoveId([v], id) == if v.id == id then [] else [v]
  {
    assert [v][1..] == [];
  }

  lemma {:induction false} CountIdZero(vs: seq<Video>, id: string)
    ensures CountId(vs, id) == 0 <==> id !in IdsOf(vs)
    decreases |vs|
  {
    if |vs| > 0 {
      CountIdZero(vs[1..], id);
      IdsOfAppend([vs[0]], vs[1..]);
      assert [vs[0]] + vs[1..] == vs;
    }
  }

  lemma {:induction false} RemoveIdAbsent(vs: seq<Video>, id: string)
    requires id !in IdsOf(vs)
    ensures RemoveId(vs, id) == vs
    decreases |vs|
  {
    if |vs| > 0 {
      IdsOfAppend([vs[0]], vs[1..]);
      assert [vs[0]] + vs[1..] == vs;
      RemoveIdAbsent(vs[1..], id);
    }
  }

  /** A `?video=` parameter counts only when it is present and non-empty. */
  predicate TruthyId(target: Option<string>) {
    target.Some? && target.value != ""
  }

  /** The deep-link effect applied to the accumulated list: with fetched
      data, an id and the initial scroll not yet done, an absent video is
      prepended and a present one (the copy already in the list) is moved
      to the front; otherwise the list is left alone. */
  function Reconcile(prev: seq<Video>, fetched: Option<Video>, target: Option<string>, initialScrollDone: bool): (r: seq<Video>)
    ensures !(fetched.Some? && TruthyId(target) && !initialScrollDone) ==> r == prev
  {
    if fetched.Some? && TruthyId(target) && !initialScrollDone then
      var id := target.value;
      var i := FindIndex(prev, id);
      if i == -1 then [fetched.value] + prev else [prev[i]] + RemoveId(prev, id)
    else prev
  }

  /** What the reconcile step guarantees when it runs. */
  lemma ReconcileEffect(prev: seq<Video>, fetched: Video, id: string)
    requires id != "" && fetched.id == id
    ensures var r := Reconcile(prev, Some(fetched), Some(id), false);
      && |r| >= 1 && r[0].id == id
      && id !in IdsOf(r[1..])
      && CountId(r, id) == 1
      && (id !in IdsOf(prev) ==> r == [fetched] + prev)
      && (id in IdsOf(prev) ==> r[0] == prev[FindIndex(prev, id)] && |r| == |prev| - CountId(prev, id) + 1)
      && (id in IdsOf(prev) ==> r[1..] == RemoveId(prev, id))
      && (forall v :: v in prev && v.id != id ==> v in r)
  {
    var r := Reconcile(prev, Some(fetched), Some(id), false);
    assert r[1..] == RemoveId(prev, id) || r[1..] == prev;
    if id !in IdsOf(prev) {
      CountIdZero(prev, id);
      RemoveIdAbsent(prev, id);
    }
    CountIdZero(r[1..], id);
  }

  /** Applying the reconcile step twice gives the same list as once. */
  lemma ReconcileIdempotent(prev: seq<Video>, fetched: Video, id: string)
    requires id != "" && fetched.id == id
    ensures var once := Reconcile(prev, Some(fetched), Some(id), false);
      Reconcile(once, Some(fetched), Some(id), false) == once
  {
    var once := Reconcile(prev, Some(fetched), Some(id), false);
    ReconcileEffect(prev, fetched, id);
    assert FindIndex(once, id) == 0;
    RemoveIdAbsent(once[1..], id);
    assert once == [once[0]] + once[1..];
  }

  /** [A, B, C] with B deep-linked becomes [B, A, C]. */
  lemma ReconcileMovesToFront(a: Video, b: Video, c: Video)
    requires a.id == "a" && b.id == "b" && c.id == "c"
    ensures Reconcile([a, b, c], Some(b), Some("b"), false) == [b, a, c]
  {
    assert FindIndex([a, b, c], "b") == 1 by {
      assert [a, b, c][1..] == [b, c];
    }
    assert RemoveId([a, b, c], "b") == [a, c] by {
      assert [a, b, c][1..] == [b, c];
      assert [b, c][1..] == [c];
      assert [c][1..] == [];
    }
  }

  // ================================================================ active item

  function Abs(x: real): (r: real)
    ensures r >= 0.0 && (r == x || r == -x)
  {
    if x < 0.0 then -x else x
  }

  /** `k` is the index whose centre is nearest the container's centre, the
      lowest such index on a tie; 0 when no item element was found.
      `centres[i]` is None when the element of item `i` is not in the DOM. */
  predicate IsClosest(centres: seq<Option<real>>, containerCentre: real, k: nat) {
    if forall i :: 0 <= i < |centres| ==> centres[i].None? then k == 0
    else
      && k < |centres| && centres[k].Some?
      && forall j :: 0 <= j < |centres| && centres[j].Some? ==>
           && Abs(centres[k].value - containerCentre) <= Abs(centres[j].value - containerCentre)
           && (j < k ==> Abs(centres[k].value - containerCentre) < Abs(centres[j].value - containerCentre))
  }

  /** The scan the scroll handler runs over every item. */
  method ClosestIndex(centres: seq<Option<real>>, containerCentre: real) returns (closest: nat)
    ensures IsClosest(centres, containerCentre, closest)
  {
    closest := 0;
    var found := false;          // false plays the part of `minDistance = Infinity`
    var minDistance := 0.0;
    var index := 0;
    while index < |centres|
      invariant 0 <= index <= |centres|
      invariant !found ==> closest == 0 && forall i :: 0 <= i < index ==> centres[i].None?
      invariant found ==> closest < index && centres[closest].Some?
                          && minDistance == Abs(centres[closest].value - containerCentre)
      invariant found ==> forall j :: 0 <= j < index && centres[j].Some? ==>
                            minDistance <= Abs(centres[j].value - containerCentre)
                            && (j < closest ==> minDistance < Abs(centres[j].value - containerCentre))
    {
      if centres[index].Some? {
        var distance := Abs(centres[index].value - containerCentre);
        if !found || distance < minDistance {
          minDistance := distance;
          closest := index;
          found := true;
        }
      }
      index := index + 1;
    }
  }

  /** Only one index can be the closest. */
  lemma ClosestIsUnique(centres: seq<Option<real>>, containerCentre: real, k1: nat, k2: nat)
    requires IsClosest(centres, containerCentre, k1) && IsClosest(centres, containerCentre, k2)
    ensures k1 == k2
  {
  }

  /** The look-ahead rule: fetch the next page when the active index is
      within PRELOAD_THRESHOLD of the end, more pages exist, and nothing is
      being fetched. */
  predicate ShouldPrefetch(index: int, length: nat, hasMore: bool, isLoadingMore: bool, isLoading: bool) {
    index >= length - PRELOAD_THRESHOLD && hasMore && !isLoadingMore && !isLoading
  }

  /** With ten items, index 7 triggers the next page and index 6 does not;
      once the in-flight flag is set, nothing triggers. */
  lemma PrefetchThreshold()
    ensures ShouldPrefetch(7, 10, true, false, false)
    ensures !ShouldPrefetch(6, 10, true, false, false)
    ensures forall i: int, n: nat, more: bool, loading: bool :: !ShouldPrefetch(i, n, more, true, loading)
  {
  }

  // ================================================================ media URL and counts

  /** `VITE_API_URL` with its first "/api" removed, or the local default
      when the variable is unset or that leaves nothing. */
  function ApiBase(viteApiUrl: Option<string>): (base: string)
    ensures base != ""
    ensures viteApiUrl.None? ==> base == DEFAULT_API_BASE
    ensures viteApiUrl.Some? && !Contains(viteApiUrl.value, "/api") && viteApiUrl.value != "" ==> base == viteApiUrl.value
    ensures viteApiUrl == Some("") ==> base == DEFAULT_API_BASE
    ensures viteApiUrl.Some? && Contains(viteApiUrl.value, "/api") ==>
              var u := viteApiUrl.value;
              var i := IndexOf(u, "/api");
              var stripped := u[..i] + u[i + |"/api"|..];
              (stripped == "" ==> base == DEFAULT_API_BASE) && (stripped != "" ==> base == stripped)
  {
    match viteApiUrl
    case None => DEFAULT_API_BASE
    case Some(u) =>
      var stripped := ReplaceFirst(u, "/api", "");
      if stripped == "" then DEFAULT_API_BASE else stripped
  }

  predicate IsAbsoluteUrl(u: string) {
    StartsWith(u, "http://") || StartsWith(u, "https://")
  }

  /** `getVideoUrl`: absolute URLs pass through; anything else is a file
      under the server's `/downloads/`. */
  function VideoUrl(url: string, viteApiUrl: Option<string>): (r: string)
    ensures IsAbsoluteUrl(url) ==> r == url
    ensures !IsAbsoluteUrl(url) ==> |r| > |url| && r[|r| - |url|..] == url
    ensures !IsAbsoluteUrl(url) ==>
              var prefix := ApiBase(viteApiUrl) + DOWNLOADS_PATH;
              StartsWith(r, prefix) && r[|prefix|..] == url
  {
    if IsAbsoluteUrl(url) then url
    else
      var prefix := ApiBase(viteApiUrl) + DOWNLOADS_PATH;
      assert (prefix + url)[..|prefix|] == prefix;
      prefix + url
  }

  lemma StartsWithAppend(s: string, t: string, p: string)
    requires StartsWith(s, p)
    ensures StartsWith(s + t, p)
  {
    assert (s + t)[..|p|] == s[..|p|];
  }

  /** With an absolute base, every resolved URL is absolute, so resolving
      again changes nothing. */
  lemma VideoUrlIdempotent(url: string, viteApiUrl: Option<string>)
    requires IsAbsoluteUrl(ApiBase(viteApiUrl))
    ensures IsAbsoluteUrl(VideoUrl(url, viteApiUrl))
    ensures VideoUrl(VideoUrl(url, viteApiUrl), viteApiUrl) == VideoUrl(url, viteApiUrl)
  {
    var base := ApiBase(viteApiUrl);
    if !IsAbsoluteUrl(url) {
      if StartsWith(base, "http://") {
        StartsWithAppend(base, "/downloads/" + url, "http://");
      } else {
        StartsWithAppend(base, "/downloads/" + url, "https://");
      }
      assert base + "/downloads/" + url == base + ("/downloads/" + url);
    }
  }

  /** Which display a counter gets; the `toFixed(1)` text is not modelled,
      only the branch and the scaled value it formats. */
  datatype CountForm = Plain(n: int) | Thousands(scaled: real) | Millions(scaled: real)

  /** `formatCount` (and the identical `formatViews` of the video card). */
  function FormatCount(count: int): (f: CountForm)
    ensures f.Plain? <==> count < 1000
    ensures f.Plain? ==> f.n == count
    ensures f.Thousands? ==> 1000 <= count < 1000000 && f.scaled * 1000.0 == count as real
                              && 1.0 <= f.scaled < 1000.0
    ensures f.Millions? <==> count >= 1000000
    ensures f.Millions? ==> f.scaled * 1000000.0 == count as real && f.scaled >= 1.0
  {
    if count >= 1000000 then Millions(count as real / 1000000.0)
    else if count >= 1000 then Thousands(count as real / 1000.0)
    else Plain(count)
  }

  // ================================================================ per-item state

  /** A like or favourite press: the flag flips and the local counter moves
      one step in the matching direction. */
  function Toggle(on: bool, count: int): (r: (bool, int))
    ensures r.0 == !on
    ensures r.1 - count == (if on then -1 else 1)
  {
    (!on, if on then count - 1 else count + 1)
  }

  function ToggleTimes(on: bool, count: int, presses: nat): (bool, int)
    decreases presses
  {
    if presses == 0 then (on, count)
    else var t := Toggle(on, count); ToggleTimes(t.0, t.1, presses - 1)
  }

  /** Starting from "not liked" with the server's count, any number of
      presses leaves the count at that value or one above: an even number
      restores it and it never goes below it. */
  lemma {:induction false} TogglesStayWithinOne(count: int, presses: nat)
    ensures var r := ToggleTimes(false, count, presses);
      r == (if presses % 2 == 0 then (false, count) else (true, count + 1))
    decreases presses
  {
    if presses >= 2 {
      TogglesStayWithinOne(count, presses - 2);
      assert ToggleTimes(false, count, presses) == ToggleTimes(false, count, presses - 2);
    }
  }

  /** The view-recording machine of one item: whether it is active, whether
      its view was recorded during this activation, and whether the
      3000 ms timer is armed. */
  datatype Playback = Playback(active: bool, recorded: bool, armed: bool)

  datatype PlaybackEvent =
    | Activate(playStarted: bool)  // the item became active; whether `play()` resolved
    | Deactivate                   // the item stopped being active
    | TimerFires                   // the armed 3000 ms timer elapsed

  const InitialPlayback := Playback(false, false, false)

  /** Reachable states: an armed timer belongs to an active, not yet
      recorded activation; an inactive item has nothing recorded. */
  predicate PlaybackOk(s: Playback) {
    (s.armed ==> s.active && !s.recorded) && (!s.active ==> !s.recorded && !s.armed)
  }

  /** One event; the second component says whether a view is reported. */
  function PlaybackStep(s: Playback, e: PlaybackEvent): (r: (Playback, bool))
    ensures PlaybackOk(s) ==> PlaybackOk(r.0)
    ensures r.1 ==> e.TimerFires? && s.armed && r.0.recorded
  {
    match e
    case Activate(started) =>
      if s.active then (s, false)
      else (Playback(true, s.recorded, started && !s.recorded), false)
    case Deactivate =>
      if s.active then (Playback(false, false, false), false) else (s, false)
    case TimerFires =>
      if s.armed then (Playback(s.active, true, false), true) else (s, false)
  }

  /** Final state and number of views reported over a series of events. */
  function RunPlayback(s: Playback, es: seq<PlaybackEvent>): (r: (Playback, nat))
    decreases |es|
  {
    if |es| == 0 then (s, 0)
    else
      var step := PlaybackStep(s, es[0]);
      var rest := RunPlayback(step.0, es[1..]);
      (rest.0, rest.1 + if step.1 then 1 else 0)
  }

  /** How many events start an activation episode. */
  function Activations(s: Playback, es: seq<PlaybackEvent>): nat
    decreases |es|
  {
    if |es| == 0 then 0
    else
      (if es[0].Activate? && !s.active then 1 else 0)
      + Activations(PlaybackStep(s, es[0]).0, es[1..])
  }

  /** At most one view is reported per activation episode (plus one for a
      timer already armed at the start). */
  lemma {:induction false} ViewsAtMostActivations(s: Playback, es: seq<PlaybackEvent>)
    requires PlaybackOk(s)
    ensures RunPlayback(s, es).1 <= Activations(s, es) + (if s.armed then 1 else 0)
    decreases |es|
  {
    if |es| > 0 {
      var next := PlaybackStep(s, es[0]).0;
      ViewsAtMostActivations(next, es[1..]);
    }
  }

  /** Two activations that each last past the timer report two views; an
      activation cut short before the timer reports none. */
  lemma ViewOncePerActivation()
    ensures RunPlayback(InitialPlayback, [Activate(true), TimerFires, Deactivate, Activate(true), TimerFires]).1 == 2
    ensures RunPlayback(InitialPlayback, [Activate(true), TimerFires, TimerFires]).1 == 1
    ensures RunPlayback(InitialPlayback, [Activate(true), Deactivate, TimerFires]).1 == 0
    ensures RunPlayback(InitialPlayback, [Activate(false), TimerFires]).1 == 0
  {
  }

  /** The request a recorded view sends. */
  datatype ViewCall = ViewCall(videoId: string, userId: int, watchTime: nat)

  /** One rendered item of the feed. */
  class VideoItem {
    const videoId: string
    var isLiked: bool
    var isFavorited: bool
    var localLikeCount: int
    var localFavoriteCount: int
    var isActive: bool
    var viewRecorded: bool
    var timerArmed: bool

    function State(): Playback
      reads this
    {
      Playback(isActive, viewRecorded, timerArmed)
    }

    constructor (video: Video)
      ensures videoId == video.id
      ensures !isLiked && !isFavorited
      ensures localLikeCount == video.likeCount && localFavoriteCount == video.favoriteCount
      ensures State() == InitialPlayback
    {
      videoId := video.id;
      isLiked, isFavorited := false, false;
      localLikeCount, localFavoriteCount := video.likeCount, video.favoriteCount;
      isActive, viewRecorded, timerArmed := false, false, false;
    }

    /** The like button; the id is what is passed to `onLike`. */
    method Like() returns (likedId: string)
      modifies this`isLiked, this`localLikeCount
      ensures (isLiked, localLikeCount) == Toggle(old(isLiked), old(localLikeCount))
      ensures likedId == videoId
    {
      localLikeCount := if isLiked then localLikeCount - 1 else localLikeCount + 1;
      isLiked := !isLiked;
      likedId := videoId;
    }

    /** The favourite button; the id is what is passed to `onFavorite`. */
    method Favorite() returns (favoritedId: string)
      modifies this`isFavorited, this`localFavoriteCount
      ensures (isFavorited, localFavoriteCount) == Toggle(old(isFavorited), old(localFavoriteCount))
      ensures favoritedId == videoId
    {
      localFavoriteCount := if isFavorited then localFavoriteCount - 1 else localFavoriteCount + 1;
      isFavorited := !isFavorited;
      favoritedId := videoId;
    }

    /** The playback effect, which re-runs when `isActive` changes: its
        cleanup cancels the timer, then becoming active arms a new timer
        unless a view was already recorded or `play()` failed, and becoming
        inactive forgets the recorded view. */
    method SetActive(active: bool, playStarted: bool)
      modifies this`isActive, this`viewRecorded, this`timerArmed
      ensures State() == PlaybackStep(old(State()), if active then Activate(playStarted) else Deactivate).0
    {
      if active != isActive {
        timerArmed := false;
        if active {
          timerArmed := playStarted && !viewRecorded;
        } else {
          viewRecorded := false;
        }
        isActive := active;
      }
    }

    /** The armed timer elapses: the view is recorded once. */
    method FireTimer(userId: int) returns (call: Option<ViewCall>)
      modifies this`viewRecorded, this`timerArmed
      ensures var step := PlaybackStep(old(State()), TimerFires);
        State() == step.0 && call.Some? == step.1
      ensures call.Some? ==> call.value == ViewCall(videoId, userId, VIEW_WATCH_TIME)
    {
      if timerArmed {
        call := Some(ViewCall(videoId, userId, VIEW_WATCH_TIME));
        viewRecorded := true;
        timerArmed := false;
      } else {
        call := None;
      }
    }
  }

  // ================================================================ the feed

  class Feed {
    var allVideos: seq<Video>
    var page: nat
    var activeVideoIndex: nat
    var isMuted: bool
    var initialScrollDone: bool
    var isLoadingMore: bool

    constructor ()
      ensures allVideos == [] && page == 1 && activeVideoIndex == 0
      ensures isMuted && !initialScrollDone && !isLoadingMore
    {
      allVideos := [];
      page := 1;
      activeVideoIndex := 0;
      isMuted := true;
      initialScrollDone := false;
      isLoadingMore := false;
    }

    /** Which rendered items get `isActive`: exactly the one at the active index. */
    function ActiveFlags(): (flags: seq<bool>)
      reads this
      ensures |flags| == |allVideos|
      ensures forall i, j :: 0 <= i < j < |flags| ==> !(flags[i] && flags[j])
      ensures activeVideoIndex < |allVideos| ==> flags[activeVideoIndex]
      ensures forall i :: 0 <= i < |flags| ==> (flags[i] <==> i == activeVideoIndex)
    {
      var active := activeVideoIndex;
      seq(|allVideos|, i => i == active)
    }

    /** A page of feed data arrived. */
    method ReceivePage(data: seq<Video>)
      modifies this`allVideos, this`isLoadingMore
      ensures allVideos == MergePage(old(allVideos), data)
      ensures !isLoadingMore
    {
      allVideos := MergePage(allVideos, data);
      isLoadingMore := false;
    }

    /** The single-video query for the deep link resolved (or changed). */
    method ReceiveLinkedVideo(target: Option<string>, fetched: Option<Video>)
      modifies this`allVideos
      ensures allVideos == Reconcile(old(allVideos), fetched, target, initialScrollDone)
    {
      allVideos := Reconcile(allVideos, fetched, target, initialScrollDone);
    }

    /** The deep-link scroll: once the linked item is in the list and its
        element is rendered, it becomes active and the scroll is marked
        done; `clearParams` says the URL parameters are to be cleared. */
    method ScrollToLinked(target: Option<string>, elementRendered: bool) returns (clearParams: bool)
      modifies this`activeVideoIndex, this`initialScrollDone
      ensures var runs := TruthyId(target) && old(allVideos) != [] && !old(initialScrollDone)
                          && FindIndex(allVideos, target.value) != -1 && elementRendered;
        && clearParams == runs
        && (runs ==> activeVideoIndex == FindIndex(allVideos, target.value) && initialScrollDone)
        && (!runs ==> activeVideoIndex == old(activeVideoIndex) && initialScrollDone == old(initialScrollDone))
    {
      clearParams := false;
      if !TruthyId(target) || |allVideos| == 0 || initialScrollDone {
        return;
      }
      var videoIndex := FindIndex(allVideos, target.value);
      if videoIndex != -1 && elementRendered {
        activeVideoIndex := videoIndex;
        initialScrollDone := true;
        clearParams := true;
      }
    }

    /** The scroll handler: pick the item nearest the centre and maybe ask
        for the next page. `fetched` is true when `page` advanced. */
    method Scroll(centres: seq<Option<real>>, containerCentre: real, hasMore: bool, isLoading: bool)
      returns (fetched: bool)
      requires |centres| == |allVideos|
      modifies this`activeVideoIndex, this`page, this`isLoadingMore
      ensures allVideos == [] ==> !fetched && activeVideoIndex == old(activeVideoIndex)
                                  && page == old(page) && isLoadingMore == old(isLoadingMore)
      ensures allVideos != [] ==>
        && IsClosest(centres, containerCentre, activeVideoIndex)
        && fetched == ShouldPrefetch(activeVideoIndex, |allVideos|, hasMore, old(isLoadingMore), isLoading)
      ensures page == old(page) + (if fetched then 1 else 0)
      ensures isLoadingMore == (old(isLoadingMore) || fetched)
    {
      fetched := false;
      if |allVideos| == 0 {
        return;
      }
      var closestIndex := ClosestIndex(centres, containerCentre);
      activeVideoIndex := closestIndex;
      if ShouldPrefetch(closestIndex, |allVideos|, hasMore, isLoadingMore, isLoading) {
        isLoadingMore := true;
        page := page + 1;
        fetched := true;
      }
    }

    /** An intersection-observer entry for the item at `index`. */
    method Intersect(index: nat, isIntersecting: bool, ratio: real)
      modifies this`activeVideoIndex
      ensures activeVideoIndex == if isIntersecting && ratio > INTERSECTION_THRESHOLD then index
                                  else old(activeVideoIndex)
    {
      if isIntersecting && ratio > INTERSECTION_THRESHOLD {
        activeVideoIndex := index;
      }
    }

    method ToggleMute()
      modifies this`isMuted
      ensures isMuted == !old(isMuted)
    {
      isMuted := !isMuted;
    }
  }

  /** A second scroll before the page arrives cannot advance `page` again. */
  method ScrollTwice(feed: Feed, centres: seq<Option<real>>, c: real, hasMore: bool, isLoading: bool)
    requires |centres| == |feed.allVideos|
    modifies feed
    ensures feed.page <= old(feed.page) + 1
  {
    var first := feed.Scroll(centres, c, hasMore, isLoading);
    var second := feed.Scroll(centres, c, hasMore, isLoading);
    assert !(first && second);
  }
}
