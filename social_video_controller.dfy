/** The interaction handlers of the video API: views, likes, dislikes,
    favourites and shares update per-user id lists and their paired
    counters on a stored document; listings share one piece of pagination
    arithmetic; the feed query admits only visible videos; an update
    request has its protected fields stripped.

    A handler receives the looked-up document (`null` when the id matched
    nothing) and the request values; the database round trip is not part
    of the model. User ids are integers; `None` is an absent `user_id`. */
module SocialVideoController {
  import opened Wrappers
  import opened SocialVideoModel

  // ================================================================ per-user lists

  /** `xs.indexOf(x)` */
  function IndexOfItem<T(==)>(xs: seq<T>, x: T): (r: int)
    ensures r == -1 <==> x !in xs
    ensures r != -1 ==> 0 <= r < |xs| && xs[r] == x && x !in xs[..r]
    decreases |xs|
  {
    if |xs| == 0 then -1
    else if xs[0] == x then 0
    else
      var k := IndexOfItem(xs[1..], x);
      if k == -1 then -1
      else
        assert xs[..k + 1] == [xs[0]] + xs[1..][..k];
        k + 1
  }

  /** `xs.splice(xs.indexOf(x), 1)` when `x` is present: drops the first
      occurrence and nothing else. */
  function RemoveFirst<T(==)>(xs: seq<T>, x: T): (r: seq<T>)
    ensures x !in xs ==> r == xs
    ensures x in xs ==> |r| == |xs| - 1 && multiset(r) == multiset(xs) - multiset{x}
  {
    var i := IndexOfItem(xs, x);
    if i == -1 then xs
    else
      assert xs == xs[..i] + [xs[i]] + xs[i + 1..];
      xs[..i] + xs[i + 1..]
  }

  lemma RemoveFirstDistinct<T>(xs: seq<T>, x: T)
    requires Distinct(xs)
    ensures Distinct(RemoveFirst(xs, x))
    ensures x !in RemoveFirst(xs, x)
    ensures forall y :: y != x ==> (y in RemoveFirst(xs, x) <==> y in xs)
  {
    if x in xs {
      var i := IndexOfItem(xs, x);
      DropAtDistinct(xs, i);
      DropAtDropsIt(xs, i);
      DropAtKeepsOthers(xs, i);
    }
  }

  /** The list without its element at `i`. */
  function DropAt<T>(xs: seq<T>, i: nat): (r: seq<T>)
    requires i < |xs|
    ensures |r| == |xs| - 1
    ensures forall j :: 0 <= j < |r| ==> r[j] == xs[if j < i then j else j + 1]
  {
    xs[..i] + xs[i + 1..]
  }

  lemma DropAtDistinct<T>(xs: seq<T>, i: nat)
    requires i < |xs| && Distinct(xs)
    ensures Distinct(xs[..i] + xs[i + 1..])
  {
    var r := DropAt(xs, i);
    forall a, b | 0 <= a < b < |r| ensures r[a] != r[b] {
      var a' := if a < i then a else a + 1;
      var b' := if b < i then b else b + 1;
      assert r[a] == xs[a'] && r[b] == xs[b'];
    }
  }

  lemma DropAtDropsIt<T>(xs: seq<T>, i: nat)
    requires i < |xs| && Distinct(xs)
    ensures xs[i] !in xs[..i] + xs[i + 1..]
  {
    var r := DropAt(xs, i);
    forall j | 0 <= j < |r| ensures r[j] != xs[i] {
      var j' := if j < i then j else j + 1;
      assert r[j] == xs[j'];
    }
  }

  lemma DropAtKeepsOthers<T>(xs: seq<T>, i: nat)
    requires i < |xs|
    ensures forall y :: y != xs[i] ==> (y in xs[..i] + xs[i + 1..] <==> y in xs)
  {
    var r := DropAt(xs, i);
    forall y | y in xs && y != xs[i] ensures y in r {
      var j :| 0 <= j < |xs| && xs[j] == y;
      if j < i { assert r[j] == y; } else { assert r[j - 1] == y; }
    }
    forall y | y in r ensures y in xs {
      var j :| 0 <= j < |r| && r[j] == y;
      assert xs[if j < i then j else j + 1] == y;
    }
  }

  lemma RemoveFirstAppended<T>(xs: seq<T>, x: T)
    requires x !in xs
    ensures RemoveFirst(xs + [x], x) == xs
  {
    var ys := xs + [x];
    assert ys[..|xs|] == xs;
    assert IndexOfItem(ys, x) == |xs|;
  }

  lemma AppendDistinct<T>(xs: seq<T>, x: T)
    requires Distinct(xs) && x !in xs
    ensures Distinct(xs + [x])
  {
  }

  /** `if (!xs.includes(x)) xs.push(x)`: records each value at most once. */
  function AddOnce<T(==,!new)>(xs: seq<T>, x: T): (r: seq<T>)
    ensures x in r
    ensures forall y :: y in r <==> y in xs || y == x
    ensures |r| == |xs| + (if x in xs then 0 else 1)
  {
    if x in xs then xs else xs + [x]
  }

  /** Adding the same value again changes nothing, and a duplicate-free
      list stays duplicate-free. */
  lemma AddOnceIdempotent<T(!new)>(xs: seq<T>, x: T)
    ensures AddOnce(AddOnce(xs, x), x) == AddOnce(xs, x)
    ensures Distinct(xs) ==> Distinct(AddOnce(xs, x))
  {
  }

  /** Remove the first occurrence if present, else append. */
  function ToggleMember<T(==,!new)>(xs: seq<T>, x: T): (r: seq<T>)
    ensures Distinct(xs) ==> Distinct(r) && (x in r <==> x !in xs)
    ensures forall y :: y != x ==> (y in r <==> y in xs)
    ensures |r| == |xs| + (if x in xs then -1 else 1)
  {
    if x in xs then
      assert forall y :: y != x && y in xs ==> y in multiset(xs) - multiset{x};
      assert Distinct(xs) ==> Distinct(RemoveFirst(xs, x)) && x !in RemoveFirst(xs, x) by {
        if Distinct(xs) { RemoveFirstDistinct(xs, x); }
      }
      RemoveFirst(xs, x)
    else xs + [x]
  }

  /** Toggling twice from "absent" restores the list exactly. */
  lemma ToggleMemberTwice<T(!new)>(xs: seq<T>, x: T)
    requires x !in xs
    ensures ToggleMember(ToggleMember(xs, x), x) == xs
  {
    RemoveFirstAppended(xs, x);
  }

  // ================================================================ likes and dislikes

  datatype Reactions = Reactions(likes: seq<int>, dislikes: seq<int>)

  /** No user appears twice in a list, and none appears in both. */
  predicate ReactionsOk(r: Reactions) {
    LikesDislikesOk(r.likes, r.dislikes)
  }

  /** The like toggle: unlike if liked, otherwise like and drop any dislike. */
  function Like(r: Reactions, u: int): Reactions {
    if u in r.likes then Reactions(RemoveFirst(r.likes, u), r.dislikes)
    else Reactions(r.likes + [u], RemoveFirst(r.dislikes, u))
  }

  /** The dislike toggle: undislike if disliked, otherwise dislike and drop any like. */
  function Dislike(r: Reactions, u: int): Reactions {
    if u in r.dislikes then Reactions(r.likes, RemoveFirst(r.dislikes, u))
    else Reactions(RemoveFirst(r.likes, u), r.dislikes + [u])
  }

  function Mirror(r: Reactions): Reactions {
    Reactions(r.dislikes, r.likes)
  }

  /** Disliking is liking with the two lists exchanged. */
  lemma DislikeIsMirroredLike(r: Reactions, u: int)
    ensures Dislike(r, u) == Mirror(Like(Mirror(r), u))
  {
  }

  /** A like keeps the lists well formed, flips the user's like, always
      leaves them out of the dislikes, and touches no other user. */
  lemma LikeEffect(r: Reactions, u: int)
    requires ReactionsOk(r)
    ensures var n := Like(r, u);
      && ReactionsOk(n)
      && (u in n.likes <==> u !in r.likes)
      && u !in n.dislikes
      && (forall v :: v != u ==> (v in n.likes <==> v in r.likes) && (v in n.dislikes <==> v in r.dislikes))
  {
    RemoveFirstDistinct(r.likes, u);
    RemoveFirstDistinct(r.dislikes, u);
  }

  /** The mirror statement for dislikes. */
  lemma DislikeEffect(r: Reactions, u: int)
    requires ReactionsOk(r)
    ensures var n := Dislike(r, u);
      && ReactionsOk(n)
      && (u in n.dislikes <==> u !in r.dislikes)
      && u !in n.likes
      && (forall v :: v != u ==> (v in n.likes <==> v in r.likes) && (v in n.dislikes <==> v in r.dislikes))
  {
    RemoveFirstDistinct(r.likes, u);
    RemoveFirstDistinct(r.dislikes, u);
  }

  /** Liking twice from neutral restores both lists. */
  lemma LikeTwiceRestores(r: Reactions, u: int)
    requires u !in r.likes && u !in r.dislikes
    ensures Like(Like(r, u), u) == r
  {
    RemoveFirstAppended(r.likes, u);
  }

  // ================================================================ handlers

  datatype ReplyData =
    | NoData
    | ViewData(viewCount: int, lastViewAt: Option<int>, peakViews: int, totalWatchTime: int)
    | LikeData(likeCount: int, dislikeCount: int, isLiked: bool)
    | DislikeData(likeCount: int, dislikeCount: int, isDisliked: bool)
    | FavoriteData(favoriteCount: int, isFavorite: bool)
    | ShareData(shareCount: int)

  datatype Reply = Reply(status: nat, message: string, data: ReplyData)

  const USER_REQUIRED := Reply(400, "user_id is required", NoData)
  const NOT_FOUND := Reply(404, "Video not found", NoData)

  /** JavaScript truthiness of a numeric `user_id`. */
  predicate Truthy(userId: Option<int>) {
    userId.Some? && userId.value != 0
  }

  /** The replies a handler gives before touching a document: a missing
      `user_id` is refused before the lookup (for the handlers that need a
      user), then an unknown video id. `None` means the handler goes on
      with the found document. */
  function Precheck(needsUser: bool, userId: Option<int>, found: bool): (r: Option<Reply>)
    ensures needsUser && !Truthy(userId) ==> r == Some(USER_REQUIRED)
    ensures (!needsUser || Truthy(userId)) && !found ==> r == Some(NOT_FOUND)
    ensures r.None? <==> found && (!needsUser || Truthy(userId))
  {
    if needsUser && !Truthy(userId) then Some(USER_REQUIRED)
    else if !found then Some(NOT_FOUND)
    else None
  }

  /** The first view by a user adds them to the viewers and counts them. */
  method CountViewer(video: SocialVideo, userId: Option<int>)
    modifies video`views, video`viewCount
    ensures video.views == AddOnce(old(video.views), userId)
    ensures video.viewCount == old(video.viewCount) + (if userId in old(video.views) then 0 else 1)
    ensures old(video.Consistent()) ==> video.Consistent()
  {
    AddOnceIdempotent(video.views, userId);
    if userId !in video.views {
      video.views, video.viewCount := video.views + [userId], video.viewCount + 1;
    }
  }

  /** A view: one per user (an absent id counts as one more viewer), watch
      time accumulates, and the peak follows the view count up. */
  method RecordView(video: SocialVideo, userId: Option<int>, watchTime: Option<int>, now: int)
    returns (reply: Reply)
    modifies video`views, video`viewCount, video`lastViewAt, video`totalWatchTime
    modifies video`peakViews, video`peakViewsDate, video`updatedAt
    ensures video.views == AddOnce(old(video.views), userId)
    ensures video.viewCount == old(video.viewCount) + (if userId in old(video.views) then 0 else 1)
    ensures video.totalWatchTime == old(video.totalWatchTime) + watchTime.GetOr(0)
    ensures video.lastViewAt == Some(now)
    ensures video.peakViews == (if video.viewCount > old(video.peakViews) then video.viewCount else old(video.peakViews))
    ensures video.peakViewsDate == (if video.viewCount > old(video.peakViews) then Some(now) else old(video.peakViewsDate))
    ensures video.updatedAt == now
    ensures reply == Reply(200, "View recorded",
                           ViewData(video.viewCount, video.lastViewAt, video.peakViews, video.totalWatchTime))
    ensures old(video.Consistent()) ==> video.Consistent()
  {
    CountViewer(video, userId);
    video.lastViewAt := Some(now);
    video.totalWatchTime := video.totalWatchTime + watchTime.GetOr(0);
    if video.viewCount > video.peakViews {
      video.peakViews := video.viewCount;
      video.peakViewsDate := Some(now);
    }
    video.Save(now);
    reply := Reply(200, "View recorded",
                   ViewData(video.viewCount, video.lastViewAt, video.peakViews, video.totalWatchTime));
  }

  /** Toggle user `u`'s like; a new like removes an existing dislike. */
  method LikeVideo(video: SocialVideo, u: int, now: int) returns (reply: Reply)
    modifies video`likes, video`likeCount, video`dislikes, video`dislikeCount, video`updatedAt
    ensures Reactions(video.likes, video.dislikes) == Like(Reactions(old(video.likes), old(video.dislikes)), u)
    ensures video.likeCount == old(video.likeCount) + (if u in old(video.likes) then -1 else 1)
    ensures video.dislikeCount == old(video.dislikeCount)
                                  - (if u !in old(video.likes) && u in old(video.dislikes) then 1 else 0)
    ensures video.updatedAt == now
    ensures reply == Reply(200, if u in old(video.likes) then "Like removed" else "Video liked",
                           LikeData(video.likeCount, video.dislikeCount, u !in old(video.likes)))
    ensures old(video.Consistent()) ==> video.Consistent()
  {
    var likeIndex := IndexOfItem(video.likes, u);
    var dislikeIndex := IndexOfItem(video.dislikes, u);
    var likes, likeCount, dislikes, dislikeCount := video.likes, video.likeCount, video.dislikes, video.dislikeCount;
    if likeIndex > -1 {
      likes := RemoveFirst(likes, u);
      likeCount := likeCount - 1;
    } else {
      likes := likes + [u];
      likeCount := likeCount + 1;
      if dislikeIndex > -1 {
        dislikes := RemoveFirst(dislikes, u);
        dislikeCount := dislikeCount - 1;
      }
    }
    assert Reactions(likes, dislikes) == Like(Reactions(video.likes, video.dislikes), u);
    ghost var wasConsistent := video.Consistent();
    if wasConsistent {
      LikeEffect(Reactions(video.likes, video.dislikes), u);
    }
    video.likes, video.likeCount, video.dislikes, video.dislikeCount := likes, likeCount, dislikes, dislikeCount;
    video.Save(now);
    reply := Reply(200, if likeIndex > -1 then "Like removed" else "Video liked",
                   LikeData(video.likeCount, video.dislikeCount, likeIndex == -1));
  }

  /** Toggle user `u`'s dislike; a new dislike removes an existing like. */
  method DislikeVideo(video: SocialVideo, u: int, now: int) returns (reply: Reply)
    modifies video`likes, video`likeCount, video`dislikes, video`dislikeCount, video`updatedAt
    ensures Reactions(video.likes, video.dislikes) == Dislike(Reactions(old(video.likes), old(video.dislikes)), u)
    ensures video.dislikeCount == old(video.dislikeCount) + (if u in old(video.dislikes) then -1 else 1)
    ensures video.likeCount == old(video.likeCount)
                               - (if u !in old(video.dislikes) && u in old(video.likes) then 1 else 0)
    ensures video.updatedAt == now
    ensures reply == Reply(200, if u in old(video.dislikes) then "Dislike removed" else "Video disliked",
                           DislikeData(video.likeCount, video.dislikeCount, u !in old(video.dislikes)))
    ensures old(video.Consistent()) ==> video.Consistent()
  {
    var dislikeIndex := IndexOfItem(video.dislikes, u);
    var likeIndex := IndexOfItem(video.likes, u);
    var likes, likeCount, dislikes, dislikeCount := video.likes, video.likeCount, video.dislikes, video.dislikeCount;
    if dislikeIndex > -1 {
      dislikes := RemoveFirst(dislikes, u);
      dislikeCount := dislikeCount - 1;
    } else {
      dislikes := dislikes + [u];
      dislikeCount := dislikeCount + 1;
      if likeIndex > -1 {
        likes := RemoveFirst(likes, u);
        likeCount := likeCount - 1;
      }
    }
    assert Reactions(likes, dislikes) == Dislike(Reactions(video.likes, video.dislikes), u);
    ghost var wasConsistent := video.Consistent();
    if wasConsistent {
      DislikeEffect(Reactions(video.likes, video.dislikes), u);
    }
    video.likes, video.likeCount, video.dislikes, video.dislikeCount := likes, likeCount, dislikes, dislikeCount;
    video.Save(now);
    reply := Reply(200, if dislikeIndex > -1 then "Dislike removed" else "Video disliked",
                   DislikeData(video.likeCount, video.dislikeCount, dislikeIndex == -1));
  }

  /** Flip user `u`'s membership in the favourites. */
  method ToggleFavorite(video: SocialVideo, u: int, now: int) returns (reply: Reply)
    modifies video`favorites, video`favoriteCount, video`updatedAt
    ensures video.favorites == ToggleMember(old(video.favorites), u)
    ensures video.favoriteCount == old(video.favoriteCount) + (if u in old(video.favorites) then -1 else 1)
    ensures video.updatedAt == now
    ensures reply == Reply(200, if u in old(video.favorites) then "Removed from favorites" else "Added to favorites",
                           FavoriteData(video.favoriteCount, u !in old(video.favorites)))
    ensures old(video.Consistent()) ==> video.Consistent()
  {
    var favoriteIndex := IndexOfItem(video.favorites, u);
    video.favorites := ToggleMember(video.favorites, u);
    if favoriteIndex > -1 {
      video.favoriteCount := video.favoriteCount - 1;
    } else {
      video.favoriteCount := video.favoriteCount + 1;
    }
    video.Save(now);
    reply := Reply(200, if favoriteIndex > -1 then "Removed from favorites" else "Added to favorites",
                   FavoriteData(video.favoriteCount, favoriteIndex == -1));
  }

  /** Record user `u`'s share once; a repeat share saves nothing. */
  method ShareVideo(video: SocialVideo, u: int, now: int) returns (reply: Reply)
    modifies video`shares, video`shareCount, video`updatedAt
    ensures video.shares == AddOnce(old(video.shares), u)
    ensures video.shareCount == old(video.shareCount) + (if u in old(video.shares) then 0 else 1)
    ensures video.updatedAt == (if u in old(video.shares) then old(video.updatedAt) else now)
    ensures reply == Reply(200, "Share recorded", ShareData(video.shareCount))
    ensures old(video.Consistent()) ==> video.Consistent()
  {
    if u !in video.shares {
      video.shares := video.shares + [u];
      video.shareCount := video.shareCount + 1;
      video.Save(now);
    }
    reply := Reply(200, "Share recorded", ShareData(video.shareCount));
  }

  /** Two likes by the same user on a consistent, neutral document leave
      the reactions and counters as they were. */
  method LikeTwice(video: SocialVideo, u: int, now: int)
    requires video.Consistent() && u !in video.likes && u !in video.dislikes
    modifies video
    ensures video.likes == old(video.likes) && video.dislikes == old(video.dislikes)
    ensures video.likeCount == old(video.likeCount) && video.dislikeCount == old(video.dislikeCount)
    ensures video.Consistent()
  {
    var first := LikeVideo(video, u, now);
    var second := LikeVideo(video, u, now);
    LikeTwiceRestores(Reactions(old(video.likes), old(video.dislikes)), u);
  }

  // ================================================================ listings

  /** Documents to skip for a 1-based page. */
  function Skip(page: int, limit: int): int {
    (page - 1) * limit
  }

  /** Page 1 starts at the beginning and each page starts where the
      previous one ended. */
  lemma PagesTile(page: int, limit: int)
    ensures Skip(1, limit) == 0
    ensures Skip(page + 1, limit) == Skip(page, limit) + limit
  {
  }

  /** `Math.ceil(total / limit)` */
  function TotalPages(total: nat, limit: int): (n: nat)
    requires limit > 0
    ensures total <= n * limit
    ensures n > 0 ==> (n - 1) * limit < total
  {
    var n := (total + limit - 1) / limit;
    assert n * limit <= total + limit - 1 < (n + 1) * limit;
    n
  }

  datatype PageInfo = PageInfo(currentPage: int, totalPages: nat, totalVideos: nat, hasMore: bool)

  function Pagination(page: int, limit: int, total: nat): (p: PageInfo)
    requires limit > 0
    ensures p.currentPage == page && p.totalVideos == total && p.totalPages == TotalPages(total, limit)
    ensures p.hasMore <==> Skip(page + 1, limit) < total
  {
    PageInfo(page, TotalPages(total, limit), total, page * limit < total)
  }

  lemma MulMonotone(a: int, b: int, c: int)
    requires a <= b && c >= 0
    ensures a * c <= b * c
  {
  }

  /** `has_more` is set exactly on pages before the last one. */
  lemma {:induction false} HasMoreBeforeLastPage(page: int, limit: int, total: nat)
    requires limit > 0
    ensures Pagination(page, limit, total).hasMore <==> page < TotalPages(total, limit)
  {
    var n := TotalPages(total, limit);
    if page * limit < total {
      if page >= n {
        MulMonotone(n, page, limit);
      }
    }
    if page < n {
      MulMonotone(page, (n as int) - 1, limit);
    }
  }

  /** The optional filters of the feed query, already parsed; `None` (or an
      empty string) is an absent filter. */
  datatype FeedFilter = FeedFilter(category: Option<string>, platform: Option<string>, userId: Option<int>)

  /** Whether the feed query matches a document. */
  function FeedAdmits(f: FeedFilter, v: SocialVideo): (admit: bool)
    reads v
    ensures admit ==> v.isPublic && !v.isDeleted && !v.isBlocked
    ensures admit && HasText(f.category) ==> v.category == f.category
    ensures admit && HasText(f.platform) ==> v.sourcePlatform == f.platform.value
    ensures admit && f.userId.Some? ==> v.telegramId == f.userId.value
    ensures (&& v.isPublic && !v.isDeleted && !v.isBlocked
             && (HasText(f.category) ==> v.category == f.category)
             && (HasText(f.platform) ==> v.sourcePlatform == f.platform.value)
             && (f.userId.Some? ==> v.telegramId == f.userId.value)) ==> admit
    ensures f == FeedFilter(None, None, None) ==> (admit <==> v.isPublic && !v.isDeleted && !v.isBlocked)
  {
    && v.isPublic && !v.isDeleted && !v.isBlocked
    && (HasText(f.category) ==> v.category == f.category)
    && (HasText(f.platform) ==> v.sourcePlatform == f.platform.value)
    && (f.userId.Some? ==> v.telegramId == f.userId.value)
  }

  /** The query document the feed handler builds: the three fixed flags,
      then one equality per filter given. */
  function FeedQuery(f: FeedFilter): (q: map<string, FieldValue>)
    ensures q.Keys == {"is_public", "is_deleted", "is_blocked"}
                      + (if HasText(f.category) then {"category"} else {})
                      + (if HasText(f.platform) then {"source_platform"} else {})
                      + (if f.userId.Some? then {"user.telegram_id"} else {})
    ensures q["is_public"] == Flag(true) && q["is_deleted"] == Flag(false) && q["is_blocked"] == Flag(false)
  {
    var base := map["is_public" := Flag(true), "is_deleted" := Flag(false), "is_blocked" := Flag(false)];
    var withCategory := if HasText(f.category) then base["category" := Text(f.category.value)] else base;
    var withPlatform :=
      if HasText(f.platform) then withCategory["source_platform" := Text(f.platform.value)] else withCategory;
    if f.userId.Some? then withPlatform["user.telegram_id" := Number(f.userId.value)] else withPlatform
  }

  /** The stored value of a queried path; a missing category is null. */
  function DocumentField(v: SocialVideo, path: string): Option<FieldValue>
    reads v
  {
    if path == "is_public" then Some(Flag(v.isPublic))
    else if path == "is_deleted" then Some(Flag(v.isDeleted))
    else if path == "is_blocked" then Some(Flag(v.isBlocked))
    else if path == "category" then Some(match v.category case Some(c) => Text(c) case None => Null)
    else if path == "source_platform" then Some(Text(v.sourcePlatform))
    else if path == "user.telegram_id" then Some(Number(v.telegramId))
    else None
  }

  /** A document matches an equality query when every queried path holds the queried value. */
  predicate MatchesQuery(q: map<string, FieldValue>, v: SocialVideo)
    reads v
  {
    forall path :: path in q ==> DocumentField(v, path) == Some(q[path])
  }

  /** The feed filter admits exactly the documents the built query matches. */
  lemma FeedAdmitsIffQuery(f: FeedFilter, v: SocialVideo)
    ensures FeedAdmits(f, v) <==> MatchesQuery(FeedQuery(f), v)
  {
    var q := FeedQuery(f);
    if MatchesQuery(q, v) {
      assert DocumentField(v, "is_public") == Some(q["is_public"]);
      assert DocumentField(v, "is_deleted") == Some(q["is_deleted"]);
      assert DocumentField(v, "is_blocked") == Some(q["is_blocked"]);
      if HasText(f.category) {
        assert DocumentField(v, "category") == Some(q["category"]);
      }
      if HasText(f.platform) {
        assert DocumentField(v, "source_platform") == Some(q["source_platform"]);
      }
      if f.userId.Some? {
        assert DocumentField(v, "user.telegram_id") == Some(q["user.telegram_id"]);
      }
    }
  }

  // ================================================================ updates

  /** A value in an update request. */
  datatype FieldValue = Text(s: string) | Number(n: int) | Flag(b: bool) | Time(t: int) | Null | Structured

  const PROTECTED_FIELDS: set<string> := {"_id", "user", "file_id", "url", "created_at"}

  /** The update actually applied: protected fields are dropped, every
      other given field is kept, and `updated_at` is set to now. */
  function StripUpdates(updates: map<string, FieldValue>, now: int): (applied: map<string, FieldValue>)
    ensures forall k :: k in PROTECTED_FIELDS ==> k !in applied
    ensures "updated_at" in applied && applied["updated_at"] == Time(now)
    ensures forall k :: k in updates && k !in PROTECTED_FIELDS && k != "updated_at" ==>
              k in applied && applied[k] == updates[k]
    ensures forall k :: k in applied ==> k == "updated_at" || (k in updates && k !in PROTECTED_FIELDS)
  {
    (map k | k in updates && k !in PROTECTED_FIELDS :: updates[k])["updated_at" := Time(now)]
  }

  /** Stripping an already stripped update changes nothing but the time. */
  lemma StripUpdatesIdempotent(updates: map<string, FieldValue>, now: int, later: int)
    ensures StripUpdates(StripUpdates(updates, now), later) == StripUpdates(updates, later)
  {
  }
}
