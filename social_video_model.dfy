/** The stored video document: what a create request supplies, the schema's
    required fields and `source_platform` enumeration, the defaults the
    schema fills in, and the hook that stamps `updated_at` on every save.
    Times are milliseconds since the epoch, passed in by the caller. */
module SocialVideoModel {
  import opened Wrappers
  import opened Strings

  /** The document fields a create request can supply; `None` is an absent
      (or null) value. Counters, lists, flags other than `is_public`,
      dates and analytics are never supplied by the handlers. */
  datatype NewVideo = NewVideo(
    telegramId: Option<int>,
    telegramName: Option<string>,
    telegramUsername: Option<string>,
    url: Option<string>,
    fileId: Option<string>,
    thumbnail: Option<string>,
    sourceUrl: Option<string>,
    sourcePlatform: Option<string>,
    title: Option<string>,
    description: Option<string>,
    duration: Option<int>,
    fileSize: Option<int>,
    width: Option<int>,
    height: Option<int>,
    isPublic: Option<bool>,
    tags: Option<seq<string>>,
    category: Option<string>)

  /** One failed path: a missing required value, or a value outside the
      path's enumeration. */
  datatype SchemaError = Missing(path: string) | NotInEnum(path: string, value: string)

  /** A required string must be present and non-empty. */
  predicate HasText(s: Option<string>) {
    s.Some? && s.value != ""
  }

  /** The platforms as the schema lists them. */
  const SCHEMA_PLATFORMS_AS_WRITTEN: seq<string> := ["instagram", "tiktok", "youtube", "other"]

  /** Every value the server's platform detector can produce. */
  const SCHEMA_PLATFORMS: seq<string> :=
    ["youtube", "instagram", "tiktok", "facebook", "twitter", "vk", "pinterest", "reddit", "other"]

  function RequiredText(path: string, s: Option<string>): (e: seq<SchemaError>)
    ensures e == [] <==> HasText(s)
  {
    if HasText(s) then [] else [Missing(path)]
  }

  function RequiredNumber(path: string, n: Option<int>): (e: seq<SchemaError>)
    ensures e == [] <==> n.Some?
  {
    if n.Some? then [] else [Missing(path)]
  }

  function PlatformErrors(p: Option<string>, platforms: seq<string>): (e: seq<SchemaError>)
    ensures e == [] <==> HasText(p) && p.value in platforms
  {
    if !HasText(p) then [Missing("source_platform")]
    else if p.value in platforms then []
    else [NotInEnum("source_platform", p.value)]
  }

  /** The validation errors, in the schema's path order, given the list of
      admissible platforms. */
  function SchemaErrors(d: NewVideo, platforms: seq<string>): (e: seq<SchemaError>)
    ensures e == [] <==>
      && d.telegramId.Some? && HasText(d.telegramName)
      && HasText(d.url) && HasText(d.fileId) && HasText(d.sourceUrl)
      && HasText(d.sourcePlatform) && d.sourcePlatform.value in platforms
      && d.duration.Some? && d.fileSize.Some? && d.width.Some? && d.height.Some?
  {
    RequiredNumber("user.telegram_id", d.telegramId)
    + RequiredText("user.telegram_name", d.telegramName)
    + RequiredText("url", d.url)
    + RequiredText("file_id", d.fileId)
    + RequiredText("source_url", d.sourceUrl)
    + PlatformErrors(d.sourcePlatform, platforms)
    + RequiredNumber("duration", d.duration)
    + RequiredNumber("file_size", d.fileSize)
    + RequiredNumber("width", d.width)
    + RequiredNumber("height", d.height)
  }

  /** The schema exactly as declared. */
  predicate AcceptedAsWritten(d: NewVideo) {
    SchemaErrors(d, SCHEMA_PLATFORMS_AS_WRITTEN) == []
  }

  /** The schema with the enumeration widened to every detected platform:
      the evidently intended schema, against which the corrected handlers
      are stated. */
  predicate Accepted(d: NewVideo) {
    SchemaErrors(d, SCHEMA_PLATFORMS) == []
  }

  /** Anything the declared schema accepts, the widened one accepts too. */
  lemma AcceptedAsWrittenIsStricter(d: NewVideo)
    ensures AcceptedAsWritten(d) ==> Accepted(d)
  {
  }

  /** The text of a validation failure, in the database library's format. */
  function ErrorText(e: SchemaError): string {
    match e
    case Missing(p) => p + ": Path `" + p + "` is required."
    case NotInEnum(p, v) => p + ": `" + v + "` is not a valid enum value for path `" + p + "`."
  }

  const REJECTION_PREFIX := "SocialVideo validation failed: "

  /** The message of the error a refused save throws: the prefix, then
      the text of each failed path, separated by ", ". */
  function RejectionMessage(errors: seq<SchemaError>): (m: string)
    ensures StartsWith(m, REJECTION_PREFIX)
    ensures errors == [] ==> m == REJECTION_PREFIX
    ensures |errors| == 1 ==> m == REJECTION_PREFIX + ErrorText(errors[0])
    ensures forall i :: 0 <= i < |errors| ==> Contains(m, ErrorText(errors[i]))
  {
    var texts := seq(|errors|, i requires 0 <= i < |errors| => ErrorText(errors[i]));
    var m := REJECTION_PREFIX + Join(texts, ", ");
    assert m[..|REJECTION_PREFIX|] == REJECTION_PREFIX;
    forall i | 0 <= i < |errors| ensures Contains(m, ErrorText(errors[i])) {
      JoinContains(texts, ", ", i);
      ContainsPrepend(REJECTION_PREFIX, Join(texts, ", "), texts[i]);
    }
    m
  }

  /** A stored document. */
  class SocialVideo {
    var telegramId: int
    var telegramName: string
    var telegramUsername: Option<string>
    var url: string
    var fileId: string
    var thumbnail: string
    var sourceUrl: string
    var sourcePlatform: string
    var title: Option<string>
    var description: Option<string>
    var duration: int
    var fileSize: int
    var width: int
    var height: int
    /** Viewers; `None` is a view sent without a user id. */
    var views: seq<Option<int>>
    var viewCount: int
    var likes: seq<int>
    var likeCount: int
    var dislikes: seq<int>
    var dislikeCount: int
    var commentCount: int
    var shares: seq<int>
    var shareCount: int
    var favorites: seq<int>
    var favoriteCount: int
    var isPublic: bool
    var isDeleted: bool
    var isBlocked: bool
    var tags: seq<string>
    var category: Option<string>
    var createdAt: int
    var updatedAt: int
    var publishedAt: int
    var lastViewAt: Option<int>
    var peakViews: int
    var peakViewsDate: Option<int>
    var totalWatchTime: int

    /** Every counter equals the length of its list, no list holds a user
        twice, and nobody both likes and dislikes the video. */
    predicate Consistent()
      reads this
    {
      && Tally(views, viewCount) && Tally(shares, shareCount) && Tally(favorites, favoriteCount)
      && likeCount == |likes| && dislikeCount == |dislikes|
      && LikesDislikesOk(likes, dislikes)
    }

    /** Creating and saving the document from data the schema accepts:
        supplied values are kept and the schema defaults fill the rest. */
    constructor (d: NewVideo, now: int)
      requires AcceptedAsWritten(d)
      ensures telegramId == d.telegramId.value && telegramName == d.telegramName.value
      ensures telegramUsername == d.telegramUsername
      ensures url == d.url.value && fileId == d.fileId.value
      ensures thumbnail == d.thumbnail.GetOr("")
      ensures sourceUrl == d.sourceUrl.value && sourcePlatform == d.sourcePlatform.value
      ensures title == d.title && description == d.description
      ensures duration == d.duration.value && fileSize == d.fileSize.value
      ensures width == d.width.value && height == d.height.value
      ensures views == [] && likes == [] && dislikes == [] && shares == [] && favorites == []
      ensures viewCount == 0 && likeCount == 0 && dislikeCount == 0 && commentCount == 0
      ensures shareCount == 0 && favoriteCount == 0
      ensures isPublic == d.isPublic.GetOr(true) && !isDeleted && !isBlocked
      ensures tags == d.tags.GetOr([]) && category == d.category
      ensures createdAt == now && updatedAt == now && publishedAt == now
      ensures lastViewAt.None? && peakViews == 0 && peakViewsDate.None? && totalWatchTime == 0
      ensures Consistent()
    {
      telegramId := d.telegramId.value;
      telegramName := d.telegramName.value;
      telegramUsername := d.telegramUsername;
      url := d.url.value;
      fileId := d.fileId.value;
      thumbnail := d.thumbnail.GetOr("");
      sourceUrl := d.sourceUrl.value;
      sourcePlatform := d.sourcePlatform.value;
      title := d.title;
      description := d.description;
      duration := d.duration.value;
      fileSize := d.fileSize.value;
      width := d.width.value;
      height := d.height.value;
      views, likes, dislikes, shares, favorites := [], [], [], [], [];
      viewCount, likeCount, dislikeCount, commentCount, shareCount, favoriteCount := 0, 0, 0, 0, 0, 0;
      isPublic := d.isPublic.GetOr(true);
      isDeleted, isBlocked := false, false;
      tags := d.tags.GetOr([]);
      category := d.category;
      createdAt, updatedAt, publishedAt := now, now, now;
      lastViewAt, peakViews, peakViewsDate, totalWatchTime := None, 0, None, 0;
    }

    /** The pre-save hook: every save stamps `updated_at`. */
    method Save(now: int)
      modifies this`updatedAt
      ensures updatedAt == now
    {
      updatedAt := now;
    }
  }

  /** Neither list repeats a user and no user is in both. */
  predicate LikesDislikesOk(likes: seq<int>, dislikes: seq<int>) {
    Distinct(likes) && Distinct(dislikes) && forall u :: u in likes ==> u !in dislikes
  }

  /** A list of distinct user ids and the counter that mirrors its length. */
  predicate Tally<T(==)>(xs: seq<T>, n: int) {
    n == |xs| && Distinct(xs)
  }

  predicate Distinct<T(==)>(xs: seq<T>) {
    forall i, j :: 0 <= i < j < |xs| ==> xs[i] != xs[j]
  }
}
