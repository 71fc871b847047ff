/** Downloading, uploading and audio extraction requests: URL and user
    validation, platform detection, the unique file name, the document
    built for the database, and the mapping of failure messages to HTTP
    statuses.

    The downloader tool, the file-system check, metadata extraction, the
    clock and the random bytes are inputs: whether the tool failed (and
    with which message), whether the file exists afterwards, the metadata
    obtained (all absent when it could not be read), and the unique name. */
module VideoDownload {
  import opened Wrappers
  import opened Strings
  import opened SocialVideoModel

  // ================================================================ platform

  predicate HitsYouTube(url: string) { Contains(url, "youtube.com") || Contains(url, "youtu.be") }
  predicate HitsFacebook(url: string) { Contains(url, "facebook.com") || Contains(url, "fb.com") }
  predicate HitsTwitter(url: string) { Contains(url, "twitter.com") || Contains(url, "x.com") }

  /** The server's detector: fixed substring tests, first match wins. Each
      platform is chosen exactly when its test hits and every earlier one
      misses. */
  function DetectPlatform(url: string): (p: string)
    ensures p in SCHEMA_PLATFORMS
    ensures p == "youtube" <==> HitsYouTube(url)
    ensures p == "instagram" <==> !HitsYouTube(url) && Contains(url, "instagram.com")
    ensures p == "tiktok" <==> !HitsYouTube(url) && !Contains(url, "instagram.com") && Contains(url, "tiktok.com")
    ensures p == "facebook" <==>
      !HitsYouTube(url) && !Contains(url, "instagram.com") && !Contains(url, "tiktok.com") && HitsFacebook(url)
    ensures p == "twitter" <==>
      && !HitsYouTube(url) && !Contains(url, "instagram.com") && !Contains(url, "tiktok.com")
      && !HitsFacebook(url) && HitsTwitter(url)
    ensures p == "vk" <==> MissesBeforeVk(url) && Contains(url, "vk.com")
    ensures p == "pinterest" <==> MissesBeforeVk(url) && !Contains(url, "vk.com") && Contains(url, "pinterest.com")
    ensures p == "reddit" <==>
      MissesBeforeVk(url) && !Contains(url, "vk.com") && !Contains(url, "pinterest.com") && Contains(url, "reddit.com")
    ensures p == "other" <==>
      && MissesBeforeVk(url)
      && !Contains(url, "vk.com") && !Contains(url, "pinterest.com") && !Contains(url, "reddit.com")
  {
    if HitsYouTube(url) then "youtube"
    else if Contains(url, "instagram.com") then "instagram"
    else if Contains(url, "tiktok.com") then "tiktok"
    else if HitsFacebook(url) then "facebook"
    else if HitsTwitter(url) then "twitter"
    else if Contains(url, "vk.com") then "vk"
    else if Contains(url, "pinterest.com") then "pinterest"
    else if Contains(url, "reddit.com") then "reddit"
    else "other"
  }

  /** The patterns tested before "vk.com" all miss an address that has none of them. */
  predicate MissesBeforeVk(url: string) {
    && !Contains(url, "youtube.com") && !Contains(url, "youtu.be")
    && !Contains(url, "instagram.com") && !Contains(url, "tiktok.com")
    && !Contains(url, "facebook.com") && !Contains(url, "fb.com")
    && !Contains(url, "twitter.com") && !Contains(url, "x.com")
  }

  lemma VkAddressMisses(s: string)
    requires s == "http://vk.com/"
    ensures MissesBeforeVk(s)
  {
    VkAddressMissesFirst(s);
    VkAddressMissesLast(s);
  }

  lemma VkAddressMissesFirst(s: string)
    requires s == "http://vk.com/"
    ensures !Contains(s, "youtube.com") && !Contains(s, "youtu.be")
    ensures !Contains(s, "instagram.com") && !Contains(s, "tiktok.com")
  {
    MissingCharNotContained(s, "youtube.com", 0);
    MissingCharNotContained(s, "youtu.be", 0);
    MissingCharNotContained(s, "instagram.com", 0);
    MissingCharNotContained(s, "tiktok.com", 1);
  }

  lemma VkAddressMissesLast(s: string)
    requires s == "http://vk.com/"
    ensures !Contains(s, "facebook.com") && !Contains(s, "fb.com")
    ensures !Contains(s, "twitter.com") && !Contains(s, "x.com")
  {
    MissingCharNotContained(s, "facebook.com", 0);
    MissingCharNotContained(s, "fb.com", 0);
    MissingCharNotContained(s, "twitter.com", 1);
    MissingCharNotContained(s, "x.com", 0);
  }

  lemma VkAddressHit(s: string)
    requires s == "http://vk.com/"
    ensures Contains(s, "vk.com")
  {
    assert s[7..13] == "vk.com";
    assert OccursAt(s, "vk.com", 7);
  }

  /** A VK address is recognised as "vk". */
  lemma DetectVk(s: string)
    requires s == "http://vk.com/"
    ensures DetectPlatform(s) == "vk"
  {
    VkAddressMisses(s);
    VkAddressHit(s);
  }

  /** The patterns tested before "x.com" all miss "netflix.com". */
  lemma NetflixMisses(s: string)
    requires s == "netflix.com"
    ensures && !Contains(s, "youtube.com") && !Contains(s, "youtu.be")
            && !Contains(s, "instagram.com") && !Contains(s, "tiktok.com")
            && !Contains(s, "facebook.com") && !Contains(s, "fb.com")
            && !Contains(s, "twitter.com")
  {
    NetflixMissesFirst(s);
    NetflixMissesLast(s);
  }

  lemma NetflixMissesFirst(s: string)
    requires s == "netflix.com"
    ensures !Contains(s, "youtube.com") && !Contains(s, "youtu.be")
    ensures !Contains(s, "instagram.com") && !Contains(s, "tiktok.com")
  {
    MissingCharNotContained(s, "youtube.com", 0);
    MissingCharNotContained(s, "youtu.be", 0);
    MissingCharNotContained(s, "instagram.com", 4);
    MissingCharNotContained(s, "tiktok.com", 2);
  }

  lemma NetflixMissesLast(s: string)
    requires s == "netflix.com"
    ensures !Contains(s, "facebook.com") && !Contains(s, "fb.com") && !Contains(s, "twitter.com")
  {
    MissingCharNotContained(s, "facebook.com", 1);
    MissingCharNotContained(s, "fb.com", 1);
    MissingCharNotContained(s, "twitter.com", 1);
  }

  lemma NetflixHit(s: string)
    requires s == "netflix.com"
    ensures Contains(s, "x.com")
  {
    assert s[6..11] == "x.com";
    assert OccursAt(s, "x.com", 6);
  }

  /** Plain substring tests misread hosts: "netflix.com" contains "x.com". */
  lemma NetflixReadAsTwitter(s: string)
    requires s == "netflix.com"
    ensures DetectPlatform(s) == "twitter"
  {
    NetflixMisses(s);
    NetflixHit(s);
  }

  // ================================================================ names

  /** `<timestamp>_<16 hex digits>` from the clock and eight random bytes. */
  function UniqueFilename(timestamp: nat, bytes: seq<bv8>): (name: string)
    requires |bytes| == 8
    ensures |name| == |NatToString(timestamp)| + 17
    ensures name[..|NatToString(timestamp)|] == NatToString(timestamp)
    ensures name[|NatToString(timestamp)|] == '_'
    ensures forall i :: |NatToString(timestamp)| < i < |name| ==> IsLowerHex(name[i])
  {
    NatToString(timestamp) + "_" + HexEncode(bytes)
  }

  /** The timestamp can be read back from the name: everything before the
      underscore is its decimal form. */
  lemma UniqueFilenameTimestamp(timestamp: nat, bytes: seq<bv8>)
    requires |bytes| == 8
    ensures var name := UniqueFilename(timestamp, bytes);
      var k := |NatToString(timestamp)|;
      && (forall i :: 0 <= i < k ==> IsDigit(name[i]))
      && DecimalValue(name[..k]) == timestamp
  {
    DecimalRoundTrip(timestamp);
  }

  // ================================================================ error statuses

  datatype Classified = Classified(status: nat, message: string)

  const TIMEOUT_MESSAGE := "Download timeout - video is too large or server is slow"
  const BAD_URL_MESSAGE := "Invalid or unsupported URL"
  const UNAVAILABLE_MESSAGE := "Video not found or unavailable"
  const PRIVATE_MESSAGE := "Video is private or requires authentication"
  const DOWNLOAD_FAILED_MESSAGE := "Failed to download video"

  predicate MentionsTimeout(m: string) { Contains(m, "timeout") }
  predicate MentionsBadUrl(m: string) { Contains(m, "Invalid URL") || Contains(m, "Unsupported URL") }
  predicate MentionsMissing(m: string) { Contains(m, "not found") || Contains(m, "HTTP Error 404") }
  predicate MentionsPrivate(m: string) { Contains(m, "private") || Contains(m, "login") }

  /** The status and text a failure message is reported with: the first
      matching keyword group decides, and 500 is the fallback. */
  function Classification(m: string): (c: Classified)
    ensures c.status in {408, 400, 404, 403, 500}
    ensures c.status == 408 <==> MentionsTimeout(m)
    ensures c.status == 400 <==> !MentionsTimeout(m) && MentionsBadUrl(m)
    ensures c.status == 404 <==> !MentionsTimeout(m) && !MentionsBadUrl(m) && MentionsMissing(m)
    ensures c.status == 403 <==> !MentionsTimeout(m) && !MentionsBadUrl(m) && !MentionsMissing(m) && MentionsPrivate(m)
    ensures c.status == 500 <==> c.message == DOWNLOAD_FAILED_MESSAGE
  {
    if MentionsTimeout(m) then Classified(408, TIMEOUT_MESSAGE)
    else if MentionsBadUrl(m) then Classified(400, BAD_URL_MESSAGE)
    else if MentionsMissing(m) then Classified(404, UNAVAILABLE_MESSAGE)
    else if MentionsPrivate(m) then Classified(403, PRIVATE_MESSAGE)
    else Classified(500, DOWNLOAD_FAILED_MESSAGE)
  }

  /** The catch block: a default that later tests overwrite. */
  method ClassifyError(message: string) returns (statusCode: nat, errorMessage: string)
    ensures Classified(statusCode, errorMessage) == Classification(message)
  {
    errorMessage := DOWNLOAD_FAILED_MESSAGE;
    statusCode := 500;
    if Contains(message, "timeout") {
      errorMessage := TIMEOUT_MESSAGE;
      statusCode := 408;
    } else if Contains(message, "Invalid URL") || Contains(message, "Unsupported URL") {
      errorMessage := BAD_URL_MESSAGE;
      statusCode := 400;
    } else if Contains(message, "not found") || Contains(message, "HTTP Error 404") {
      errorMessage := UNAVAILABLE_MESSAGE;
      statusCode := 404;
    } else if Contains(message, "private") || Contains(message, "login") {
      errorMessage := PRIVATE_MESSAGE;
      statusCode := 403;
    }
  }

  const FILE_MISSING_ERROR := "Downloaded file not found"

  /** A download that leaves no file is reported as 404. */
  lemma MissingFileIsNotFound()
    ensures Classification(FILE_MISSING_ERROR).status == 404
  {
    MissingFileMisses(FILE_MISSING_ERROR);
    MissingFileHit(FILE_MISSING_ERROR);
  }

  lemma MissingFileMisses(s: string)
    requires s == FILE_MISSING_ERROR
    ensures !MentionsTimeout(s) && !MentionsBadUrl(s)
  {
    MissingCharNotContained(s, "timeout", 2);
    MissingCharNotContained(s, "Invalid URL", 0);
    MissingCharNotContained(s, "Unsupported URL", 0);
  }

  lemma MissingFileHit(s: string)
    requires s == FILE_MISSING_ERROR
    ensures MentionsMissing(s)
  {
    assert s[16..25] == "not found";
    assert OccursAt(s, "not found", 16);
  }

  // ================================================================ refused saves

  /** The text of the enumeration failure after the value. */
  const ENUM_TAIL := "` is not a valid enum value for path `"

  /** A keyword without ':' and '`' that none of the fixed pieces of the
      enumeration-failure message contains, nor the value, is absent from
      the whole message. */
  lemma RefusalFree(v: string, p: string)
    requires |v| > 0 && ':' !in p && '`' !in p && (' ' !in p || 's' !in p)
    requires !Contains(REJECTION_PREFIX, p) && !Contains("source_platform", p)
    requires !Contains(v, p) && !Contains(ENUM_TAIL, p) && !Contains(": `", p) && !Contains("`.", p)
    ensures !Contains(RejectionMessage([NotInEnum("source_platform", v)]), p)
  {
    var sp := "source_platform";
    var t1 := sp + ": `";
    var t2 := t1 + v;
    var t3 := t2 + ENUM_TAIL;
    var t4 := t3 + sp;
    var t5 := t4 + "`.";
    NoneAcross(sp, ": `", p);
    NoneAcross(t1, v, p);
    NoneAcross(t2, ENUM_TAIL, p);
    NoneAcross(t3, sp, p);
    NoneAcross(t4, "`.", p);
    assert t5[0] == 's';
    NoneAcross(REJECTION_PREFIX, t5, p);
    assert ErrorText(NotInEnum("source_platform", v)) == t5;
  }

  /** The same for a single character. */
  lemma RefusalLacks(v: string, c: char)
    requires c != ':' && c != '`' && c != '.' && c != ' '
    requires Lacks(REJECTION_PREFIX, c) && Lacks("source_platform", c) && Lacks(v, c) && Lacks(ENUM_TAIL, c)
    ensures Lacks(RejectionMessage([NotInEnum("source_platform", v)]), c)
  {
    assert ErrorText(NotInEnum("source_platform", v)) == "source_platform" + ": `" + v + ENUM_TAIL + "source_platform" + "`.";
  }

  /** Letters none of the unlisted platform names holds. */
  lemma UnlistedPlatformLetters(v: string)
    requires v in SCHEMA_PLATFORMS && v !in SCHEMA_PLATFORMS_AS_WRITTEN
    ensures Lacks(v, 'I') && Lacks(v, 'U') && Lacks(v, 'H') && Lacks(v, 'g')
  {
  }

  /** The same letters are absent from the fixed pieces of the message. */
  lemma RefusalPiecesLetters()
    ensures forall c | c in "IUHg" ::
      Lacks(REJECTION_PREFIX, c) && Lacks("source_platform", c) && Lacks(ENUM_TAIL, c)
  {
  }

  /** A pattern holding one of those letters (at `k`) is absent from the message. */
  lemma RefusalLacksLetter(v: string, p: string, k: nat)
    requires v in SCHEMA_PLATFORMS && v !in SCHEMA_PLATFORMS_AS_WRITTEN
    requires k < |p| && p[k] in "IUHg"
    ensures !Contains(RejectionMessage([NotInEnum("source_platform", v)]), p)
  {
    UnlistedPlatformLetters(v);
    RefusalPiecesLetters();
    RefusalLacksPattern(v, p, k);
  }

  /** A pattern with a letter (at `k`) that neither the fixed pieces nor
      the value hold is absent from the message. */
  lemma RefusalLacksPattern(v: string, p: string, k: nat)
    requires k < |p| && p[k] != ':' && p[k] != '`' && p[k] != '.' && p[k] != ' '
    requires Lacks(REJECTION_PREFIX, p[k]) && Lacks("source_platform", p[k]) && Lacks(v, p[k])
    requires Lacks(ENUM_TAIL, p[k])
    ensures !Contains(RejectionMessage([NotInEnum("source_platform", v)]), p)
  {
    RefusalLacks(v, p[k]);
    MissingCharNotContained(RejectionMessage([NotInEnum("source_platform", v)]), p, k);
  }

  /** The two halves of the enumeration text. */
  lemma EnumTailHalves()
    ensures ENUM_TAIL == "` is not a valid e" + "num value for path `"
  {
  }

  /** "timeout", "private" and "not found" are absent from the fixed pieces. */
  lemma TimeoutAbsentFromPieces()
    ensures !Contains(REJECTION_PREFIX, "timeout") && !Contains("source_platform", "timeout")
    ensures !Contains(ENUM_TAIL, "timeout")
  {
    EnumTailHalves();
    MissingCharNotContained("` is not a valid e", "timeout", 2);
    MissingCharNotContained("num value for path `", "timeout", 1);
    NoneAcross("` is not a valid e", "num value for path `", "timeout");
    MissingCharNotContained(REJECTION_PREFIX, "timeout", 2);
    MissingCharNotContained("source_platform", "timeout", 1);
  }

  lemma PrivateAbsentFromPieces()
    ensures !Contains(REJECTION_PREFIX, "private") && !Contains("source_platform", "private")
    ensures !Contains(ENUM_TAIL, "private")
  {
    EnumTailHalves();
    MissingCharNotContained("` is not a valid e", "private", 0);
    MissingCharNotContained("num value for path `", "private", 2);
    NoneAcross("` is not a valid e", "num value for path `", "private");
    MissingCharNotContained(REJECTION_PREFIX, "private", 0);
    MissingCharNotContained("source_platform", "private", 2);
  }

  lemma NotFoundAbsentFromPieces()
    ensures !Contains(REJECTION_PREFIX, "not found") && !Contains("source_platform", "not found")
    ensures !Contains(ENUM_TAIL, "not found")
  {
    EnumTailHalves();
    MissingCharNotContained("` is not a valid e", "not found", 4);
    MissingCharNotContained("num value for path `", "not found", 8);
    NoneAcross("` is not a valid e", "num value for path `", "not found");
    MissingCharNotContained(REJECTION_PREFIX, "not found", 6);
    MissingCharNotContained("source_platform", "not found", 0);
  }

  /** Nor does any unlisted platform name hold them. */
  lemma UnlistedPlatformWords(v: string)
    requires v in SCHEMA_PLATFORMS && v !in SCHEMA_PLATFORMS_AS_WRITTEN
    ensures !Contains(v, "timeout") && !Contains(v, "private") && !Contains(v, "not found")
  {
    MissingCharNotContained(v, "timeout", 2);
    MissingCharNotContained(v, "not found", 3);
    if v != "vk" {
      MissingCharNotContained(v, "private", 3);
    }
  }

  /** "timeout", "private" and "not found" are absent from the message. */
  lemma RefusalMentionsNoWord(v: string)
    requires v in SCHEMA_PLATFORMS && v !in SCHEMA_PLATFORMS_AS_WRITTEN
    ensures var m := RejectionMessage([NotInEnum("source_platform", v)]);
      !Contains(m, "timeout") && !Contains(m, "private") && !Contains(m, "not found")
  {
    UnlistedPlatformWords(v);
    TimeoutAbsentFromPieces();
    RefusalFree(v, "timeout");
    PrivateAbsentFromPieces();
    RefusalFree(v, "private");
    NotFoundAbsentFromPieces();
    RefusalFree(v, "not found");
  }

  /** "Invalid URL", "Unsupported URL", "HTTP Error 404" and "login" are
      absent too: each has a letter the message lacks. */
  lemma RefusalMentionsNoCode(v: string)
    requires v in SCHEMA_PLATFORMS && v !in SCHEMA_PLATFORMS_AS_WRITTEN
    ensures var m := RejectionMessage([NotInEnum("source_platform", v)]);
      !Contains(m, "Invalid URL") && !Contains(m, "Unsupported URL") && !Contains(m, "HTTP Error 404")
      && !Contains(m, "login")
  {
    RefusalLacksLetter(v, "Invalid URL", 0);
    RefusalLacksLetter(v, "Unsupported URL", 0);
    RefusalLacksLetter(v, "HTTP Error 404", 0);
    RefusalLacksLetter(v, "login", 2);
  }

  /** The database's refusal of a platform outside the declared
      enumeration matches none of the catch block's keywords, so it is
      reported as the generic 500. */
  lemma UnlistedPlatformRefusalIs500(v: string)
    requires v in SCHEMA_PLATFORMS && v !in SCHEMA_PLATFORMS_AS_WRITTEN
    ensures Classification(RejectionMessage([NotInEnum("source_platform", v)])) == Classified(500, DOWNLOAD_FAILED_MESSAGE)
  {
    RefusalMentionsNoWord(v);
    RefusalMentionsNoCode(v);
  }

  // ================================================================ requests

  /** The `user` object of a request body. */
  datatype UserInput = UserInput(
    telegramId: Option<int>,
    telegramName: Option<string>,
    telegramUsername: Option<string>,
    fileId: Option<string>)

  /** Metadata the downloader reports; every field may be absent. */
  datatype Metadata = Metadata(
    thumbnail: Option<string>,
    title: Option<string>,
    description: Option<string>,
    duration: Option<int>,
    fileSize: Option<int>,
    width: Option<int>,
    height: Option<int>)

  const NO_METADATA := Metadata(None, None, None, None, None, None, None)

  /** Outcome of running the external downloader. */
  datatype ToolResult = ToolFailed(message: string) | ToolSucceeded

  datatype DownloadRequest = DownloadRequest(
    url: Option<string>,
    user: Option<UserInput>,
    isPublic: Option<bool>,
    tags: Option<seq<string>>,
    category: Option<string>)

  /** A URL is accepted when present and containing "http". */
  predicate UrlValid(url: Option<string>) {
    url.Some? && Contains(url.value, "http")
  }

  /** A user needs a truthy `telegram_id` and a non-empty `telegram_name`. */
  predicate UserValid(user: Option<UserInput>) {
    user.Some? && user.value.telegramId.Some? && user.value.telegramId.value != 0
    && HasText(user.value.telegramName)
  }

  /** `x || null` for a string. */
  function OrNull(s: Option<string>): (r: Option<string>)
    ensures HasText(s) ==> r == s
    ensures !HasText(s) ==> r.None?
  {
    if HasText(s) then s else None
  }

  /** `n || 0` for a number. */
  function OrZero(n: Option<int>): (r: int)
    ensures n.Some? ==> r == n.value
    ensures n.None? ==> r == 0
  {
    match n
    case Some(v) => v
    case None => 0
  }

  /** The document a successful download stores. */
  function DownloadRecord(url: string, user: UserInput, uniqueName: string, m: Metadata,
                          isPublic: Option<bool>, tags: Option<seq<string>>, category: Option<string>): NewVideo
  {
    NewVideo(
      telegramId := user.telegramId,
      telegramName := user.telegramName,
      telegramUsername := OrNull(user.telegramUsername),
      url := Some(uniqueName + ".mp4"),
      fileId := Some(if HasText(user.fileId) then user.fileId.value else "local_" + uniqueName),
      thumbnail := Some(if HasText(m.thumbnail) then m.thumbnail.value else ""),
      sourceUrl := Some(url),
      sourcePlatform := Some(DetectPlatform(url)),
      title := OrNull(m.title),
      description := OrNull(m.description),
      duration := Some(OrZero(m.duration)),
      fileSize := Some(OrZero(m.fileSize)),
      width := Some(OrZero(m.width)),
      height := Some(OrZero(m.height)),
      isPublic := Some(isPublic.GetOr(true)),
      tags := Some(tags.GetOr([])),
      category := OrNull(category))
  }

  /** Once URL and user are valid, the stored document satisfies every
      required field and the platform enumeration (as widened). */
  lemma DownloadRecordAccepted(req: DownloadRequest, uniqueName: string, m: Metadata)
    requires UrlValid(req.url) && UserValid(req.user)
    ensures Accepted(DownloadRecord(req.url.value, req.user.value, uniqueName, m, req.isPublic, req.tags, req.category))
  {
    var url := req.url.value;
    assert url != "" by {
      var i :| 0 <= i <= |url| - |"http"| && OccursAt(url, "http", i);
      assert |url| >= 4;
    }
    assert uniqueName + ".mp4" != "" by {
      assert |uniqueName + ".mp4"| >= 4;
    }
    assert "local_" + uniqueName != "" by {
      assert |"local_" + uniqueName| >= 6;
    }
  }

  /** With the enumeration as declared, a valid VK download is refused by
      the database, so it can never be stored. */
  lemma VkDownloadRejectedAsWritten(user: UserInput, uniqueName: string, m: Metadata,
                                    isPublic: Option<bool>, tags: Option<seq<string>>, category: Option<string>)
    ensures !AcceptedAsWritten(DownloadRecord("http://vk.com/", user, uniqueName, m, isPublic, tags, category))
  {
    DetectVk("http://vk.com/");
  }

  /** The saved document and the reply of a download request. */
  datatype DownloadReply = DownloadReply(status: nat, message: string, saved: Option<NewVideo>)

  const INVALID_URL_REPLY := "Invalid URL provided"
  const USER_REQUIRED_REPLY := "User information is required (telegram_id and telegram_name)"

  /** The document built for a request whose URL and user are present. */
  function RequestRecord(req: DownloadRequest, uniqueName: string, m: Metadata): NewVideo
    requires req.url.Some? && req.user.Some?
  {
    DownloadRecord(req.url.value, req.user.value, uniqueName, m, req.isPublic, req.tags, req.category)
  }

  /** With the enumeration as declared, the document of a valid request is
      accepted exactly when the detected platform is listed; otherwise the
      enumeration is its only failure. */
  lemma RecordErrorsAsWritten(req: DownloadRequest, uniqueName: string, m: Metadata)
    requires UrlValid(req.url) && UserValid(req.user)
    ensures var p := DetectPlatform(req.url.value);
      && (AcceptedAsWritten(RequestRecord(req, uniqueName, m)) <==> p in SCHEMA_PLATFORMS_AS_WRITTEN)
      && (p !in SCHEMA_PLATFORMS_AS_WRITTEN ==>
            SchemaErrors(RequestRecord(req, uniqueName, m), SCHEMA_PLATFORMS_AS_WRITTEN)
            == [NotInEnum("source_platform", p)])
  {
    DownloadRecordAccepted(req, uniqueName, m);
  }

  /** The replies given before anything is saved: the two validation
      failures, then a failed tool or a missing file, both reported through
      the catch block's classification. */
  function EarlyDownloadReply(req: DownloadRequest, tool: ToolResult, fileExists: bool): (r: Option<DownloadReply>)
    ensures !UrlValid(req.url) ==> r == Some(DownloadReply(400, INVALID_URL_REPLY, None))
    ensures UrlValid(req.url) && !UserValid(req.user) ==> r == Some(DownloadReply(400, USER_REQUIRED_REPLY, None))
    ensures UrlValid(req.url) && UserValid(req.user) && tool.ToolFailed? ==>
              var c := Classification(tool.message);
              r == Some(DownloadReply(c.status, c.message, None))
    ensures UrlValid(req.url) && UserValid(req.user) && tool.ToolSucceeded? && !fileExists ==>
              r == Some(DownloadReply(404, UNAVAILABLE_MESSAGE, None))
    ensures r.None? <==> UrlValid(req.url) && UserValid(req.user) && tool.ToolSucceeded? && fileExists
  {
    if !UrlValid(req.url) then Some(DownloadReply(400, INVALID_URL_REPLY, None))
    else if !UserValid(req.user) then Some(DownloadReply(400, USER_REQUIRED_REPLY, None))
    else if tool.ToolFailed? then
      var c := Classification(tool.message);
      Some(DownloadReply(c.status, c.message, None))
    else if !fileExists then
      MissingFileIsNotFound();
      var c := Classification(FILE_MISSING_ERROR);
      Some(DownloadReply(c.status, c.message, None))
    else None
  }

  const DOWNLOAD_SAVED_REPLY := "Video downloaded and saved successfully"

  /** The handler as written: the save runs against the declared schema,
      and a refusal is thrown into the catch block like any other failure.
      A video from an unlisted platform is therefore answered with the
      generic 500. */
  method DownloadVideo(req: DownloadRequest, uniqueName: string, tool: ToolResult, fileExists: bool, metadata: Metadata)
    returns (reply: DownloadReply)
    ensures var early := EarlyDownloadReply(req, tool, fileExists); early.Some? ==> reply == early.value
    ensures reply.status == 201 <==>
              && EarlyDownloadReply(req, tool, fileExists).None?
              && AcceptedAsWritten(RequestRecord(req, uniqueName, metadata))
    ensures reply.status == 201 ==>
              reply == DownloadReply(201, DOWNLOAD_SAVED_REPLY, Some(RequestRecord(req, uniqueName, metadata)))
    ensures EarlyDownloadReply(req, tool, fileExists).None? && !AcceptedAsWritten(RequestRecord(req, uniqueName, metadata)) ==>
              var c := Classification(RejectionMessage(SchemaErrors(RequestRecord(req, uniqueName, metadata),
                                                                     SCHEMA_PLATFORMS_AS_WRITTEN)));
              reply == DownloadReply(c.status, c.message, None)
    ensures EarlyDownloadReply(req, tool, fileExists).None? && DetectPlatform(req.url.value) !in SCHEMA_PLATFORMS_AS_WRITTEN ==>
              reply == DownloadReply(500, DOWNLOAD_FAILED_MESSAGE, None)
  {
    if !UrlValid(req.url) {
      return DownloadReply(400, INVALID_URL_REPLY, None);
    }
    if !UserValid(req.user) {
      return DownloadReply(400, USER_REQUIRED_REPLY, None);
    }
    var record := DownloadRecord(req.url.value, req.user.value, uniqueName, metadata, req.isPublic, req.tags, req.category);
    var failure: Option<string> := None;
    if tool.ToolFailed? {
      failure := Some(tool.message);
    } else if !fileExists {
      failure := Some(FILE_MISSING_ERROR);
    } else if !AcceptedAsWritten(record) {
      failure := Some(RejectionMessage(SchemaErrors(record, SCHEMA_PLATFORMS_AS_WRITTEN)));
    }
    if failure.Some? {
      var statusCode, errorMessage := ClassifyError(failure.value);
      RecordErrorsAsWritten(req, uniqueName, metadata);
      var p := DetectPlatform(req.url.value);
      if tool.ToolSucceeded? && fileExists && p !in SCHEMA_PLATFORMS_AS_WRITTEN {
        UnlistedPlatformRefusalIs500(p);
      }
      return DownloadReply(statusCode, errorMessage, None);
    }
    reply := DownloadReply(201, DOWNLOAD_SAVED_REPLY, Some(record));
  }

  /** The handler with the enumeration widened to every detected platform:
      once the tool succeeds and the file exists, the document is always
      stored. */
  method DownloadVideoIntended(req: DownloadRequest, uniqueName: string, tool: ToolResult, fileExists: bool,
                               metadata: Metadata)
    returns (reply: DownloadReply)
    ensures var early := EarlyDownloadReply(req, tool, fileExists); early.Some? ==> reply == early.value
    ensures reply.status == 201 <==> EarlyDownloadReply(req, tool, fileExists).None?
    ensures reply.status == 201 ==>
              && reply == DownloadReply(201, DOWNLOAD_SAVED_REPLY, Some(RequestRecord(req, uniqueName, metadata)))
              && Accepted(reply.saved.value)
  {
    if !UrlValid(req.url) {
      return DownloadReply(400, INVALID_URL_REPLY, None);
    }
    if !UserValid(req.user) {
      return DownloadReply(400, USER_REQUIRED_REPLY, None);
    }
    var failure: Option<string> := None;
    if tool.ToolFailed? {
      failure := Some(tool.message);
    } else if !fileExists {
      failure := Some(FILE_MISSING_ERROR);
    }
    if failure.Some? {
      var statusCode, errorMessage := ClassifyError(failure.value);
      return DownloadReply(statusCode, errorMessage, None);
    }
    var record := DownloadRecord(req.url.value, req.user.value, uniqueName, metadata, req.isPublic, req.tags, req.category);
    DownloadRecordAccepted(req, uniqueName, metadata);
    reply := DownloadReply(201, DOWNLOAD_SAVED_REPLY, Some(record));
  }

  // ================================================================ upload

  /** The file the upload middleware stored. */
  datatype UploadedFile = UploadedFile(filename: string, size: int)

  datatype UploadRequest = UploadRequest(
    file: Option<UploadedFile>,
    user: Option<UserInput>,
    sourceUrl: Option<string>,
    title: Option<string>,
    description: Option<string>,
    tags: Option<seq<string>>,
    category: Option<string>,
    isPublic: Option<bool>)

  /** The platform of an upload: detected from the source URL, "other" without one. */
  function UploadPlatform(sourceUrl: Option<string>): (p: string)
    ensures p in SCHEMA_PLATFORMS
    ensures !HasText(sourceUrl) ==> p == "other"
  {
    if HasText(sourceUrl) then DetectPlatform(sourceUrl.value) else "other"
  }

  function UploadRecord(req: UploadRequest, file: UploadedFile, user: UserInput): NewVideo {
    NewVideo(
      telegramId := user.telegramId,
      telegramName := user.telegramName,
      telegramUsername := OrNull(user.telegramUsername),
      url := Some(file.filename),
      fileId := Some("local_" + file.filename),
      thumbnail := Some(""),
      sourceUrl := OrNull(req.sourceUrl),
      sourcePlatform := Some(UploadPlatform(req.sourceUrl)),
      title := OrNull(req.title),
      description := OrNull(req.description),
      duration := Some(0),
      fileSize := Some(file.size),
      width := Some(0),
      height := Some(0),
      isPublic := Some(req.isPublic.GetOr(true)),
      tags := Some(req.tags.GetOr([])),
      category := OrNull(req.category))
  }

  /** An uploaded document is storable under the declared schema exactly
      when the file has a name, a source URL was given and its platform is
      one of the four listed: the "other" platform chosen for a missing URL
      is never stored, because `source_url` is required. */
  lemma UploadRecordAcceptedIff(req: UploadRequest, file: UploadedFile, user: UserInput)
    requires UserValid(Some(user))
    ensures AcceptedAsWritten(UploadRecord(req, file, user)) <==>
              file.filename != "" && HasText(req.sourceUrl) && UploadPlatform(req.sourceUrl) in SCHEMA_PLATFORMS_AS_WRITTEN
  {
    assert "local_" + file.filename != "" by {
      assert |"local_" + file.filename| >= 6;
    }
  }

  /** Under the widened enumeration only the name and the source URL matter. */
  lemma UploadRecordAcceptedIntended(req: UploadRequest, file: UploadedFile, user: UserInput)
    requires UserValid(Some(user))
    ensures Accepted(UploadRecord(req, file, user)) <==> file.filename != "" && HasText(req.sourceUrl)
  {
    assert "local_" + file.filename != "" by {
      assert |"local_" + file.filename| >= 6;
    }
  }

  datatype UploadReply = UploadReply(status: nat, message: string, saved: Option<NewVideo>)

  const NO_FILE_REPLY := "No video file uploaded"
  const UPLOAD_USER_REPLY := "User information is required"
  const UPLOAD_FAILED_REPLY := "Failed to upload video"
  const UPLOAD_SAVED_REPLY := "Video uploaded successfully"

  /** The handler as written: the declared schema decides the save, and
      every refusal becomes the fixed 500. */
  method UploadVideo(req: UploadRequest) returns (reply: UploadReply)
    ensures req.file.None? ==> reply == UploadReply(400, NO_FILE_REPLY, None)
    ensures req.file.Some? && !UserValid(req.user) ==> reply == UploadReply(400, UPLOAD_USER_REPLY, None)
    ensures req.file.Some? && UserValid(req.user) ==>
              var record := UploadRecord(req, req.file.value, req.user.value);
              if AcceptedAsWritten(record) then reply == UploadReply(201, UPLOAD_SAVED_REPLY, Some(record))
              else reply == UploadReply(500, UPLOAD_FAILED_REPLY, None)
  {
    if req.file.None? {
      return UploadReply(400, NO_FILE_REPLY, None);
    }
    if !UserValid(req.user) {
      return UploadReply(400, UPLOAD_USER_REPLY, None);
    }
    var record := UploadRecord(req, req.file.value, req.user.value);
    if !AcceptedAsWritten(record) {
      return UploadReply(500, UPLOAD_FAILED_REPLY, None);
    }
    reply := UploadReply(201, UPLOAD_SAVED_REPLY, Some(record));
  }

  /** The handler under the widened enumeration. */
  method UploadVideoIntended(req: UploadRequest) returns (reply: UploadReply)
    ensures req.file.None? ==> reply == UploadReply(400, NO_FILE_REPLY, None)
    ensures req.file.Some? && !UserValid(req.user) ==> reply == UploadReply(400, UPLOAD_USER_REPLY, None)
    ensures req.file.Some? && UserValid(req.user) ==>
              var record := UploadRecord(req, req.file.value, req.user.value);
              if Accepted(record) then reply == UploadReply(201, UPLOAD_SAVED_REPLY, Some(record))
              else reply == UploadReply(500, UPLOAD_FAILED_REPLY, None)
  {
    if req.file.None? {
      return UploadReply(400, NO_FILE_REPLY, None);
    }
    if !UserValid(req.user) {
      return UploadReply(400, UPLOAD_USER_REPLY, None);
    }
    var record := UploadRecord(req, req.file.value, req.user.value);
    if !Accepted(record) {
      return UploadReply(500, UPLOAD_FAILED_REPLY, None);
    }
    reply := UploadReply(201, UPLOAD_SAVED_REPLY, Some(record));
  }

  // ================================================================ audio

  datatype AudioReply = AudioReply(status: nat, message: string, fileName: Option<string>)

  method DownloadAudio(url: Option<string>, uniqueName: string, tool: ToolResult, fileExists: bool)
    returns (reply: AudioReply)
    ensures !UrlValid(url) ==> reply == AudioReply(400, INVALID_URL_REPLY, None)
    ensures UrlValid(url) && (tool.ToolFailed? || !fileExists) ==>
              reply == AudioReply(500, "Failed to download audio", None)
    ensures UrlValid(url) && tool.ToolSucceeded? && fileExists ==>
              reply == AudioReply(200, "Audio downloaded successfully", Some(uniqueName + ".mp3"))
  {
    if !UrlValid(url) {
      return AudioReply(400, INVALID_URL_REPLY, None);
    }
    if tool.ToolFailed? || !fileExists {
      return AudioReply(500, "Failed to download audio", None);
    }
    reply := AudioReply(200, "Audio downloaded successfully", Some(uniqueName + ".mp3"));
  }
}
