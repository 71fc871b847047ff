/** The download form: the platform badge shown while typing, the submit
    guard, what is sent, and the message shown afterwards. The request's
    outcome is an input. */
module VideoUploader {
  import opened Wrappers
  import opened Strings
  import VideoDownload

  const ENTER_URL_ALERT: string := "Please enter a video URL"
  const DEFAULT_ERROR: string := "Failed to download video"

  // ---------------------------------------------------------------- badge

  predicate MentionsYouTube(url: string) {
    Contains(url, "youtube.com") || Contains(url, "youtu.be")
  }

  predicate MentionsTwitter(url: string) {
    Contains(url, "twitter.com") || Contains(url, "x.com")
  }

  /** The client's detector: five platforms tested in their own order,
      Instagram first, no answer otherwise. Each label is chosen exactly
      when its test hits and every earlier one misses. */
  function ClientPlatform(url: string): (p: Option<string>)
    ensures p == Some("Instagram") <==> Contains(url, "instagram.com")
    ensures p == Some("TikTok") <==> !Contains(url, "instagram.com") && Contains(url, "tiktok.com")
    ensures p == Some("YouTube") <==>
      !Contains(url, "instagram.com") && !Contains(url, "tiktok.com") && MentionsYouTube(url)
    ensures p == Some("Facebook") <==>
      !Contains(url, "instagram.com") && !Contains(url, "tiktok.com") && !MentionsYouTube(url)
      && Contains(url, "facebook.com")
    ensures p == Some("Twitter/X") <==>
      && !Contains(url, "instagram.com") && !Contains(url, "tiktok.com") && !MentionsYouTube(url)
      && !Contains(url, "facebook.com") && MentionsTwitter(url)
    ensures p.None? <==>
      && !Contains(url, "instagram.com") && !Contains(url, "tiktok.com") && !MentionsYouTube(url)
      && !Contains(url, "facebook.com") && !MentionsTwitter(url)
  {
    if Contains(url, "instagram.com") then Some("Instagram")
    else if Contains(url, "tiktok.com") then Some("TikTok")
    else if MentionsYouTube(url) then Some("YouTube")
    else if Contains(url, "facebook.com") then Some("Facebook")
    else if MentionsTwitter(url) then Some("Twitter/X")
    else None
  }

  /** The badge: no platform for an empty field. */
  function Badge(url: string): (p: Option<string>)
    ensures |url| == 0 ==> p.None?
    ensures |url| > 0 ==> p == ClientPlatform(url)
  {
    if |url| == 0 then None else ClientPlatform(url)
  }

  /** The server's name for a client label. */
  function ServerName(badge: string): string {
    if badge == "Instagram" then "instagram"
    else if badge == "TikTok" then "tiktok"
    else if badge == "YouTube" then "youtube"
    else if badge == "Facebook" then "facebook"
    else "twitter"
  }

  /** Whatever the client recognises the server recognises too. */
  lemma ClientKnownServerKnown(url: string)
    requires ClientPlatform(url).Some?
    ensures VideoDownload.DetectPlatform(url) != "other"
  {
  }

  /** The two detectors name the same platform unless the address mentions
      YouTube (tested first on the server, third here) or "fb.com" (which
      only the server tests, before Twitter). */
  lemma ClientAgreesWithServer(url: string)
    requires ClientPlatform(url).Some?
    requires !MentionsYouTube(url) && !Contains(url, "fb.com")
    ensures ServerName(ClientPlatform(url).value) == VideoDownload.DetectPlatform(url)
  {
  }

  /** A VK address gets no badge, although the server files it under "vk". */
  lemma VkUnknownToClient(s: string)
    requires s == "http://vk.com/"
    ensures ClientPlatform(s).None? && VideoDownload.DetectPlatform(s) == "vk"
  {
    VideoDownload.VkAddressMisses(s);
    VideoDownload.DetectVk(s);
  }

  // ---------------------------------------------------------------- submit

  /** What the request came back with: success, or a failure with the
      server's `message`, if any. */
  datatype Reply = Succeeded | Failed(message: Option<string>)

  datatype Popup = SuccessPopup | ErrorPopup(message: string)

  /** The alert for an empty field, or the request sent and the popup shown. */
  datatype Submission = EmptyAlert(alert: string) | Sent(url: string, isPublic: bool, popup: Popup)

  /** `err?.data?.message || "Failed to download video"` */
  function ErrorMessage(message: Option<string>): (m: string)
    ensures |m| > 0
    ensures message.Some? && |message.value| > 0 ==> m == message.value
    ensures !(message.Some? && |message.value| > 0) ==> m == DEFAULT_ERROR
  {
    if message.Some? && |message.value| > 0 then message.value else DEFAULT_ERROR
  }

  datatype SubmitOutcome = SubmitOutcome(nextUrl: string, submission: Submission)

  function SubmitStep(url: string, isPublic: bool, reply: Reply): SubmitOutcome {
    var trimmed := Trim(url);
    if |trimmed| == 0 then SubmitOutcome(url, EmptyAlert(ENTER_URL_ALERT))
    else match reply
      case Succeeded => SubmitOutcome("", Sent(trimmed, isPublic, SuccessPopup))
      case Failed(m) => SubmitOutcome(url, Sent(trimmed, isPublic, ErrorPopup(ErrorMessage(m))))
  }

  /** The button is disabled while loading or while the field is blank. */
  predicate SubmitDisabled(isLoading: bool, url: string) {
    isLoading || |Trim(url)| == 0
  }

  /** A request goes out exactly when the field holds a non-blank character,
      and what goes out has no blank at either end. */
  lemma SentIffNotBlank(url: string, isPublic: bool, reply: Reply)
    ensures var o := SubmitStep(url, isPublic, reply);
      && (o.submission.Sent? <==> exists i :: 0 <= i < |url| && !IsJsWhitespace(url[i]))
      && (o.submission.Sent? ==> |o.submission.url| > 0
                                  && !IsJsWhitespace(o.submission.url[0])
                                  && !IsJsWhitespace(o.submission.url[|o.submission.url| - 1]))
  {
    var o := SubmitStep(url, isPublic, reply);
    assert o.submission.Sent? <==> |Trim(url)| > 0;
    assert o.submission.Sent? ==> o.submission.url == Trim(url);
    TrimEmptyIffBlank(url);
    TrimEnds(url);
  }

  /** The field is cleared only after a successful request; a failure
      keeps it and shows the server's text, or the fallback. */
  lemma ClearedOnlyOnSuccess(url: string, isPublic: bool, reply: Reply)
    ensures var o := SubmitStep(url, isPublic, reply);
      && (o.submission.Sent? && reply.Succeeded? ==> o.nextUrl == "")
      && (!(o.submission.Sent? && reply.Succeeded?) ==> o.nextUrl == url)
      && (o.submission.Sent? && reply.Failed? ==> o.submission.popup == ErrorPopup(ErrorMessage(reply.message)))
  {
  }

  /** When nothing is loading, the button is enabled exactly when a press would send. */
  lemma EnabledIffSends(url: string, isPublic: bool, reply: Reply)
    ensures !SubmitDisabled(false, url) <==> SubmitStep(url, isPublic, reply).submission.Sent?
  {
  }

  /** The form's state. */
  class Uploader {
    var url: string
    var isPublic: bool

    constructor ()
      ensures url == "" && isPublic
    {
      url, isPublic := "", true;
    }

    method Submit(reply: Reply) returns (submission: Submission)
      modifies this`url
      ensures var o := SubmitStep(old(url), isPublic, reply); url == o.nextUrl && submission == o.submission
    {
      var trimmed := Trim(url);
      if |trimmed| == 0 {
        return EmptyAlert(ENTER_URL_ALERT);
      }
      match reply
      case Succeeded =>
        submission := Sent(trimmed, isPublic, SuccessPopup);
        url := "";
      case Failed(m) =>
        submission := Sent(trimmed, isPublic, ErrorPopup(ErrorMessage(m)));
    }
  }
}
