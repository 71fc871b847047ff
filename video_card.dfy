/** A card in a video list: the view-count display, the age label, the
    platform colour, and which action buttons it shows. The day difference
    is an input. */
module VideoCard {
  import VideoFeed
  import Button
  import opened Wrappers
  import SocialVideoModel

  // ---------------------------------------------------------------- views

  /** The view count takes the plain, thousands or millions display at the
      same boundaries as the feed's counters. */
  lemma ViewBoundaries()
    ensures VideoFeed.FormatCount(999).Plain? && VideoFeed.FormatCount(1000).Thousands?
    ensures VideoFeed.FormatCount(999999).Thousands? && VideoFeed.FormatCount(1000000).Millions?
  {
  }

  // ---------------------------------------------------------------- age

  /** The age label; its texts are fixed strings, a number, or the
      locale date, which are not modelled. */
  datatype DateLabel = Today | Yesterday | DaysAgo(days: nat) | WeeksAgo(weeks: nat) | LocaleDate

  function FormatDate(diffDays: nat): (l: DateLabel)
    ensures l == Today <==> diffDays == 0
    ensures l == Yesterday <==> diffDays == 1
    ensures l.DaysAgo? <==> 2 <= diffDays < 7
    ensures l.DaysAgo? ==> l.days == diffDays
    ensures l.WeeksAgo? <==> 7 <= diffDays < 30
    ensures l.WeeksAgo? ==> 1 <= l.weeks <= 4 && l.weeks * 7 <= diffDays < l.weeks * 7 + 7
    ensures l == LocaleDate <==> diffDays >= 30
  {
    if diffDays == 0 then Today
    else if diffDays == 1 then Yesterday
    else if diffDays < 7 then DaysAgo(diffDays)
    else if diffDays < 30 then WeeksAgo(diffDays / 7)
    else LocaleDate
  }

  /** How old a label says the video is, coarsest last. */
  function Rank(l: DateLabel): nat {
    match l
    case Today => 0
    case Yesterday => 1
    case DaysAgo(d) => 2 + d
    case WeeksAgo(w) => 10 + w
    case LocaleDate => 20
  }

  /** An older video never gets a younger label. */
  lemma LabelsFollowAge(d1: nat, d2: nat)
    requires d1 <= d2
    ensures Rank(FormatDate(d1)) <= Rank(FormatDate(d2))
  {
  }

  // ---------------------------------------------------------------- platform colour

  const DEFAULT_COLOR: string := "#007aff"

  function PlatformColor(platform: string): (c: string)
    ensures c == DEFAULT_COLOR <==> platform !in ["youtube", "instagram", "tiktok", "facebook"]
  {
    if platform == "youtube" then "#FF0000"
    else if platform == "instagram" then "#E1306C"
    else if platform == "tiktok" then "#000000"
    else if platform == "facebook" then "#1877F2"
    else DEFAULT_COLOR
  }

  /** The coloured platforms are told apart by their colours. */
  lemma ColorsDistinct(p: string, q: string)
    requires p in ["youtube", "instagram", "tiktok", "facebook"] && p != q
    ensures PlatformColor(p) != PlatformColor(q)
  {
  }

  /** Every platform the stored schema accepts except "other" has a colour of its own. */
  lemma SchemaPlatformsColored(p: string)
    requires p in SocialVideoModel.SCHEMA_PLATFORMS_AS_WRITTEN && p != "other"
    ensures PlatformColor(p) != DEFAULT_COLOR
  {
  }

  // ---------------------------------------------------------------- actions

  datatype Actions = Actions(download: bool, delete: bool)

  /** Download for someone else's video, delete for one's own, each only
      with its handler, and neither when actions are hidden. */
  function VisibleActions(showActions: bool, isUserVideo: bool, hasDownload: bool, hasDelete: bool): (a: Actions)
    ensures !(a.download && a.delete)
    ensures a.download <==> showActions && !isUserVideo && hasDownload
    ensures a.delete <==> showActions && isUserVideo && hasDelete
  {
    Actions(showActions && !isUserVideo && hasDownload, showActions && isUserVideo && hasDelete)
  }

  /** The props of the card's two buttons: small and full width, primary for download. */
  const DOWNLOAD_BUTTON: Button.ButtonProps := Button.ButtonProps(Some(Button.Primary), Some(Button.Small), Some(true), None)
  const DELETE_BUTTON: Button.ButtonProps := Button.ButtonProps(Some(Button.Secondary), Some(Button.Small), Some(true), None)

  lemma ActionButtonClasses()
    ensures Button.ExpectedClasses(DOWNLOAD_BUTTON) == ["button", "button--primary", "button--small", "button--full-width"]
    ensures Button.ExpectedClasses(DELETE_BUTTON) == ["button", "button--secondary", "button--small", "button--full-width"]
  {
    assert "button--" + "primary" == "button--primary";
    assert "button--" + "secondary" == "button--secondary";
    assert "button--" + "small" == "button--small";
  }

  /** The card's one piece of state: the thumbnail failed to load. */
  class Card {
    var imageError: bool

    constructor ()
      ensures !imageError
    {
      imageError := false;
    }

    method OnImageError()
      modifies this
      ensures imageError
    {
      imageError := true;
    }

    /** The thumbnail is shown until it fails, the placeholder after. */
    function ShowsThumbnail(): bool
      reads this
    {
      !imageError
    }
  }
}
