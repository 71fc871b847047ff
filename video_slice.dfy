/** The client store's slice for downloaded videos: the list (newest
    first), the video being shown, and the download progress. */
module VideoSlice {
  import opened Wrappers

  /** A downloaded video as the client keeps it; only `id` matters here. */
  datatype Video = Video(id: string, title: string, thumbnail: string, url: string,
                         platform: string, duration: string, views: int, createdAt: string)

  datatype SliceState = SliceState(downloadedVideos: seq<Video>, currentVideo: Option<Video>,
                                   downloadProgress: real, isDownloading: bool)

  const INITIAL: SliceState := SliceState([], None, 0.0, false)

  /** `videos.filter(v => v.id !== id)` */
  function Without(videos: seq<Video>, id: string): (r: seq<Video>)
    ensures |r| <= |videos|
    ensures forall v :: v in r <==> v in videos && v.id != id
  {
    if |videos| == 0 then []
    else if videos[0].id == id then Without(videos[1..], id)
    else [videos[0]] + Without(videos[1..], id)
  }

  /** Filtering a concatenation filters each part: the kept items stay in order. */
  lemma {:induction false} WithoutAppend(a: seq<Video>, b: seq<Video>, id: string)
    ensures Without(a + b, id) == Without(a, id) + Without(b, id)
    decreases |a|
  {
    if |a| == 0 {
      assert a + b == b;
    } else {
      assert (a + b)[1..] == a[1..] + b;
      WithoutAppend(a[1..], b, id);
    }
  }

  /** A list without the id is left as it is. */
  lemma {:induction false} WithoutAbsent(videos: seq<Video>, id: string)
    requires forall i :: 0 <= i < |videos| ==> videos[i].id != id
    ensures Without(videos, id) == videos
    decreases |videos|
  {
    if |videos| > 0 {
      WithoutAbsent(videos[1..], id);
      assert [videos[0]] + videos[1..] == videos;
    }
  }

  /** Removing twice is removing once. */
  lemma WithoutIdempotent(videos: seq<Video>, id: string)
    ensures Without(Without(videos, id), id) == Without(videos, id)
  {
    var r := Without(videos, id);
    forall i | 0 <= i < |r| ensures r[i].id != id {
      assert r[i] in r;
    }
    WithoutAbsent(r, id);
  }

  /** The slice's reducers, one step function each. */
  function AddStep(s: SliceState, v: Video): SliceState {
    s.(downloadedVideos := [v] + s.downloadedVideos)
  }

  function RemoveStep(s: SliceState, id: string): SliceState {
    s.(downloadedVideos := Without(s.downloadedVideos, id))
  }

  function SetCurrentStep(s: SliceState, v: Option<Video>): SliceState {
    s.(currentVideo := v)
  }

  function SetProgressStep(s: SliceState, p: real): SliceState {
    s.(downloadProgress := p)
  }

  function SetDownloadingStep(s: SliceState, b: bool): SliceState {
    s.(isDownloading := b)
  }

  function ClearStep(s: SliceState): SliceState {
    s.(downloadedVideos := [])
  }

  /** Adding puts the video first and keeps the old list behind it. */
  lemma AddPutsFirst(s: SliceState, v: Video)
    ensures var t := AddStep(s, v);
      && |t.downloadedVideos| == |s.downloadedVideos| + 1
      && t.downloadedVideos[0] == v
      && t.downloadedVideos[1..] == s.downloadedVideos
  {
  }

  /** Removing an id that was just added drops it together with every older
      copy, and removing again changes nothing. */
  lemma AddThenRemove(s: SliceState, v: Video)
    ensures RemoveStep(AddStep(s, v), v.id) == RemoveStep(s, v.id)
    ensures RemoveStep(RemoveStep(s, v.id), v.id) == RemoveStep(s, v.id)
  {
    WithoutIdempotent(s.downloadedVideos, v.id);
  }

  /** Removing an id and adding a video with another id commute. */
  lemma RemoveOtherCommutes(s: SliceState, v: Video, id: string)
    requires v.id != id
    ensures RemoveStep(AddStep(s, v), id) == AddStep(RemoveStep(s, id), v)
  {
    WithoutAppend([v], s.downloadedVideos, id);
  }

  /** Clearing empties the list and nothing else. */
  lemma ClearKeepsTheRest(s: SliceState)
    ensures ClearStep(s) == SliceState([], s.currentVideo, s.downloadProgress, s.isDownloading)
  {
  }

  /** The slice's state, with its reducers. */
  class Slice {
    var downloadedVideos: seq<Video>
    var currentVideo: Option<Video>
    var downloadProgress: real
    var isDownloading: bool

    function State(): SliceState
      reads this
    {
      SliceState(downloadedVideos, currentVideo, downloadProgress, isDownloading)
    }

    constructor ()
      ensures State() == INITIAL
    {
      downloadedVideos, currentVideo, downloadProgress, isDownloading := [], None, 0.0, false;
    }

    method AddDownloadedVideo(v: Video)
      modifies this
      ensures State() == AddStep(old(State()), v)
    {
      downloadedVideos := [v] + downloadedVideos;
    }

    method RemoveDownloadedVideo(id: string)
      modifies this
      ensures State() == RemoveStep(old(State()), id)
    {
      downloadedVideos := Without(downloadedVideos, id);
    }

    method SetCurrentVideo(v: Option<Video>)
      modifies this
      ensures State() == SetCurrentStep(old(State()), v)
    {
      currentVideo := v;
    }

    method SetDownloadProgress(p: real)
      modifies this
      ensures State() == SetProgressStep(old(State()), p)
    {
      downloadProgress := p;
    }

    method SetIsDownloading(b: bool)
      modifies this
      ensures State() == SetDownloadingStep(old(State()), b)
    {
      isDownloading := b;
    }

    method ClearDownloadedVideos()
      modifies this
      ensures State() == ClearStep(old(State()))
    {
      downloadedVideos := [];
    }
  }
}
