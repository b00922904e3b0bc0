/**
 * The media viewer modal: which video qualities it offers, the quality it plays,
 * how one fetched media description updates that state, and the stream URL.
 */
module MediaViewer {
  import opened Wrappers
  import opened Js

  datatype Quality = Original | Q360 | Q720 | Q1080

  /** The quality's name as used in the `variants` keys and the `quality` query parameter. */
  function QualityName(q: Quality): (name: string)
  {
    match q
    case Original => "original"
    case Q360 => "360p"
    case Q720 => "720p"
    case Q1080 => "1080p"
  }

  /** Position in the order original < 360p < 720p < 1080p. */
  function Rank(q: Quality): (rank: nat)
  {
    match q
    case Original => 0
    case Q360 => 1
    case Q720 => 2
    case Q1080 => 3
  }

  /** Strictly increasing in rank, hence free of duplicates. */
  predicate StrictlyOrdered(qs: seq<Quality>)
  {
    forall i, j :: 0 <= i < j < |qs| ==> Rank(qs[i]) < Rank(qs[j])
  }

  /** What the viewer keeps: the selected quality, the offered qualities and the image data URL. */
  datatype ViewerState = ViewerState(quality: Quality, available: seq<Quality>, originalFile: Option<string>)

  /** The description `apiGetFileById` returns: its media type, the original's data URL
      (None when the original or its `data_url` is absent or null) and the `variants` object
      (an absent object reads like an empty one). */
  datatype MediaResponse = MediaResponse(mediaType: string, originalDataUrl: Option<string>, variants: Body)

  /** The state when the modal opens: 720p selected while only the original is offered. */
  function InitialViewer(): (s: ViewerState)
    ensures s.quality == Q720 && s.available == [Original] && s.originalFile == None
    ensures s.quality !in s.available
  {
    ViewerState(Q720, [Original], None)
  }

  /** The quality list built from a video's `variants`: the original first, then each
      resolution whose entry is present and truthy, in increasing order. */
  function AvailableQualities(variants: Body): (qs: seq<Quality>)
    ensures 1 <= |qs| <= 4 && qs[0] == Original
    ensures Q360 in qs <==> Truthy(Field(variants, "360p"))
    ensures Q720 in qs <==> Truthy(Field(variants, "720p"))
    ensures Q1080 in qs <==> Truthy(Field(variants, "1080p"))
    ensures StrictlyOrdered(qs)
  {
    [Original]
      + (if Truthy(Field(variants, "360p")) then [Q360] else [])
      + (if Truthy(Field(variants, "720p")) then [Q720] else [])
      + (if Truthy(Field(variants, "1080p")) then [Q1080] else [])
  }

  /** A state whose offered list has the shape `AvailableQualities` produces. */
  predicate WellFormed(s: ViewerState)
  {
    1 <= |s.available| && s.available[0] == Original && StrictlyOrdered(s.available)
  }

  /** One successful fetch inside `fetchMedia`. An image sets only the data URL; a video
      replaces the offered list and keeps the selected quality when it is offered, falling back
      to the first offered one (the original) otherwise; other media types change nothing. */
  function ApplyResponse(s: ViewerState, resp: MediaResponse): (r: ViewerState)
    requires WellFormed(s)
    ensures WellFormed(r)
    ensures resp.mediaType == "image" ==>
      r.originalFile == resp.originalDataUrl && r.quality == s.quality && r.available == s.available
    ensures resp.mediaType == "video" ==>
      && r.originalFile == s.originalFile
      && r.available == AvailableQualities(resp.variants)
      && r.quality in r.available
      && (s.quality in r.available ==> r.quality == s.quality)
      && (s.quality !in r.available ==> r.quality == Original)
    ensures resp.mediaType != "image" && resp.mediaType != "video" ==> r == s
  {
    if resp.mediaType == "image" then
      s.(originalFile := resp.originalDataUrl)
    else if resp.mediaType == "video" then
      var qs := AvailableQualities(resp.variants);
      s.(available := qs, quality := if s.quality in qs then s.quality else qs[0])
    else
      s
  }

  /** The effect of opening the modal for a file: no fetch for an empty id, a failed fetch
      (None) is only logged, leaving the initial state, and a successful one is applied to the
      initial state. */
  function OpenViewer(fileId: string, fetched: Option<MediaResponse>): (r: ViewerState)
    ensures WellFormed(r)
    ensures fileId == "" || fetched.None? ==> r == InitialViewer()
    ensures fileId != "" && fetched.Some? ==> r == ApplyResponse(InitialViewer(), fetched.value)
    ensures fileId != "" && fetched.Some? && fetched.value.mediaType == "image" ==>
      r == InitialViewer().(originalFile := fetched.value.originalDataUrl)
    ensures fileId != "" && fetched.Some? && fetched.value.mediaType == "video" ==>
      && r.originalFile == None
      && r.available == AvailableQualities(fetched.value.variants)
      && (r.quality == Q720 <==> Truthy(Field(fetched.value.variants, "720p")))
      && (r.quality != Q720 ==> r.quality == Original)
  {
    if fileId == "" then InitialViewer()
    else match fetched
      case None => InitialViewer()
      case Some(resp) => ApplyResponse(InitialViewer(), resp)
  }

  /** Opening a video plays 720p when its 720p variant is offered and the original otherwise. */
  lemma OpenedVideoQuality(fileId: string, resp: MediaResponse)
    requires fileId != "" && resp.mediaType == "video"
    ensures Truthy(Field(resp.variants, "720p")) ==> OpenViewer(fileId, Some(resp)).quality == Q720
    ensures !Truthy(Field(resp.variants, "720p")) ==> OpenViewer(fileId, Some(resp)).quality == Original
  {
  }

  /** `getVideoUrl(quality)` */
  function StreamUrl(apiBase: string, fileId: string, q: Quality): (url: string)
    ensures |url| == |apiBase| + 13 + |fileId| + 9 + |QualityName(q)|
    ensures url[..|apiBase|] == apiBase
    ensures url[|apiBase|..|apiBase| + 13] == "/media/video/"
    ensures url[|apiBase| + 13..|apiBase| + 13 + |fileId|] == fileId
    ensures url[|url| - |QualityName(q)| - 9..] == "?quality=" + QualityName(q)
  {
    apiBase + "/media/video/" + fileId + "?quality=" + QualityName(q)
  }

  /** Different qualities of the same file never share a stream URL. */
  lemma StreamUrlDeterminesQuality(apiBase: string, fileId: string, q1: Quality, q2: Quality)
    requires StreamUrl(apiBase, fileId, q1) == StreamUrl(apiBase, fileId, q2)
    ensures q1 == q2
  {
    var u1 := StreamUrl(apiBase, fileId, q1);
    var n1, n2 := QualityName(q1), QualityName(q2);
    assert |n1| == |n2|;
    assert u1[|u1| - |n1|..] == n1 by {
      assert u1[|u1| - |n1|..] == (u1[|u1| - |n1| - 9..])[9..];
    }
    assert u1[|u1| - |n2|..] == n2 by {
      assert u1[|u1| - |n2|..] == (u1[|u1| - |n2| - 9..])[9..];
    }
  }
}
