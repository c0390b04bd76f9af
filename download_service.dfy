/**
 * The client's reading of a backend or media-service reply: the download
 * options it offers (`parseDownloadResult`) and the size estimate attached to
 * each offered tier (`estimateFileSize`).
 */
module DownloadService {
  import opened Common
  import opened Text

  /** An estimated artifact size: bytes at the assumed bitrate, and the bitrate in kbit/s. */
  datatype SizeEstimate = SizeEstimate(bytes: nat, bitrate: nat)

  /** The assumed bitrates, in kbit/s, by quality key. */
  const Bitrates: map<string, nat> := map[
    "1080" := 8000, "720" := 5000, "480" := 2500, "360" := 1000,
    "audio_high" := 256, "audio_mid" := 128, "audio_low" := 64
  ]

  /** The bitrate of a quality key: the table entry, or 128 for audio and 5000 for video when there is none. */
  function Bitrate(quality: string, isAudio: bool): (b: nat)
    ensures quality in Bitrates ==> b == Bitrates[quality]
    ensures quality !in Bitrates ==> b == if isAudio then 128 else 5000
    ensures b > 0
  {
    if quality in Bitrates then Bitrates[quality] else if isAudio then 128 else 5000
  }

  /**
   * `estimateFileSize` for a duration in whole seconds: no estimate for a zero
   * duration; otherwise the bytes that `duration` seconds at the bitrate occupy.
   */
  function EstimateFileSize(duration: nat, quality: string, isAudio: bool): (r: Option<SizeEstimate>)
    ensures r.None? <==> duration == 0
    ensures r.Some? ==> r.value.bitrate == Bitrate(quality, isAudio)
    ensures r.Some? ==> r.value.bytes * 8 == r.value.bitrate * 1000 * duration
  {
    if duration == 0 then None
    else
      var b := Bitrate(quality, isAudio);
      Some(SizeEstimate(b * 125 * duration, b))
  }

  // ---------------------------------------------------------------------------
  // Download options

  /** One offered download. `kind` is the `type` field, `caption` the `label` field; absent fields are `None`. */
  datatype MediaOption = MediaOption(
    caption: string,
    format: Option<string>,
    quality: Option<string>,
    bitrate: Option<string>,
    resolution: Option<string>,
    size: Option<SizeEstimate>,
    url: Option<string>,
    kind: string,
    primary: bool,
    fast: Option<bool>)

  /** One item of a media service's picker: its `type` and `url`. */
  datatype PickerItem = PickerItem(kind: Option<string>, url: Option<string>)

  /** The fields of a reply that the client reads. */
  datatype Reply = Reply(
    status: Option<string>,
    duration: Option<nat>,
    url: Option<string>,
    picker: Option<seq<PickerItem>>,
    title: Option<string>,
    filename: Option<string>)

  /** What the client keeps of a reply. */
  datatype ParsedResult = ParsedResult(
    filename: string,
    duration: Option<nat>,
    audioOptions: seq<MediaOption>,
    videoOptions: seq<MediaOption>)

  /** The audio tiers of a metadata reply, best first. */
  const AudioLabels: seq<string> := ["High Quality", "Medium Quality", "Low Quality"]
  const AudioBitrateTexts: seq<string> := ["256KBPS", "128KBPS", "64KBPS"]
  const AudioKeys: seq<string> := ["audio_high", "audio_mid", "audio_low"]

  /** The video tiers of a metadata reply, highest first. */
  const VideoLabels: seq<string> := ["1080p", "720p", "480p", "360p"]
  const VideoQualities: seq<string> := ["1080", "720", "480", "360"]
  const VideoResolutions: seq<string> := ["1920x1080", "1280x720", "854x480", "640x360"]

  function AudioTier(k: nat, duration: nat): MediaOption
    requires k < 3
  {
    MediaOption(AudioLabels[k], Some("MP3"), Some("audio"), Some(AudioBitrateTexts[k]), None,
                EstimateFileSize(duration, AudioKeys[k], true), None, "audio", false, None)
  }

  function VideoTier(k: nat, duration: nat): MediaOption
    requires k < 4
  {
    MediaOption(VideoLabels[k], Some("MP4"), Some(VideoQualities[k]), None, Some(VideoResolutions[k]),
                EstimateFileSize(duration, VideoQualities[k], false), None, "video", k == 0, Some(k == 0))
  }

  /** The label of the picker item at 1-based position `n`: by its type, video, photo, or a plain download. */
  function PickerLabel(kind: Option<string>, n: nat): string {
    (if kind == Some("video") then "Video " else if kind == Some("photo") then "Photo " else "Download ") + NatToString(n)
  }

  function PickerOption(item: PickerItem, index: nat): MediaOption {
    MediaOption(PickerLabel(item.kind, index + 1), None, None, None, None, None, item.url,
                OrElse(item.kind, "media"), index == 0, None)
  }

  /** A status under which a media service hands out a single direct link. */
  predicate IsLinkStatus(status: Option<string>) {
    status == Some("tunnel") || status == Some("redirect") || status == Some("stream")
  }

  /**
   * `parseDownloadResult`: a metadata reply offers three MP3 tiers and four MP4
   * tiers; a link reply offers its one link; a picker reply offers its items in
   * order, the first as primary; anything else offers nothing. The file name is
   * the title, else the reply's file name, else 'Video Download'.
   */
  method ParseDownloadResult(data: Reply) returns (r: ParsedResult)
    ensures r.filename == OrElse(data.title, OrElse(data.filename, "Video Download"))
    ensures r.duration == data.duration
    ensures data.status == Some("info") ==>
              var d := if data.duration.Some? then data.duration.value else 0;
              && r.audioOptions == [AudioTier(0, d), AudioTier(1, d), AudioTier(2, d)]
              && r.videoOptions == [VideoTier(0, d), VideoTier(1, d), VideoTier(2, d), VideoTier(3, d)]
    ensures IsLinkStatus(data.status) ==>
              r.audioOptions == [] &&
              r.videoOptions == [MediaOption("Download Video", Some("MP4"), None, None, None, None, data.url, "video", true, None)]
    ensures data.status == Some("picker") && data.picker.Some? ==>
              r.audioOptions == [] && |r.videoOptions| == |data.picker.value| &&
              forall k :: 0 <= k < |data.picker.value| ==> r.videoOptions[k] == PickerOption(data.picker.value[k], k)
    ensures data.status != Some("info") && !IsLinkStatus(data.status) && !(data.status == Some("picker") && data.picker.Some?) ==>
              r.audioOptions == [] && r.videoOptions == []
  {
    var audio: seq<MediaOption> := [];
    var video: seq<MediaOption> := [];
    if data.status == Some("info") {
      var d := if data.duration.Some? then data.duration.value else 0;
      audio := audio + [AudioTier(0, d), AudioTier(1, d), AudioTier(2, d)];
      video := video + [VideoTier(0, d), VideoTier(1, d), VideoTier(2, d), VideoTier(3, d)];
    } else if IsLinkStatus(data.status) {
      video := video + [MediaOption("Download Video", Some("MP4"), None, None, None, None, data.url, "video", true, None)];
    } else if data.status == Some("picker") && data.picker.Some? {
      video := PickerOptions(data.picker.value);
    }
    r := ParsedResult(OrElse(data.title, OrElse(data.filename, "Video Download")), data.duration, audio, video);
  }

  /** The options of a picker reply: one per item, in order, the first as primary. */
  method PickerOptions(items: seq<PickerItem>) returns (video: seq<MediaOption>)
    ensures |video| == |items|
    ensures forall k :: 0 <= k < |items| ==> video[k] == PickerOption(items[k], k)
  {
    video := [];
    var i := 0;
    while i < |items|
      invariant 0 <= i <= |items| && |video| == i
      invariant forall k :: 0 <= k < i ==> video[k] == PickerOption(items[k], k)
    {
      video := video + [PickerOption(items[i], i)];
      i := i + 1;
    }
  }

  /**
   * The metadata tiers: every audio tier is quality 'audio' at 256, 128 and 64
   * kbit/s in that order, the video tiers are 1080, 720, 480 and 360 in that
   * order, only the 1080 tier is primary and fast, and without a duration no
   * tier carries a size.
   */
  lemma InfoTiers(d: nat)
    ensures forall k :: 0 <= k < 3 ==> AudioTier(k, d).quality == Some("audio") && !AudioTier(k, d).primary
    ensures d > 0 ==> AudioTier(0, d).size.value.bitrate == 256 && AudioTier(1, d).size.value.bitrate == 128 &&
                      AudioTier(2, d).size.value.bitrate == 64
    ensures forall k :: 0 <= k < 4 ==> (VideoTier(k, d).primary <==> k == 0)
    ensures forall k :: 0 <= k < 4 ==> (VideoTier(k, d).fast == Some(true) <==> k == 0)
    ensures d > 0 ==> VideoTier(0, d).size.value.bitrate == 8000 && VideoTier(1, d).size.value.bitrate == 5000 &&
                      VideoTier(2, d).size.value.bitrate == 2500 && VideoTier(3, d).size.value.bitrate == 1000
    ensures d == 0 <==> (forall k :: 0 <= k < 3 ==> AudioTier(k, d).size.None?) && (forall k :: 0 <= k < 4 ==> VideoTier(k, d).size.None?)
  {
    assert AudioTier(0, d).size.None? <==> d == 0;
  }

  /**
   * A picker label names the item's type and its 1-based position, which reads
   * back from the text after the type word.
   */
  lemma PickerLabelReadsBack(kind: Option<string>, n: nat)
    ensures var word := if kind == Some("video") then "Video " else if kind == Some("photo") then "Photo " else "Download ";
      && StartsWith(PickerLabel(kind, n), word)
      && AllDigits(PickerLabel(kind, n)[|word|..])
      && ParseNat(PickerLabel(kind, n)[|word|..]) == n
  {
    var word := if kind == Some("video") then "Video " else if kind == Some("photo") then "Photo " else "Download ";
    var text := PickerLabel(kind, n);
    assert text == word + NatToString(n);
    assert text[..|word|] == word;
    assert text[|word|..] == NatToString(n);
    ParseNatToString(n);
  }
}
