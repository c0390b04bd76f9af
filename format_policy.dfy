/**
 * The format-selection policy of the download endpoint: which `-f` expression the
 * media tool receives for a requested quality tier, in audio or video mode, and
 * the fixed selectors of quick mode.
 */
module FormatPolicy {
  import opened Common
  import opened Text

  /** The quality tiers that have their own capped fallback chain. */
  const Tiers: seq<string> := ["360", "480", "720", "1080"]

  /** The selector used in audio-only mode, by both the download and the quick endpoint. */
  const AudioSelector: string := "bestaudio"

  /**
   * The `-f` expression in video mode: the fallback clauses joined by '/'. The
   * four tier strings of the download endpoint's `switch` are the same text with
   * only the height value changed, so they are written here once, as a template.
   */
  function VideoFormat(quality: Option<string>): string {
    Join(VideoClauses(quality), '/')
  }

  /** The fallback clauses for a quality value: capped for a tier, uncapped otherwise (the `default` case). */
  function VideoClauses(quality: Option<string>): seq<string> {
    if quality.Some? && quality.value in Tiers then TierClauses(quality.value) else DefaultClauses
  }

  /** The height filter of tier `t`. */
  function HeightCap(t: string): string {
    "[height<=" + t + "]"
  }

  /** The filters and the audio part the clauses are built from. */
  const Mp4Ext: string := "[ext=mp4]"
  const Avc1Codec: string := "[vcodec^=avc1]"
  const PlusBestAudio: string := "+bestaudio"
  const M4aExt: string := "[ext=m4a]"

  /**
   * The five fallback clauses of a capped chain, from most to least specific:
   * H.264 MP4 video with M4A audio, MP4 video with M4A audio, H.264 video with any
   * audio, a single MP4 stream, any single stream.
   */
  function TierClauses(t: string): seq<string> {
    [ "bestvideo" + HeightCap(t) + Mp4Ext + Avc1Codec + PlusBestAudio + M4aExt,
      "bestvideo" + HeightCap(t) + Mp4Ext + PlusBestAudio + M4aExt,
      "bestvideo" + HeightCap(t) + Avc1Codec + PlusBestAudio,
      "best" + HeightCap(t) + Mp4Ext,
      "best" + HeightCap(t) ]
  }

  /** The four clauses of the uncapped default chain. */
  const DefaultClauses: seq<string> :=
    [ "bestvideo" + Mp4Ext + Avc1Codec + PlusBestAudio + M4aExt,
      "bestvideo" + Mp4Ext + PlusBestAudio + M4aExt,
      "best" + Mp4Ext,
      "best" ]

  /** No building block of a clause holds a '/'. */
  lemma PiecesSlashFree()
    ensures '/' !in "bestvideo" && '/' !in "best"
    ensures '/' !in Mp4Ext && '/' !in Avc1Codec && '/' !in PlusBestAudio && '/' !in M4aExt
  {
  }

  /** The selector quick mode passes, which ignores the quality tier. */
  function QuickFormat(audioOnly: bool): (f: string)
    ensures audioOnly ==> f == AudioSelector
    ensures !audioOnly ==> Split(f, '/') == ["best" + Mp4Ext, "best"]
  {
    if audioOnly then AudioSelector
    else
      PiecesSlashFree();
      SplitJoin(["best" + Mp4Ext, "best"], '/');
      Join(["best" + Mp4Ext, "best"], '/')
  }

  /** The clauses of a capped chain hold no '/' when the tier value holds none. */
  lemma TierClausesSlashFree(t: string)
    requires '/' !in t
    ensures forall k :: 0 <= k < |TierClauses(t)| ==> '/' !in TierClauses(t)[k]
  {
    PiecesSlashFree();
    assert '/' !in HeightCap(t) by {
      assert '/' !in "[height<=" && '/' !in "]";
    }
  }

  /**
   * For each tier T the video chain splits into exactly five clauses, which depend
   * on nothing but T; the first asks for H.264 MP4 video capped at T with M4A audio,
   * the last for any single stream capped at T.
   */
  lemma TierChainShape(t: string)
    requires t in Tiers
    ensures var cs := Split(VideoFormat(Some(t)), '/');
      && cs == TierClauses(t)
      && |cs| == 5
      && cs[0] == "bestvideo" + HeightCap(t) + Mp4Ext + Avc1Codec + PlusBestAudio + M4aExt
      && cs[4] == "best" + HeightCap(t)
  {
    assert '/' !in t;
    TierClausesSlashFree(t);
    SplitJoin(TierClauses(t), '/');
  }

  /** Any quality value outside the tiers, or none, selects the four-clause chain with no height cap. */
  lemma DefaultChainShape(quality: Option<string>)
    requires quality.None? || quality.value !in Tiers
    ensures Split(VideoFormat(quality), '/') == DefaultClauses
    ensures Split(VideoFormat(quality), '/')[3] == "best"
  {
    PiecesSlashFree();
    assert forall k :: 0 <= k < |DefaultClauses| ==> '/' !in DefaultClauses[k];
    SplitJoin(DefaultClauses, '/');
  }
}
