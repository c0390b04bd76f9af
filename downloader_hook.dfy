/**
 * The pure decisions of the downloader hook: the validation ladder a URL goes
 * through before the backend is asked for anything, and how a chosen option is
 * turned into a download with a file name. The React state, the toasts and the
 * backend calls around them are outside the model.
 */
module DownloaderHook {
  import opened Common
  import opened Text
  import opened Helpers

  const EmptyUrlMessage: string := "Please enter a video URL"
  const InvalidUrlMessage: string := "Please enter a valid URL"
  const UnparsableUrlMessage: string := "Invalid URL format"

  /** `isValidUrl` on the parse of the text: it parses, with the http or https scheme. */
  predicate IsValidUrl(parsed: Option<ParsedUrl>) {
    parsed.Some? && (parsed.value.protocol == "http:" || parsed.value.protocol == "https:")
  }

  /** A URL that passed every rung: the trimmed text and its platform. */
  datatype Accepted = Accepted(url: string, platform: string)

  /**
   * The checks of `processVideo`, in order, stopping at the first that fails:
   * the trimmed text must be non-empty, must be a valid http(s) URL, and must
   * have a platform. `parse` is the URL parser, `None` where it throws.
   */
  function ValidateUrl(url: string, parse: string -> Option<ParsedUrl>): Result<Accepted> {
    var trimmed := Trim(url);
    if trimmed == "" then Err(EmptyUrlMessage)
    else if !IsValidUrl(parse(trimmed)) then Err(InvalidUrlMessage)
    else match DetectPlatform(parse(trimmed))
      case None => Err(UnparsableUrlMessage)
      case Some(platform) => Ok(Accepted(trimmed, platform))
  }

  /**
   * Blank text is refused as empty, other text that is not a valid http(s) URL
   * as invalid, and everything else is accepted with its platform: the third
   * rung can never refuse, because a valid URL parses and a parsed URL always
   * has a platform ('other' at worst).
   */
  lemma ValidationLadder(url: string, parse: string -> Option<ParsedUrl>)
    ensures ValidateUrl(url, parse) == Err(EmptyUrlMessage) <==> AllSpace(url)
    ensures ValidateUrl(url, parse) == Err(InvalidUrlMessage) <==> !AllSpace(url) && !IsValidUrl(parse(Trim(url)))
    ensures ValidateUrl(url, parse) != Err(UnparsableUrlMessage)
    ensures ValidateUrl(url, parse).Ok? <==> !AllSpace(url) && IsValidUrl(parse(Trim(url)))
    ensures ValidateUrl(url, parse).Ok? ==>
              ValidateUrl(url, parse).value == Accepted(Trim(url), DetectPlatform(parse(Trim(url))).value)
  {
    TrimEmptyIffBlank(url);
    DetectPlatformOutcome(parse(Trim(url)));
  }

  // ---------------------------------------------------------------------------
  // Choosing an option

  /** The fields of an offered option the hook reads (`label` is `caption`). */
  datatype ChosenOption = ChosenOption(caption: string, url: Option<string>, format: Option<string>, quality: Option<string>)

  /** The fields of the current result the hook reads. */
  datatype CurrentResult = CurrentResult(filename: Option<string>, originalUrl: Option<string>)

  /** What `downloadFile` does with an option. */
  datatype Plan =
    | Direct(url: string, filename: string)                       // hand the option's own link to the browser
    | ByQuality(originalUrl: string, quality: string, filename: string) // ask the backend, then save under this name
    | NoAction

  /** The name of a direct download: the result's file name or 'video', then the lowercased format or 'mp4'. */
  function DirectFileName(result: Option<CurrentResult>, format: Option<string>): string {
    DirectStem(result) + "." + DirectExtension(format)
  }

  /** The result's file name, or 'video'. */
  function DirectStem(result: Option<CurrentResult>): string {
    if result.Some? then OrElse(result.value.filename, "video") else "video"
  }

  /** The lowercased format, or 'mp4'. */
  function DirectExtension(format: Option<string>): string {
    if Truthy(format) then Lower(format.value) else "mp4"
  }

  predicate IsAlnum(c: char) {
    'a' <= c <= 'z' || 'A' <= c <= 'Z' || '0' <= c <= '9'
  }

  /** The title of a saved file: every character outside [A-Za-z0-9] becomes '_', cut to 100 characters. */
  function Sanitize(title: string): (r: string)
    ensures |r| == if |title| < 100 then |title| else 100
    ensures forall i :: 0 <= i < |r| ==> r[i] == if IsAlnum(title[i]) then title[i] else '_'
    ensures forall i :: 0 <= i < |r| ==> IsAlnum(r[i]) || r[i] == '_'
  {
    var n := if |title| < 100 then |title| else 100;
    seq(n, i requires 0 <= i < n => if IsAlnum(title[i]) then title[i] else '_')
  }

  /** Sanitizing a sanitized title changes nothing. */
  lemma SanitizeIdempotent(title: string)
    ensures Sanitize(Sanitize(title)) == Sanitize(title)
  {
  }

  /** The extension of a quality download: 'mp3' for the audio quality, 'mp4' for every other. */
  function QualityExtension(quality: string): string {
    if quality == "audio" then "mp3" else "mp4"
  }

  /** The name a quality download is saved under: sanitized title, '_', the option's label, '.', extension. */
  function QualityFileName(title: Option<string>, caption: string, quality: string): string {
    Sanitize(OrElse(title, "video")) + "_" + caption + "." + QualityExtension(quality)
  }

  /**
   * A quality download's name starts with the sanitized title (the title, or
   * 'video' when it is empty) and a '_', and its text after the last '.' is
   * 'mp3' exactly for the audio quality and 'mp4' otherwise, whatever the label.
   */
  lemma QualityFileNameShape(title: Option<string>, caption: string, quality: string)
    ensures var name := QualityFileName(title, caption, quality);
      var stem := Sanitize(OrElse(title, "video"));
      && StartsWith(name, stem) && name[|stem|] == '_'
      && var parts := Split(name, '.');
         parts[|parts| - 1] == (if quality == "audio" then "mp3" else "mp4")
  {
    var stem := Sanitize(OrElse(title, "video"));
    var ext := QualityExtension(quality);
    var name := QualityFileName(title, caption, quality);
    assert name == (stem + "_" + caption) + ['.'] + ext;
    assert name[..|stem|] == stem;
    assert '.' !in ext;
    LastPartOf(name, stem + "_" + caption, ext);
  }

  /**
   * `downloadFile`: an option with a link is downloaded directly; otherwise an
   * option with a quality is fetched through the backend, but only when the
   * current result has its original URL; any other option does nothing.
   */
  function PlanDownload(option: ChosenOption, result: Option<CurrentResult>): Plan {
    if Truthy(option.url) then Direct(option.url.value, DirectFileName(result, option.format))
    else if Truthy(option.quality) && result.Some? && Truthy(result.value.originalUrl) then
      ByQuality(result.value.originalUrl.value, option.quality.value,
                QualityFileName(result.value.filename, option.caption, option.quality.value))
    else NoAction
  }

  /**
   * A link always wins; the quality path needs both a quality and an original
   * URL; the direct name ends in the lowercased format, or 'mp4' without one.
   */
  lemma PlanChoice(option: ChosenOption, result: Option<CurrentResult>)
    ensures PlanDownload(option, result).Direct? <==> Truthy(option.url)
    ensures PlanDownload(option, result).ByQuality? <==>
              !Truthy(option.url) && Truthy(option.quality) && result.Some? && Truthy(result.value.originalUrl)
    ensures PlanDownload(option, result).Direct? ==>
              PlanDownload(option, result).filename == DirectFileName(result, option.format)
  {
  }

  /**
   * A direct download's name ends, after its last '.', in the lowercased
   * format, or 'mp4' without one, provided the format holds no '.'.
   */
  lemma DirectFileNameExtension(result: Option<CurrentResult>, format: Option<string>)
    requires '.' !in (if Truthy(format) then format.value else "")
    ensures var parts := Split(DirectFileName(result, format), '.');
      parts[|parts| - 1] == DirectExtension(format)
  {
    var ext := DirectExtension(format);
    assert '.' !in ext by {
      assert forall i :: 0 <= i < |ext| ==> ext[i] != '.';
    }
    var name := DirectFileName(result, format);
    assert name == DirectStem(result) + ['.'] + ext;
    LastPartOf(name, DirectStem(result), ext);
  }

  /** The last part of a name built as `stem + '.' + ext` is `ext`, when `ext` holds no '.'. */
  lemma LastPartOf(name: string, stem: string, ext: string)
    requires '.' !in ext && name == stem + ['.'] + ext
    ensures var parts := Split(name, '.'); parts[|parts| - 1] == ext
  {
    LastPartAfterSeparator(stem, '.', ext);
  }
}
