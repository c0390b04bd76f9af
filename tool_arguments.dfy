/**
 * The argument vectors the server hands to the media tool for its three
 * operations: metadata (`/api/info`), full download (`/api/download`) and direct
 * URL resolution (`/api/quick`). Each vector is built by appending, as the
 * endpoints do; the cookie option and the URL always come last.
 */
module ToolArguments {
  import opened Common
  import opened Text
  import opened FormatPolicy

  /** Cookie text is staged to a file only when it is present and not blank after trimming. */
  predicate HasCookies(cookies: Option<string>) {
    cookies.Some? && Trim(cookies.value) != ""
  }

  /** The name of a staged cookie file inside the temp directory, from the millisecond clock. */
  function CookieFileName(now: nat): string {
    "cookies_" + NatToString(now) + ".txt"
  }

  /** The path of the staged cookie file as the tool receives it, relative to the server directory. */
  function CookieArgPath(now: nat): string {
    "temp/" + CookieFileName(now)
  }

  /** Number of arguments the cookie option adds: `--cookies <path>` or nothing. */
  function CookieArgCount(cookies: Option<string>): nat {
    if HasCookies(cookies) then 2 else 0
  }

  /** Present cookie text that is empty or white space only is never staged, and other text always is. */
  lemma BlankCookiesAreNotStaged(cookies: string)
    ensures HasCookies(Some(cookies)) <==> !AllSpace(cookies)
  {
    TrimEmptyIffBlank(cookies);
  }

  /** The output template of a download: the request token as file stem, the tool choosing the extension. */
  function OutputTemplate(fileId: string): string {
    "downloads/" + fileId + ".%(ext)s"
  }

  /** The cookie option of a vector: `--cookies <path>` when cookies are staged, nothing otherwise. */
  function CookieOption(cookies: Option<string>, now: nat): seq<string> {
    if HasCookies(cookies) then ["--cookies", CookieArgPath(now)] else []
  }

  /** The metadata vector: three fixed options, the cookie option, the URL. */
  function InfoVector(url: string, cookies: Option<string>, now: nat): seq<string> {
    ["--dump-json", "--no-warnings", "--no-playlist"] + CookieOption(cookies, now) + [url]
  }

  /** The mode options of a download: audio extraction to MP3, or the video chain merged and recoded into MP4. */
  function ModeFlags(audioOnly: bool, quality: Option<string>): seq<string> {
    if audioOnly then ["-f", AudioSelector, "-x", "--audio-format", "mp3"]
    else ["-f", VideoFormat(quality), "--merge-output-format", "mp4", "--recode-video", "mp4"]
  }

  /** The download vector: the fixed options with the output template, the mode options, the cookie option, the URL. */
  function DownloadVector(url: string, cookies: Option<string>, now: nat, audioOnly: bool,
                          quality: Option<string>, fileId: string): seq<string>
  {
    DownloadHead(fileId) + ModeFlags(audioOnly, quality) + CookieOption(cookies, now) + [url]
  }

  /** The quick vector: `--get-url`, two fixed options, the quick selector, the cookie option, the URL. */
  function QuickVector(url: string, cookies: Option<string>, now: nat, audioOnly: bool): seq<string> {
    ["--get-url", "--no-warnings", "--no-playlist"] + ["-f", QuickFormat(audioOnly)] + CookieOption(cookies, now) + [url]
  }

  /**
   * The common tail of every vector: `--cookies <path>` when cookies are staged,
   * then the URL; the arguments pushed before stay in place.
   */
  method FinishArgs(head: seq<string>, url: string, cookies: Option<string>, now: nat) returns (args: seq<string>)
    ensures args == head + CookieOption(cookies, now) + [url]
  {
    args := head;
    if HasCookies(cookies) {
      args := args + ["--cookies", CookieArgPath(now)];
    }
    args := args + [url];
  }

  /** The layout every vector shares: the head kept in place, then the cookie option when staged, then the URL last. */
  lemma VectorLayout(head: seq<string>, url: string, cookies: Option<string>, now: nat)
    ensures var v := head + CookieOption(cookies, now) + [url];
      && |v| == |head| + CookieArgCount(cookies) + 1
      && v[..|head|] == head
      && (HasCookies(cookies) ==> v[|head|..|head| + 2] == ["--cookies", CookieArgPath(now)])
      && (HasCookies(cookies) ==> v[|v| - 3..|v| - 1] == ["--cookies", CookieArgPath(now)])
      && (!HasCookies(cookies) ==> v[..|v| - 1] == head)
      && v[|v| - 1] == url
  {
    var v := head + CookieOption(cookies, now) + [url];
    assert v[..|head|] == head;
    assert v[..|v| - 1] == head + CookieOption(cookies, now);
  }

  /** Metadata mode: `--dump-json --no-warnings --no-playlist [--cookies <path>] <url>`. */
  method InfoArgs(url: string, cookies: Option<string>, now: nat) returns (args: seq<string>)
    ensures args == InfoVector(url, cookies, now)
  {
    var head := ["--dump-json", "--no-warnings", "--no-playlist"];
    args := FinishArgs(head, url, cookies, now);
  }

  /**
   * The metadata vector is the three fixed options, the cookie pair when cookies
   * are staged, then the URL; `--cookies` occurs before the URL exactly when
   * cookies are staged.
   */
  lemma InfoVectorLayout(url: string, cookies: Option<string>, now: nat)
    ensures var v := InfoVector(url, cookies, now);
      && |v| == 3 + CookieArgCount(cookies) + 1
      && v[..3] == ["--dump-json", "--no-warnings", "--no-playlist"]
      && (HasCookies(cookies) ==> v[3..5] == ["--cookies", CookieArgPath(now)])
      && v[|v| - 1] == url
      && ("--cookies" in v[..|v| - 1] <==> HasCookies(cookies))
  {
    var head := ["--dump-json", "--no-warnings", "--no-playlist"];
    var v := InfoVector(url, cookies, now);
    VectorLayout(head, url, cookies, now);
    if HasCookies(cookies) {
      assert v[..|v| - 1][3] == v[3] == "--cookies";
    } else {
      assert |"--cookies"| == 9;
      assert forall a :: a in head ==> |a| > 9;
    }
  }

  /**
   * The mode options of a download: `-f bestaudio -x --audio-format mp3`, or the
   * video format chain of the quality with merging and recoding into MP4.
   */
  method ModeOptions(audioOnly: bool, quality: Option<string>) returns (opts: seq<string>)
    ensures opts == ModeFlags(audioOnly, quality)
  {
    if audioOnly {
      opts := ["-f", AudioSelector];
      opts := opts + ["-x", "--audio-format", "mp3"];
    } else {
      var formatStr := VideoFormat(quality);
      opts := ["-f", formatStr];
      opts := opts + ["--merge-output-format", "mp4"];
      opts := opts + ["--recode-video", "mp4"];
    }
  }

  /** The fixed options of a download, ending with the output template of the request token. */
  function DownloadHead(fileId: string): seq<string> {
    ["--no-warnings", "--no-playlist", "--no-check-certificates", "--prefer-free-formats",
     "--concurrent-fragments", "4", "-o", OutputTemplate(fileId)]
  }

  /** In audio mode the options before the cookie option hold no merge or recode flag. */
  lemma AudioOptionsDoNotMerge(fileId: string)
    ensures forall a :: a in DownloadHead(fileId) + ["-f", AudioSelector, "-x", "--audio-format", "mp3"] ==>
              a != "--merge-output-format" && a != "--recode-video"
  {
    assert OutputTemplate(fileId)[0] == 'd';
    assert "--prefer-free-formats"[2] != "--merge-output-format"[2];
    assert "--audio-format"[2] != "--recode-video"[2];
  }

  /** Download mode: the fixed options and output template, then the mode options, the cookie option and the URL. */
  method DownloadArgs(url: string, cookies: Option<string>, now: nat, audioOnly: bool,
                      quality: Option<string>, fileId: string)
    returns (args: seq<string>)
    ensures args == DownloadVector(url, cookies, now, audioOnly, quality, fileId)
  {
    var opts := ModeOptions(audioOnly, quality);
    args := FinishArgs(DownloadHead(fileId) + opts, url, cookies, now);
  }

  /**
   * The download vector is the eight fixed options ending in the output template,
   * then the mode options (audio extraction to MP3, or a video format chain merged
   * and recoded into MP4), then the cookie pair when staged, then the URL; in
   * audio mode no merge or recode flag occurs before the cookie option.
   */
  lemma DownloadVectorLayout(url: string, cookies: Option<string>, now: nat, audioOnly: bool,
                             quality: Option<string>, fileId: string)
    ensures var v := DownloadVector(url, cookies, now, audioOnly, quality, fileId);
      && |v| == 8 + (if audioOnly then 5 else 6) + CookieArgCount(cookies) + 1
      && v[..8] == ["--no-warnings", "--no-playlist", "--no-check-certificates",
                    "--prefer-free-formats", "--concurrent-fragments", "4",
                    "-o", OutputTemplate(fileId)]
      && (audioOnly ==> v[8..13] == ["-f", AudioSelector, "-x", "--audio-format", "mp3"])
      && (!audioOnly ==> v[8..14] == ["-f", VideoFormat(quality),
                                      "--merge-output-format", "mp4", "--recode-video", "mp4"])
      && (HasCookies(cookies) ==> v[|v| - 3..|v| - 1] == ["--cookies", CookieArgPath(now)])
      && v[|v| - 1] == url
      && (audioOnly ==> forall i :: 0 <= i < |v| - 1 - CookieArgCount(cookies) ==>
                          v[i] != "--merge-output-format" && v[i] != "--recode-video")
  {
    var opts := ModeFlags(audioOnly, quality);
    var v := DownloadVector(url, cookies, now, audioOnly, quality, fileId);
    VectorLayout(DownloadHead(fileId) + opts, url, cookies, now);
    DownloadLayout(v, opts, audioOnly, quality, fileId);
    if audioOnly {
      AudioArgsDoNotMerge(v, fileId);
    }
  }

  /** The fixed options and the mode options of a download vector, in place. */
  lemma DownloadLayout(args: seq<string>, opts: seq<string>, audioOnly: bool, quality: Option<string>, fileId: string)
    requires opts == ModeFlags(audioOnly, quality)
    requires 8 + |opts| <= |args| && args[..8 + |opts|] == DownloadHead(fileId) + opts
    ensures |opts| == if audioOnly then 5 else 6
    ensures args[..8] == ["--no-warnings", "--no-playlist", "--no-check-certificates",
                          "--prefer-free-formats", "--concurrent-fragments", "4",
                          "-o", OutputTemplate(fileId)]
    ensures audioOnly ==> args[8..13] == ["-f", AudioSelector, "-x", "--audio-format", "mp3"]
    ensures !audioOnly ==> args[8..14] == ["-f", VideoFormat(quality),
                                           "--merge-output-format", "mp4", "--recode-video", "mp4"]
  {
    PrefixParts(args, DownloadHead(fileId), opts);
  }

  /** The cookie option pushed right after `n` arguments sits just before the URL. */
  lemma CookieTail(args: seq<string>, n: nat, cookies: Option<string>, now: nat)
    requires |args| == n + CookieArgCount(cookies) + 1
    requires HasCookies(cookies) ==> args[n..n + 2] == ["--cookies", CookieArgPath(now)]
    ensures HasCookies(cookies) ==> args[|args| - 3..|args| - 1] == ["--cookies", CookieArgPath(now)]
  {
  }

  /** A vector that starts with the audio-mode options holds no merge or recode flag among them. */
  lemma AudioArgsDoNotMerge(args: seq<string>, fileId: string)
    requires 13 <= |args| && args[..13] == DownloadHead(fileId) + ["-f", AudioSelector, "-x", "--audio-format", "mp3"]
    ensures forall i :: 0 <= i < 13 ==> args[i] != "--merge-output-format" && args[i] != "--recode-video"
  {
    AudioOptionsDoNotMerge(fileId);
    PrefixAvoids(args, args[..13], "--merge-output-format", "--recode-video");
  }

  /** A vector that starts with `head + opts` holds `head`, then `opts`. */
  lemma PrefixParts(args: seq<string>, head: seq<string>, opts: seq<string>)
    requires |head| + |opts| <= |args| && args[..|head| + |opts|] == head + opts
    ensures args[..|head|] == head
    ensures args[|head|..|head| + |opts|] == opts
  {
    assert args[..|head|] == (head + opts)[..|head|];
    assert args[|head|..|head| + |opts|] == (head + opts)[|head|..];
  }

  /** A vector that starts with a prefix free of two flags holds neither flag in that stretch. */
  lemma PrefixAvoids(args: seq<string>, prefix: seq<string>, x: string, y: string)
    requires |prefix| <= |args| && args[..|prefix|] == prefix
    requires forall a :: a in prefix ==> a != x && a != y
    ensures forall i :: 0 <= i < |prefix| ==> args[i] != x && args[i] != y
  {
    forall i | 0 <= i < |prefix|
      ensures args[i] != x && args[i] != y
    {
      assert args[i] == args[..|prefix|][i] == prefix[i];
      assert prefix[i] in prefix;
    }
  }

  /** Quick mode: `--get-url --no-warnings --no-playlist -f <selector> [--cookies <path>] <url>`, whatever the quality. */
  method QuickArgs(url: string, cookies: Option<string>, now: nat, audioOnly: bool) returns (args: seq<string>)
    ensures args == QuickVector(url, cookies, now, audioOnly)
  {
    var head := ["--get-url", "--no-warnings", "--no-playlist"];
    head := head + ["-f", QuickFormat(audioOnly)];
    args := FinishArgs(head, url, cookies, now);
  }

  /** The quick vector is the four fixed arguments and the quick selector, the cookie pair when staged, then the URL. */
  lemma QuickVectorLayout(url: string, cookies: Option<string>, now: nat, audioOnly: bool)
    ensures var v := QuickVector(url, cookies, now, audioOnly);
      && |v| == 5 + CookieArgCount(cookies) + 1
      && v[..5] == ["--get-url", "--no-warnings", "--no-playlist", "-f", QuickFormat(audioOnly)]
      && (HasCookies(cookies) ==> v[5..7] == ["--cookies", CookieArgPath(now)])
      && v[|v| - 1] == url
  {
    var head := ["--get-url", "--no-warnings", "--no-playlist"] + ["-f", QuickFormat(audioOnly)];
    VectorLayout(head, url, cookies, now);
    JoinFive("--get-url", "--no-warnings", "--no-playlist", "-f", QuickFormat(audioOnly));
  }

  /** Three arguments followed by two are the five in order. */
  lemma JoinFive(a: string, b: string, c: string, d: string, e: string)
    ensures [a, b, c] + [d, e] == [a, b, c, d, e]
  {
  }
}
