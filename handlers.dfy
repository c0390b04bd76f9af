/**
 * The four request handlers of the backend. A handler validates the request,
 * stages the cookie text when there is any, builds the argument vector, awaits
 * the supervised tool run and answers; the file route streams an artifact and
 * arms its once-only deletion. The tool is a function from the argument vector
 * and the time budget to the trace of events its child process delivers.
 */
module Handlers {
  import opened Common
  import opened Text
  import opened ToolArguments
  import opened Supervisor
  import opened Storage

  const UrlRequiredMessage: string := "URL is required"
  const FileNotFoundMessage: string := "File not found"

  /** The fixed `url` the download endpoint answers with. */
  const ServiceUrl: string := "http://api.downloadking.xyz"

  /** The JSON body of a successful answer. */
  datatype Body =
    | InfoBody(metadata: string)                  // the tool's metadata document, before `JSON.parse`
    | DownloadBody(url: string, filename: string)
    | QuickBody(url: string)

  /** The answer of a POST handler: 200 with a body, an error status with a message, or still awaiting the run. */
  datatype Response = Success(body: Body) | Failure(status: nat, error: string) | Pending

  /** The staged cookie file of a request handled at `now`. */
  function CookiePath(now: nat): Path {
    Path(Temp, CookieFileName(now))
  }

  /** The answer for a run that has settled as `settled`, given the body a resolved run yields. */
  function Answer(settled: Option<Settlement>, ok: string -> Response): Response {
    match settled
    case None => Pending
    case Some(Rejected(message)) => Failure(400, message)
    case Some(Resolved(output)) => ok(output)
  }

  /**
   * The storage after a handler's run: the cookie file is written before the run
   * when the cookie text is not blank, and removed afterwards only when the run
   * resolved; a rejected or pending run leaves it in `temp`.
   */
  function CookieAfterRun(files: map<Path, FileEntry>, cookies: Option<string>, now: nat,
                          settled: Option<Settlement>): map<Path, FileEntry>
  {
    if !HasCookies(cookies) then files
    else if settled.Some? && settled.value.Resolved? then files - {CookiePath(now)}
    else files[CookiePath(now) := FileEntry(cookies.value, now as real)]
  }

  /**
   * The cookie file is removed exactly when the run resolved, is left holding the
   * cookie text otherwise, and no other file is touched; blank or absent cookie
   * text changes nothing.
   */
  lemma CookieFileLifecycle(files: map<Path, FileEntry>, cookies: Option<string>, now: nat,
                            settled: Option<Settlement>)
    ensures var after := CookieAfterRun(files, cookies, now, settled);
      && (cookies.None? || AllSpace(cookies.value) ==> after == files)
      && (HasCookies(cookies) ==> (CookiePath(now) in after <==> !(settled.Some? && settled.value.Resolved?)))
      && (HasCookies(cookies) && CookiePath(now) in after ==> after[CookiePath(now)].content == cookies.value)
      && (forall p :: p != CookiePath(now) ==> (p in after <==> p in files))
      && (forall p :: p != CookiePath(now) && p in files ==> after[p] == files[p])
  {
    if cookies.Some? {
      BlankCookiesAreNotStaged(cookies.value);
    }
  }

  /** The storage after a run, read off the staged storage: a resolved run removes the staged cookie file again. */
  lemma CookieStateAfterRun(files: map<Path, FileEntry>, cookies: Option<string>, now: nat,
                            settled: Option<Settlement>)
    ensures var staged := if HasCookies(cookies) then files[CookiePath(now) := FileEntry(cookies.value, now as real)] else files;
      CookieAfterRun(files, cookies, now, settled) ==
        if HasCookies(cookies) && settled.Some? && settled.value.Resolved? then staged - {CookiePath(now)} else staged
  {
    if HasCookies(cookies) {
      var p := CookiePath(now);
      assert files[p := FileEntry(cookies.value, now as real)] - {p} == files - {p};
    }
  }

  /** Stages the cookie file when the cookie text is not blank. */
  method StageCookies(disk: Disk, cookies: Option<string>, now: nat)
    modifies disk
    ensures disk.files == if HasCookies(cookies) then old(disk.files)[CookiePath(now) := FileEntry(cookies.value, now as real)]
                          else old(disk.files)
  {
    if HasCookies(cookies) {
      disk.WriteFile(CookiePath(now), cookies.value, now);
    }
  }

  /** Removes the staged cookie file after a resolved run, if it is there. */
  method RemoveCookies(disk: Disk, cookies: Option<string>, now: nat)
    modifies disk
    ensures disk.files == if HasCookies(cookies) then old(disk.files) - {CookiePath(now)} else old(disk.files)
  {
    if HasCookies(cookies) {
      var p := CookiePath(now);
      if disk.Exists(p) {
        var _ := disk.Unlink(p, false);
      } else {
        assert disk.files - {p} == disk.files;
      }
    }
  }

  // ---------------------------------------------------------------------------
  // POST /api/info

  function InfoAnswer(output: string): Response {
    Success(InfoBody(output))
  }

  /**
   * `/api/info`: without a URL, 400 'URL is required' and nothing else happens;
   * otherwise one metadata run with the default budget, answered with the
   * metadata it printed or with the classified failure.
   */
  method HandleInfo(disk: Disk, url: Option<string>, cookies: Option<string>, now: nat,
                    tool: (seq<string>, nat) -> seq<ProcEvent>)
    returns (args: seq<string>, resp: Response)
    modifies disk
    ensures !Truthy(url) ==> resp == Failure(400, UrlRequiredMessage) && args == [] && disk.files == old(disk.files)
    ensures Truthy(url) ==> args == InfoVector(url.value, cookies, now)
    ensures Truthy(url) ==> resp == Answer(Settle(tool(args, DefaultTimeoutMs)), InfoAnswer)
    ensures Truthy(url) ==> disk.files == CookieAfterRun(old(disk.files), cookies, now, Settle(tool(args, DefaultTimeoutMs)))
  {
    if !Truthy(url) {
      return [], Failure(400, UrlRequiredMessage);
    }
    StageCookies(disk, cookies, now);
    args := InfoArgs(url.value, cookies, now);
    var settled := Supervise(tool(args, DefaultTimeoutMs));
    match settled {
      case None => resp := Pending;
      case Some(Rejected(message)) => resp := Failure(400, message);
      case Some(Resolved(output)) =>
        RemoveCookies(disk, cookies, now);
        resp := Success(InfoBody(output));
    }
    CookieStateAfterRun(old(disk.files), cookies, now, settled);
  }

  // ---------------------------------------------------------------------------
  // POST /api/download

  /** The answer after a resolved download run: the artifact the lookup finds, or the lookup's failure. */
  function DownloadAnswer(listing: seq<string>, fileId: string): string -> Response {
    _ => match FindArtifact(listing, fileId)
         case Ok(f) => Success(DownloadBody(ServiceUrl, f))
         case Err(m) => Failure(400, m)
  }

  /**
   * `/api/download`: without a URL, 400 'URL is required'; otherwise one download
   * run with the five-minute budget; after it resolves, the first entry of the
   * downloads listing that starts with the request token is the answer.
   */
  method HandleDownload(disk: Disk, url: Option<string>, cookies: Option<string>, audioOnly: bool,
                        quality: Option<string>, now: nat, fileId: string,
                        tool: (seq<string>, nat) -> seq<ProcEvent>, listing: seq<string>)
    returns (args: seq<string>, resp: Response)
    modifies disk
    ensures !Truthy(url) ==> resp == Failure(400, UrlRequiredMessage) && args == [] && disk.files == old(disk.files)
    ensures Truthy(url) ==> args == DownloadVector(url.value, cookies, now, audioOnly, quality, fileId)
    ensures Truthy(url) ==> resp == Answer(Settle(tool(args, DownloadTimeoutMs)), DownloadAnswer(listing, fileId))
    ensures Truthy(url) ==> disk.files == CookieAfterRun(old(disk.files), cookies, now, Settle(tool(args, DownloadTimeoutMs)))
  {
    if !Truthy(url) {
      return [], Failure(400, UrlRequiredMessage);
    }
    StageCookies(disk, cookies, now);
    args := DownloadArgs(url.value, cookies, now, audioOnly, quality, fileId);
    var settled := Supervise(tool(args, DownloadTimeoutMs));
    match settled {
      case None => resp := Pending;
      case Some(Rejected(message)) => resp := Failure(400, message);
      case Some(Resolved(output)) =>
        RemoveCookies(disk, cookies, now);
        resp := LocateArtifact(listing, fileId);
        assert resp == DownloadAnswer(listing, fileId)(output);
    }
    CookieStateAfterRun(old(disk.files), cookies, now, settled);
  }

  /** The lookup that follows a resolved download run. */
  method LocateArtifact(listing: seq<string>, fileId: string) returns (resp: Response)
    ensures forall output :: resp == DownloadAnswer(listing, fileId)(output)
  {
    var found := FindArtifact(listing, fileId);
    match found {
      case Ok(f) => resp := Success(DownloadBody(ServiceUrl, f));
      case Err(m) => resp := Failure(400, m);
    }
  }

  /**
   * After a resolved download run the answer names the first listed entry that
   * starts with the request token, and fails with 'Download failed - file not
   * created' exactly when there is none.
   */
  lemma DownloadAnswerIsFirstArtifact(output: string, listing: seq<string>, fileId: string)
    ensures var r := DownloadAnswer(listing, fileId)(output);
      && (r.Success? <==> exists i :: 0 <= i < |listing| && StartsWith(listing[i], fileId))
      && (r.Failure? ==> r == Failure(400, ArtifactMissingMessage))
      && (r.Success? ==>
            && r.body.url == ServiceUrl
            && exists i :: 0 <= i < |listing| && listing[i] == r.body.filename && StartsWith(listing[i], fileId) &&
                           forall j :: 0 <= j < i ==> !StartsWith(listing[j], fileId))
  {
    FindArtifactIsFirstMatch(listing, fileId);
  }

  // ---------------------------------------------------------------------------
  // POST /api/quick

  /** The first line of the tool's output: the text before the first line feed. */
  function FirstLine(s: string): string {
    Split(s, '\n')[0]
  }

  /** The first line is a line-feed-free prefix of the output, all of it when it has no line feed. */
  lemma FirstLineIsPrefix(s: string)
    ensures StartsWith(s, FirstLine(s)) && '\n' !in FirstLine(s)
    ensures '\n' !in s ==> FirstLine(s) == s
    ensures '\n' in s ==> s[|FirstLine(s)|] == '\n'
  {
    FirstPart(s, '\n');
  }

  /** The first line of `line + "\n" + rest` is `line`, whatever follows. */
  lemma FirstLineOfLines(line: string, rest: string)
    requires '\n' !in line
    ensures FirstLine(line + "\n" + rest) == line
  {
    assert line + "\n" + rest == line + ['\n'] + rest;
    SplitAtFirst(line, '\n', rest);
  }

  function QuickAnswer(output: string): Response {
    Success(QuickBody(FirstLine(output)))
  }

  /**
   * `/api/quick`: without a URL, 400 'URL is required'; otherwise one URL
   * resolution run with the default budget, answered with the first line of
   * its output.
   */
  method HandleQuick(disk: Disk, url: Option<string>, cookies: Option<string>, audioOnly: bool, now: nat,
                     tool: (seq<string>, nat) -> seq<ProcEvent>)
    returns (args: seq<string>, resp: Response)
    modifies disk
    ensures !Truthy(url) ==> resp == Failure(400, UrlRequiredMessage) && args == [] && disk.files == old(disk.files)
    ensures Truthy(url) ==> args == QuickVector(url.value, cookies, now, audioOnly)
    ensures Truthy(url) ==> resp == Answer(Settle(tool(args, DefaultTimeoutMs)), QuickAnswer)
    ensures Truthy(url) ==> disk.files == CookieAfterRun(old(disk.files), cookies, now, Settle(tool(args, DefaultTimeoutMs)))
  {
    if !Truthy(url) {
      return [], Failure(400, UrlRequiredMessage);
    }
    StageCookies(disk, cookies, now);
    args := QuickArgs(url.value, cookies, now, audioOnly);
    var settled := Supervise(tool(args, DefaultTimeoutMs));
    match settled {
      case None => resp := Pending;
      case Some(Rejected(message)) => resp := Failure(400, message);
      case Some(Resolved(output)) =>
        RemoveCookies(disk, cookies, now);
        resp := Success(QuickBody(FirstLine(output)));
    }
    CookieStateAfterRun(old(disk.files), cookies, now, settled);
  }

  /**
   * A quick run whose child prints `line`, a line feed and anything at all, then
   * exits with code 0, is answered with `line` alone, provided the line has no
   * surrounding white space for the trim of the output to remove.
   */
  lemma QuickAnswersFirstLine(line: string, rest: string, post: seq<ProcEvent>)
    requires '\n' !in line && line != [] && !IsJsSpace(line[0]) && !IsJsSpace(line[|line| - 1])
    ensures Answer(Settle([StdoutData(line + "\n" + rest), Close(Some(0))] + post), QuickAnswer) ==
            Success(QuickBody(line))
  {
    ResolvesOnOutput(line + "\n" + rest, post);
    FirstLineOfTrim(line, rest);
  }

  /** A child that prints `out` and exits with code 0 resolves with the trimmed `out`, whatever follows. */
  lemma ResolvesOnOutput(out: string, post: seq<ProcEvent>)
    ensures Settle([StdoutData(out), Close(Some(0))] + post) == Some(Resolved(Trim(out)))
  {
    var pre := [StdoutData(out)];
    Classification(pre, Close(Some(0)), post);
    assert pre + [Close(Some(0))] == [StdoutData(out), Close(Some(0))];
    assert StdoutOf(pre) == out + "" == out;
  }

  /** Trimming `line + "\n" + rest` keeps `line` as the first line when it has no surrounding white space. */
  lemma FirstLineOfTrim(line: string, rest: string)
    requires '\n' !in line && line != [] && !IsJsSpace(line[0]) && !IsJsSpace(line[|line| - 1])
    ensures FirstLine(Trim(line + "\n" + rest)) == line
  {
    var tail := "\n" + rest;
    assert line + "\n" + rest == line + tail;
    TrimKeepsLine(line, tail);
    var t := Trim(line + tail);
    if |t| == |line| {
      assert t == line;
      FirstLineIsPrefix(line);
    } else {
      var r := rest[..|t| - |line| - 1];
      assert t == line + "\n" + r;
      FirstLineOfLines(line, r);
    }
  }

  /** The trim of text that starts with a line without surrounding white space keeps that line and a prefix of the rest. */
  lemma TrimKeepsLine(line: string, tail: string)
    requires line != [] && !IsJsSpace(line[0]) && !IsJsSpace(line[|line| - 1])
    ensures |line| <= |Trim(line + tail)| <= |line + tail|
    ensures Trim(line + tail) == (line + tail)[..|Trim(line + tail)|]
  {
    var s := line + tail;
    assert LeadingSpaces(s) == 0;
    assert TrimStart(s) == s;
    TrailingSpacesWithin(line, tail);
  }

  // ---------------------------------------------------------------------------
  // GET /api/file/:filename

  /** The answer of the file route: 404, or a stream of the file with its content type and download name. */
  datatype FileReply =
    | NotFound(error: string)
    | Stream(contentType: string, disposition: string, content: string)

  function Disposition(filename: string): string {
    "attachment; filename=\"" + filename + "\""
  }

  /**
   * `/api/file/:filename`: a name with no file in `downloads` is answered 404
   * before anything else happens; an existing file is streamed with the content
   * type of its extension, under its own name, and a fresh delivery guard is
   * armed for its deletion. The route itself changes no file.
   */
  method ServeFile(disk: Disk, filename: string) returns (reply: FileReply, delivery: Delivery?)
    ensures Path(Downloads, filename) !in disk.files ==> reply == NotFound(FileNotFoundMessage) && delivery == null
    ensures Path(Downloads, filename) in disk.files ==>
              && reply == Stream(ContentType(filename), Disposition(filename), disk.files[Path(Downloads, filename)].content)
              && delivery != null && fresh(delivery) && delivery.Valid()
              && delivery.path == Path(Downloads, filename) && !delivery.isDeleted
  {
    var path := Path(Downloads, filename);
    if !disk.Exists(path) {
      return NotFound(FileNotFoundMessage), null;
    }
    var contentType := ContentType(filename);
    reply := Stream(contentType, Disposition(filename), disk.files[path].content);
    delivery := new Delivery(path);
  }
}
