/** The `/download` handler (app.py, lines 42-80) up to the point where it
    starts the downloader: the query value either yields a 400 response or
    the job the downloader is then asked to do. */
module Handler {
  import opened Wrappers
  import opened VideoId
  import opened Download

  /** Message of the 400 response. */
  const InvalidVideoIdMessage: string := "Invalid videoId"

  /** What the handler decides before it runs anything: a 400 response, or
      the identifier, output path, command and attachment name of the
      download. */
  datatype Response =
    | BadRequest(status: nat, message: string)
    | Job(videoId: string, outfile: string, command: seq<string>, downloadName: string)

  /** `request.args.get("videoId", "")`: a missing argument reads as empty. */
  function QueryValue(arg: Option<string>): (r: string)
    ensures arg.None? ==> r == ""
    ensures arg.Some? ==> r == arg.value
  {
    arg.GetOr("")
  }

  /** The handler for the query argument `arg`; `workdir` stands for the
      fresh directory `tempfile.mkdtemp` creates once the identifier is
      accepted, `cookiesPath` for the installed cookie file. */
  function Handle(arg: Option<string>, cookiesPath: string, workdir: string): (r: Response)
    ensures r.BadRequest? <==> ExtractVideoId(QueryValue(arg)).None?
    ensures r.BadRequest? ==> r.status == 400 && r.message == InvalidVideoIdMessage
    ensures r.Job? ==>
      && ExtractVideoId(QueryValue(arg)) == Some(r.videoId)
      && IsVideoId(r.videoId)
      && r.outfile == OutputPath(workdir, r.videoId)
      && r.downloadName == r.videoId + ".mp3"
      && Basename(r.outfile) == r.downloadName
      && r.command == Ytdl(cookiesPath) + ["-o", r.outfile, "https://www.youtube.com/watch?v=" + r.videoId]
      && ExtractVideoId(r.command[|r.command| - 1]) == Some(r.videoId)
  {
    match ExtractVideoId(QueryValue(arg))
    case None => BadRequest(400, InvalidVideoIdMessage)
    case Some(id) =>
      var outfile := OutputPath(workdir, id);
      WatchUrlHeadSpelled();
      DownloadNameIsBasename(workdir, id);
      CommandTargetsVideo(cookiesPath, outfile, id);
      Job(id, outfile, BuildCommand(cookiesPath, outfile, id), FileName(id))
  }

  /** Without a `videoId` argument the answer is 400. */
  lemma MissingArgumentRejected(cookiesPath: string, workdir: string)
    ensures Handle(None, cookiesPath, workdir) == BadRequest(400, InvalidVideoIdMessage)
  {
    EmptyRejected();
  }

  /** A rejection is decided before the work directory exists: it is the same
      whatever directory and cookie file there would have been. */
  lemma RejectionIgnoresEnvironment(arg: Option<string>, c1: string, w1: string, c2: string, w2: string)
    requires Handle(arg, c1, w1).BadRequest?
    ensures Handle(arg, c2, w2) == Handle(arg, c1, w1)
  {
  }

  /** For a work directory as `mkdtemp` returns it (not empty, no trailing
      `/`), the job writes `<workdir>/<id>.mp3` and runs exactly that command. */
  lemma JobInWorkdir(arg: Option<string>, cookiesPath: string, workdir: string)
    requires workdir != [] && workdir[|workdir| - 1] != '/'
    requires Handle(arg, cookiesPath, workdir).Job?
    ensures var r := Handle(arg, cookiesPath, workdir);
      && r.outfile == workdir + "/" + r.videoId + ".mp3"
      && r.command == Ytdl(cookiesPath) + ["-o", workdir + "/" + r.videoId + ".mp3",
                                            "https://www.youtube.com/watch?v=" + r.videoId]
  {
    var r := Handle(arg, cookiesPath, workdir);
    OutputPathInWorkdir(workdir, r.videoId);
    WatchUrlHeadSpelled();
  }

  /** A short link is served as a download of its identifier. */
  lemma ShortLinkServed(id: string, rest: string, cookiesPath: string, workdir: string)
    requires IsVideoId(id)
    ensures Handle(Some("https://youtu.be/" + id + rest), cookiesPath, workdir).Job?
    ensures Handle(Some("https://youtu.be/" + id + rest), cookiesPath, workdir).videoId == id
  {
    ShortLinkYieldsId(id, rest);
  }

  /** A watch-page link is served as a download of its identifier. */
  lemma WatchLinkServed(id: string, rest: string, cookiesPath: string, workdir: string)
    requires IsVideoId(id)
    ensures Handle(Some(WatchUrlHead + id + rest), cookiesPath, workdir).Job?
    ensures Handle(Some(WatchUrlHead + id + rest), cookiesPath, workdir).videoId == id
  {
    WatchLinkYieldsId(id, rest);
  }
}
