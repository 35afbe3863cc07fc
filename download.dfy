/** The strings the handler builds for an accepted identifier (app.py, lines
    31-38, 52, 62 and 80): the output path inside the work directory, the
    download command, and the attachment name. */
module Download {
  import opened Wrappers
  import opened VideoId

  /** The fixed prefix `YTDL` of every download command. The cookie file's
      location depends on where the application is installed, so it is a
      parameter. */
  function Ytdl(cookiesPath: string): seq<string> {
    [ "yt-dlp", "--cookies", cookiesPath,
      "-x", "--audio-format", "mp3", "--audio-quality", "0",
      "-N", "8", "--http-chunk-size", "10M",
      "--downloader", "aria2c",
      "--downloader-args", "aria2c:-x16 -j16 -k1M",
      "--postprocessor-args", "ffmpeg:-threads 4" ]
  }

  /** Extension of the produced audio file. */
  const Mp3: string := ".mp3"

  /** `f"{video_id}.mp3"`: the output file's name and the attachment name. */
  function FileName(id: string): string {
    id + Mp3
  }

  /** `os.path.join(a, b)` on POSIX: an absolute `b` replaces `a`; otherwise a
      `/` is put between them unless `a` is empty or already ends in `/`. */
  function Join(a: string, b: string): string {
    if |b| > 0 && b[0] == '/' then b
    else if a == [] || a[|a| - 1] == '/' then a + b
    else a + "/" + b
  }

  /** `os.path.basename(p)` on POSIX: the text after the last `/` of `p`, or
      all of `p` when it has none. */
  function Basename(p: string): (r: string)
    ensures '/' !in r
    ensures |r| <= |p| && r == p[|p| - |r|..]
    ensures |r| < |p| ==> p[|p| - |r| - 1] == '/'
  {
    if p == [] || p[|p| - 1] == '/' then []
    else Basename(p[..|p| - 1]) + [p[|p| - 1]]
  }

  /** The path of the output file inside the work directory. */
  function OutputPath(workdir: string, id: string): string {
    Join(workdir, FileName(id))
  }

  /** The watch-page URL handed to the downloader. */
  function WatchUrl(id: string): string {
    WatchUrlHead + id
  }

  /** `YTDL + ["-o", outfile, f"https://www.youtube.com/watch?v={video_id}"]`. */
  function BuildCommand(cookiesPath: string, outfile: string, id: string): seq<string> {
    Ytdl(cookiesPath) + ["-o", outfile, WatchUrl(id)]
  }

  /** The basename of `dir + name` is `name` when `name` holds no `/` and
      `dir` is empty or ends in `/`. */
  lemma {:induction false} BasenameOfSlashFree(dir: string, name: string)
    requires '/' !in name
    requires dir == [] || dir[|dir| - 1] == '/'
    ensures Basename(dir + name) == name
  {
    if name == [] {
      assert dir + name == dir;
    } else {
      var init := name[..|name| - 1];
      assert (dir + name)[..|dir + name| - 1] == dir + init;
      assert name[|name| - 1] in name;
      BasenameOfSlashFree(dir, init);
      assert init + [name[|name| - 1]] == name;
    }
  }

  /** An identifier's file name holds no `/`, so joining it never discards
      the work directory; the output file sits directly inside it. */
  lemma OutputPathInWorkdir(workdir: string, id: string)
    requires IsVideoId(id)
    ensures workdir == [] ==> OutputPath(workdir, id) == id + ".mp3"
    ensures workdir != [] && workdir[|workdir| - 1] == '/' ==> OutputPath(workdir, id) == workdir + id + ".mp3"
    ensures workdir != [] && workdir[|workdir| - 1] != '/' ==> OutputPath(workdir, id) == workdir + "/" + id + ".mp3"
  {
    assert FileName(id)[0] == id[0];
    assert IsIdChar(id[0]);
  }

  /** The attachment name is the output file's basename. */
  lemma {:induction false} DownloadNameIsBasename(workdir: string, id: string)
    requires IsVideoId(id)
    ensures Basename(OutputPath(workdir, id)) == FileName(id)
  {
    var name := FileName(id);
    assert '/' !in name by {
      forall k | 0 <= k < |name|
        ensures name[k] != '/'
      {
        if k < |id| {
          assert name[k] == id[k] && IsIdChar(id[k]);
        } else {
          assert name[k] == Mp3[k - |id|];
        }
      }
    }
    OutputPathInWorkdir(workdir, id);
    if workdir != [] && workdir[|workdir| - 1] != '/' {
      assert OutputPath(workdir, id) == (workdir + "/") + name;
      BasenameOfSlashFree(workdir + "/", name);
    } else {
      assert OutputPath(workdir, id) == workdir + name;
      BasenameOfSlashFree(workdir, name);
    }
  }

  /** The command is the unchanged `YTDL` prefix followed by exactly the three
      arguments `-o`, the output path and the watch URL. */
  lemma CommandLayout(cookiesPath: string, outfile: string, id: string)
    ensures |BuildCommand(cookiesPath, outfile, id)| == |Ytdl(cookiesPath)| + 3 == 21
    ensures BuildCommand(cookiesPath, outfile, id)[..|Ytdl(cookiesPath)|] == Ytdl(cookiesPath)
    ensures BuildCommand(cookiesPath, outfile, id)[|Ytdl(cookiesPath)|..]
         == ["-o", outfile, "https://www.youtube.com/watch?v=" + id]
  {
    WatchUrlHeadSpelled();
  }

  /** The URL the downloader is pointed at reduces, by the handler's own rule,
      back to the identifier it was built from. */
  lemma CommandTargetsVideo(cookiesPath: string, outfile: string, id: string)
    requires IsVideoId(id)
    ensures ExtractVideoId(BuildCommand(cookiesPath, outfile, id)[20]) == Some(id)
  {
    assert BuildCommand(cookiesPath, outfile, id)[20] == WatchUrlHead + id + "";
    WatchLinkYieldsId(id, "");
  }
}
