# yt_app_dl: the `videoId` reduction and the download job

The application serves one endpoint, `GET /download?videoId=<value>`. The
value is either a bare YouTube video identifier or a URL that contains one. The
handler reduces the value to an identifier. If that fails it answers 400
("Invalid videoId"). Otherwise it writes `<id>.mp3` into a fresh temporary
directory with `yt-dlp` and sends the file back as an attachment named
`<id>.mp3`.

This project models everything the handler decides before it starts the
downloader:

- `VideoId` covers the search `re.search(r"(?:v=|youtu\.be/)([0-9A-Za-z_-]{11})", value)`.
  It is written as an explicit leftmost-position scan: `SearchFrom` walks the
  positions 0 to `|s|`, and at each one `MatchAt` tries `v=` before `youtu.be/`.
  Each marker needs exactly eleven characters of `[0-9A-Za-z_-]` right after
  it, and no word boundary is required on either side. If the search fails,
  the raw value is used instead. The result is then checked with
  `re.fullmatch(r"[0-9A-Za-z_-]{11}", …)`. `ExtractVideoId` returns `None`
  exactly where the handler answers 400.
- `Download` covers the fixed `YTDL` argument prefix, the output path
  `os.path.join(workdir, f"{id}.mp3")`, the command
  `YTDL + ["-o", outfile, "https://www.youtube.com/watch?v=" + id]` and the
  attachment name. `Join` is Python's standard `posixpath.join`, which
  `os.path.join` is on POSIX: an absolute second argument replaces the first,
  and a `/` is put between the two unless the first is empty or already ends
  in `/`. `Basename` is `posixpath.basename`. app.py never calls it; it only
  serves to state the app.py:80 property that the attachment name equals the
  output file's basename, which is the name `send_file` would pick on its own.
- `Handler` connects them. `Handle` maps the optional query argument (a
  missing one reads as `""`) to either `BadRequest(400, "Invalid videoId")`
  or a `Job` holding the identifier, output path, command and attachment
  name. The temporary directory and the cookie-file path are parameters.

Some behaviour follows from the code rather than from the endpoint's
description. A marker is found anywhere in the value: `nav=` contains `v=`,
and `youtu.be/` is matched inside any host. Only the first eleven identifier
characters after the marker are taken, so `v=` followed by twelve or more of
them is accepted with the first eleven. The model follows the code in both
cases.

## Model

| member | source | states |
|---|---|---|
| VideoId.IsIdChar | app.py:44 | Definition of the character class `[0-9A-Za-z_-]`. Its property, that the markers' `=`, `.` and `/` lie outside it, is stated by `AlphabetOnlyNeverMatches`. |
| VideoId.IsVideoId | app.py:46 | Definition of `re.fullmatch(r"[0-9A-Za-z_-]{11}", …)`: length 11, every character in the class. `ExtractVideoId`'s ensures state that every accepted value satisfies it. |
| VideoId.MatchesAt | app.py:44 | Definition of one alternative of the pattern at one position: the marker, then an 11-character identifier. `MatchAt`'s ensures state what a match at that position is. |
| VideoId.MatchAt | app.py:44 | At one position, a match is the `v=` or `youtu.be/` marker followed by an 11-character identifier. The group is exactly the eleven characters after the marker. There is no match exactly when neither alternative fits there. |
| VideoId.SearchFrom | app.py:44 | A found match starts at the leftmost position from `i` up to the end of `s` where the pattern matches, and no earlier position matches. A `None` result means no position in that range matches. |
| VideoId.Search | app.py:44 | `re.search` returns the leftmost match. It returns `None` if and only if no position from 0 to the end of `s` matches. |
| VideoId.ExtractVideoId | app.py:43-49 | An accepted value is always an 11-character identifier. Rejection (400) happens if and only if the search finds nothing and the raw value is not itself an identifier. A match's group is always accepted. A bare identifier with no match is accepted unchanged. |
| VideoId.SearchFindsLeftmost | app.py:44 | A match at `j` with no match before `j` is what the search returns. |
| VideoId.ExtractFollowsLeftmostMarker | app.py:44-45 | If the leftmost match has its marker at `j`, the accepted identifier is the eleven characters right after that marker. Whatever follows them is ignored. |
| VideoId.AcceptedIsSubstring | app.py:44-46 | Every accepted identifier has length 11 and occurs as a contiguous substring of the raw value. |
| VideoId.AlphabetOnlyNeverMatches | app.py:44 | A value made only of `[0-9A-Za-z_-]` has no marker match, because `=`, `.` and `/` are outside the class. |
| VideoId.AlphabetOnlyAcceptedIffEleven | app.py:44-49 | A value made only of identifier characters is accepted unchanged if it has exactly eleven of them, and rejected otherwise. |
| VideoId.BareIdAccepted | app.py:44-46 | A bare 11-character identifier is accepted as it is. |
| VideoId.EmptyRejected | app.py:43-49 | The empty value, which is the default for a missing argument, is rejected. |
| VideoId.ShortLinkYieldsId | app.py:44-45 | `https://youtu.be/<id>` followed by any text yields `<id>`. |
| VideoId.NoMatchInWatchUrlHead | app.py:44 | In any value that starts with `https://www.youtube.com/watch?v=`, no match starts before the `v=`. The scheme `https://www.` and the path `outube.com/watch?` hold no `v` or `y`, and the `y` of `youtube.com` is followed by `outub`, not by `outu.be/`. |
| VideoId.WatchLinkYieldsId | app.py:44-45 | `https://www.youtube.com/watch?v=<id>` followed by any text yields `<id>`. |
| VideoId.ShortLinkExample | app.py:44-45 | `https://youtu.be/dQw4w9WgXcQ` yields `dQw4w9WgXcQ`. |
| VideoId.WatchLinkExample | app.py:44-45 | `https://www.youtube.com/watch?v=dQw4w9WgXcQ&t=10` yields `dQw4w9WgXcQ`. |
| Download.Ytdl | app.py:31-38 | Definition of the fixed `YTDL` prefix, with the cookie path as a parameter. `CommandLayout` states that the command keeps it unchanged. |
| Download.FileName | app.py:52 | Definition of `f"{video_id}.mp3"`, used for both the output file and the attachment name (line 80). `DownloadNameIsBasename` states that it is the output file's basename. |
| Download.Join | app.py:52 | Definition of `os.path.join` as `posixpath.join`. `OutputPathInWorkdir` states what it gives for an identifier's file name. |
| Download.OutputPath | app.py:52 | Definition of `os.path.join(workdir, f"{video_id}.mp3")`. `OutputPathInWorkdir` and `DownloadNameIsBasename` state its properties. |
| Download.WatchUrl | app.py:62 | Definition of `f"https://www.youtube.com/watch?v={video_id}"`. `CommandTargetsVideo` states that it reduces back to the identifier. |
| Download.BuildCommand | app.py:62 | Definition of `YTDL + ["-o", outfile, url]`. `CommandLayout` and `CommandTargetsVideo` state its properties. |
| Download.Basename | app.py:80 | `posixpath.basename`, which app.py never calls. It is used only to state that the attachment name equals the output file's basename. Its contract: the result contains no `/`, is a suffix of the path, and is either the whole path or preceded by a `/`, which makes it the text after the last slash. |
| Download.OutputPathInWorkdir | app.py:52 | The output path of an identifier never discards the work directory. It is `workdir + "/" + id + ".mp3"`, with no `/` added when `workdir` is empty or already ends in one. |
| Download.DownloadNameIsBasename | app.py:80 | The attachment name `id + ".mp3"` is the basename of the output file written at line 52. |
| Download.CommandLayout | app.py:62 | The command has 21 arguments. The first 18 are the unchanged `YTDL` prefix of lines 31-38, followed by `-o`, the output path and `https://www.youtube.com/watch?v=` + id. |
| Download.CommandTargetsVideo | app.py:62 | The URL given to the downloader reduces, under the handler's own rule, back to the identifier it was built from. |
| Handler.QueryValue | app.py:43 | A missing argument reads as `""`. A present one reads as its value. |
| Handler.Handle | app.py:43-62 | The response is 400 "Invalid videoId" if and only if the value is rejected. Otherwise the job has the following properties. Its identifier is the extracted one. Its output file is `OutputPath(workdir, id)`. Its attachment name is `id + ".mp3"` and equals the output file's basename. Its command is `YTDL` followed by `-o`, the output path and the watch URL. That URL reduces back to the identifier. |
| Handler.MissingArgumentRejected | app.py:43-49 | Without a `videoId` argument the answer is 400. |
| Handler.RejectionIgnoresEnvironment | app.py:46-51 | A rejection does not depend on the work directory or the cookie file. The 400 is decided before line 51 creates the directory. |
| Handler.JobInWorkdir | app.py:51-62 | For a directory as `mkdtemp` returns it (not empty, no trailing `/`), the job writes `<workdir>/<id>.mp3`. Its command is exactly `YTDL + ["-o", "<workdir>/<id>.mp3", "https://www.youtube.com/watch?v=<id>"]`. |
| Handler.ShortLinkServed | app.py:44-52 | A `youtu.be/<id>` link is served as a download of `<id>`. |
| Handler.WatchLinkServed | app.py:44-52 | A `watch?v=<id>` link is served as a download of `<id>`. |

## Left out

- Flask routing, `ProxyFix`, `abort` and `send_file` (app.py:8-12, 40, 49, 80) are framework I/O. The 400 is the `BadRequest` value, and the attachment is the `Job`'s `outfile` and `downloadName`.
- Query-string parsing by the framework is not modelled: `request.args.get` reads the first `videoId` value, and the model takes that value, or its absence, as given.
- Logging configuration and log calls (app.py:15-20, 48, 50, 58, 60, 65, 74, 77, 79) are side effects only.
- `tempfile.mkdtemp` in `/dev/shm` and the `shutil.rmtree` cleanup hook (app.py:51, 53-61) touch the filesystem and depend on framework hook semantics. The directory is a parameter of `Handle`, and its cleanup is not modelled.
- Running the command with `subprocess.run` through `asyncio.to_thread`, and turning its failures into 500 responses (app.py:63-78), involves an external process and thread dispatch. The model stops at the command it would run.
- Resolving the script's directory and the cookie path (app.py:22-28) depends on the environment. `COOKIES_PATH` is the opaque parameter `cookiesPath`.
