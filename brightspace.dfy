/**
 * Mirroring a Brightspace course (singularity.py:115-197, 266-317).
 *
 * A course is a list of modules; each module and each folder holds, in listing
 * order, sub-folders (`Type == 0`) and topics. The walk is depth first: a
 * folder becomes a directory named after its sanitised title, holding an
 * `index.html` written when the directory is first created, and each topic is
 * handed to the file handler with that directory as its path.
 *
 * Each step is given twice: as a function from the mirror's state to an
 * outcome and the next state, which the lemmas reason about, and as a method
 * that performs it on a `Disk`, proved to agree with the function.
 */
module Brightspace {
  import opened Wrappers
  import opened Text
  import opened Sanitise
  import opened Locators
  import opened FileSystem
  import opened Settings

  /** An entry of a module's or folder's `Structure`: a sub-folder or a topic with its fetched `Url`. */
  datatype Node =
    | Folder(title: string, html: string, children: seq<Node>)
    | Topic(title: string, url: string)

  /** A top-level module of the course's content root. */
  datatype Module = Module(title: string, html: string, structure: seq<Node>)

  const NotHandledLog := "nothandled.txt"

  // ---------------------------------------------------------------------------
  // One topic: download_bs_file (singularity.py:115-176)
  // ---------------------------------------------------------------------------

  /** The file name of a CDN topic: the sanitised title, a dot, and the URL's last dot-separated part. */
  function CdnFileName(name: string, url: string): string
  {
    name + "." + CdnExtension(url)
  }

  /** A file kept on the Brightspace CDN: fetched from `BASE_URL` + locator, write errors only warned about. */
  function CdnEffect(fs: Fs, cfg: Config, name: string, url: string, path: string): (Outcome, Fs)
  {
    var target := path + CdnFileName(name, url);
    if target in fs.files && !cfg.force then (Continue, fs)
    else if IsVideoName(CdnFileName(name, url)) && cfg.noVideo then (Continue, fs)
    else if WriteError(fs, target).Some? then (Continue, fs)
    else (Continue, Write(fs, target, [Download(cfg.baseUrl + url)]))
  }

  /** A Google Drive file, stored under the bare sanitised title. */
  function DriveEffect(fs: Fs, cfg: Config, name: string, url: string, path: string): (Outcome, Fs)
  {
    if (path + name in fs.files || path + name + ".mp4" in fs.files) && !cfg.force then (Continue, fs)
    else
      var id := DriveFileId(url);
      if id.None? then (Abort(NoFileId(url)), fs)
      else Store(fs, path + name, [Download(DriveMediaRequest(id.value))])
  }

  /** A Google Docs file, exported to the Office format its locator names. */
  function ExportEffect(fs: Fs, cfg: Config, name: string, url: string, path: string): (Outcome, Fs)
  {
    var format := ExportFormatOf(url);
    if format.None? then (Continue, fs)
    else
      var target := path + name + "." + format.value.ext;
      if target in fs.files && !cfg.force then (Continue, fs)
      else
        var id := ExportFileId(url);
        if id.None? then (Abort(NoFileId(url)), fs)
        else Store(fs, target, [Download(ExportRequest(id.value, format.value.mime))])
  }

  /** A YouTube video: any failure of the video library, or of the write, is swallowed. */
  function VideoEffect(fs: Fs, cfg: Config, url: string, path: string): (Outcome, Fs)
  {
    if url !in cfg.videoTitle then (Continue, fs)
    else
      var target := path + cfg.videoTitle[url] + ".mp4";
      if target in fs.files || WriteError(fs, target).Some? then (Continue, fs)
      else (Continue, Write(fs, target, [Download(url)]))
  }

  /** The effect of handling one topic whose locator is `url`, in directory `path`. */
  function BsFileEffect(fs: Fs, cfg: Config, title: string, url: string, path: string): (Outcome, Fs)
  {
    match ClassifyBs(url, cfg.noVideo)
    case None => (Abort(EmptyUrl), fs)
    case Some(CdnFile) => CdnEffect(fs, cfg, Sanitised(title), url, path)
    case Some(DriveFile) => DriveEffect(fs, cfg, Sanitised(title), url, path)
    case Some(DocsExport) => ExportEffect(fs, cfg, Sanitised(title), url, path)
    case Some(Video) => VideoEffect(fs, cfg, url, path)
    case Some(NotHandled) => Log(fs, path + NotHandledLog, url + "\n")
  }

  /** The file a topic's content goes to, for the kinds that fetch something they can name. */
  function BsTarget(cfg: Config, title: string, url: string, path: string): Option<string>
  {
    match ClassifyBs(url, cfg.noVideo)
    case Some(CdnFile) => Some(path + CdnFileName(Sanitised(title), url))
    case Some(DriveFile) => Some(path + Sanitised(title))
    case Some(DocsExport) =>
      if ExportFormatOf(url).None? then None
      else Some(path + Sanitised(title) + "." + ExportFormatOf(url).value.ext)
    case Some(Video) =>
      if url in cfg.videoTitle then Some(path + cfg.videoTitle[url] + ".mp4") else None
    case _ => None
  }

  /** The request whose body is stored there. */
  function BsRequest(cfg: Config, url: string): Option<string>
  {
    match ClassifyBs(url, cfg.noVideo)
    case Some(CdnFile) => Some(cfg.baseUrl + url)
    case Some(DriveFile) =>
      if DriveFileId(url).None? then None else Some(DriveMediaRequest(DriveFileId(url).value))
    case Some(DocsExport) =>
      if ExportFormatOf(url).None? || ExportFileId(url).None? then None
      else Some(ExportRequest(ExportFileId(url).value, ExportFormatOf(url).value.mime))
    case Some(Video) => Some(url)
    case _ => None
  }

  /** The existence test of the skip rule: the target, or for Drive files also the target with `.mp4`. */
  ghost predicate Mirrored(fs: Fs, cfg: Config, title: string, url: string, path: string)
  {
    && BsTarget(cfg, title, url, path).Some?
    && var t := BsTarget(cfg, title, url, path).value;
       (t in fs.files || (ClassifyBs(url, cfg.noVideo) == Some(DriveFile) && t + ".mp4" in fs.files))
  }

  /** A CDN video withheld by `NO_VIDEO`. */
  predicate Withheld(cfg: Config, title: string, url: string)
  {
    ClassifyBs(url, cfg.noVideo) == Some(CdnFile) && IsVideoName(CdnFileName(Sanitised(title), url)) && cfg.noVideo
  }

  /** The one path a topic can change: its target, or the `nothandled.txt` log of its directory. */
  function BsTouched(cfg: Config, title: string, url: string, path: string): (p: string)
    ensures HasPrefix(p, path)
  {
    var t := BsTarget(cfg, title, url, path);
    if t.Some? then t.value else path + NotHandledLog
  }

  /**
   * The skip rule: content already mirrored is neither fetched nor logged,
   * unless `FORCE` is set; a video is skipped whatever `FORCE` says; and a CDN
   * file whose lower-cased extension is a video extension is skipped when
   * `NO_VIDEO` is set, mirrored or not.
   */
  lemma BsSkipRule(fs: Fs, cfg: Config, title: string, url: string, path: string)
    requires
      || (Mirrored(fs, cfg, title, url, path) && (!cfg.force || ClassifyBs(url, cfg.noVideo) == Some(Video)))
      || Withheld(cfg, title, url)
    ensures BsFileEffect(fs, cfg, title, url, path) == (Continue, fs)
  {
  }

  /**
   * A Drive topic whose title sanitises to nothing (`"???"`, or only
   * whitespace) targets its own directory: `open` raises IsADirectoryError,
   * which nothing catches.
   */
  lemma BlankDriveTitleAborts(fs: Fs, cfg: Config, title: string, url: string, path: string)
    requires ClassifyBs(url, cfg.noVideo) == Some(DriveFile) && DriveFileId(url).Some?
    requires Sanitised(title) == [] && path in fs.dirs
    requires cfg.force || (path !in fs.files && path + ".mp4" !in fs.files)
    ensures BsFileEffect(fs, cfg, title, url, path) == (Abort(OsFailure(path, IsADirectory)), fs)
  {
    DriveTopicEffect(fs, cfg, title, url, path);
    BlankDriveTargetAborts(fs, cfg, url, path);
  }

  lemma DriveTopicEffect(fs: Fs, cfg: Config, title: string, url: string, path: string)
    requires ClassifyBs(url, cfg.noVideo) == Some(DriveFile)
    ensures BsFileEffect(fs, cfg, title, url, path) == DriveEffect(fs, cfg, Sanitised(title), url, path)
  {
  }

  lemma BlankDriveTargetAborts(fs: Fs, cfg: Config, url: string, path: string)
    requires DriveFileId(url).Some? && path in fs.dirs
    requires cfg.force || (path !in fs.files && path + ".mp4" !in fs.files)
    ensures DriveEffect(fs, cfg, "", url, path) == (Abort(OsFailure(path, IsADirectory)), fs)
  {
    assert path + "" == path;
    assert WriteError(fs, path) == Some(IsADirectory);
  }

  /**
   * The fetch rule: content that is not mirrored yet, or any non-video content
   * when `FORCE` is set, is fetched and stored at its target, unless it is a CDN
   * video withheld by `NO_VIDEO` or the target cannot be opened for writing.
   */
  lemma BsFetchRule(fs: Fs, cfg: Config, title: string, url: string, path: string)
    requires BsTarget(cfg, title, url, path).Some? && BsRequest(cfg, url).Some?
    requires !Mirrored(fs, cfg, title, url, path) || (cfg.force && ClassifyBs(url, cfg.noVideo) != Some(Video))
    requires !Withheld(cfg, title, url)
    requires WriteError(fs, BsTarget(cfg, title, url, path).value).None?
    ensures BsFileEffect(fs, cfg, title, url, path)
      == (Continue, Write(fs, BsTarget(cfg, title, url, path).value, [Download(BsRequest(cfg, url).value)]))
  {
    var name := Sanitised(title);
    match ClassifyBs(url, cfg.noVideo)
    case Some(CdnFile) =>
      assert BsFileEffect(fs, cfg, title, url, path) == CdnEffect(fs, cfg, name, url, path);
      CdnFetch(fs, cfg, name, url, path);
    case Some(DriveFile) =>
      assert BsFileEffect(fs, cfg, title, url, path) == DriveEffect(fs, cfg, name, url, path);
      DriveFetch(fs, cfg, name, url, path);
    case Some(DocsExport) =>
      assert BsFileEffect(fs, cfg, title, url, path) == ExportEffect(fs, cfg, name, url, path);
      ExportFetch(fs, cfg, name, url, path);
    case Some(Video) =>
      assert BsFileEffect(fs, cfg, title, url, path) == VideoEffect(fs, cfg, url, path);
      VideoFetch(fs, cfg, url, path);
  }

  lemma CdnFetch(fs: Fs, cfg: Config, name: string, url: string, path: string)
    requires path + CdnFileName(name, url) !in fs.files || cfg.force
    requires !(IsVideoName(CdnFileName(name, url)) && cfg.noVideo)
    requires WriteError(fs, path + CdnFileName(name, url)).None?
    ensures CdnEffect(fs, cfg, name, url, path)
      == (Continue, Write(fs, path + CdnFileName(name, url), [Download(cfg.baseUrl + url)]))
  {
  }

  lemma DriveFetch(fs: Fs, cfg: Config, name: string, url: string, path: string)
    requires (path + name !in fs.files && path + name + ".mp4" !in fs.files) || cfg.force
    requires DriveFileId(url).Some? && WriteError(fs, path + name).None?
    ensures DriveEffect(fs, cfg, name, url, path)
      == (Continue, Write(fs, path + name, [Download(DriveMediaRequest(DriveFileId(url).value))]))
  {
  }

  lemma ExportFetch(fs: Fs, cfg: Config, name: string, url: string, path: string)
    requires ExportFormatOf(url).Some? && ExportFileId(url).Some?
    requires path + name + "." + ExportFormatOf(url).value.ext !in fs.files || cfg.force
    requires WriteError(fs, path + name + "." + ExportFormatOf(url).value.ext).None?
    ensures ExportEffect(fs, cfg, name, url, path)
      == (Continue, Write(fs, path + name + "." + ExportFormatOf(url).value.ext,
                          [Download(ExportRequest(ExportFileId(url).value, ExportFormatOf(url).value.mime))]))
  {
  }

  lemma VideoFetch(fs: Fs, cfg: Config, url: string, path: string)
    requires url in cfg.videoTitle && path + cfg.videoTitle[url] + ".mp4" !in fs.files
    requires WriteError(fs, path + cfg.videoTitle[url] + ".mp4").None?
    ensures VideoEffect(fs, cfg, url, path)
      == (Continue, Write(fs, path + cfg.videoTitle[url] + ".mp4", [Download(url)]))
  {
  }

  /** A CDN fetch changes at most its target. */
  lemma CdnFootprint(fs: Fs, cfg: Config, name: string, url: string, path: string)
    ensures SameExcept(fs, CdnEffect(fs, cfg, name, url, path).1, path + CdnFileName(name, url))
    ensures Wf(fs) ==> Wf(CdnEffect(fs, cfg, name, url, path).1)
  {
  }

  /** A Drive fetch changes at most its target. */
  lemma DriveFootprint(fs: Fs, cfg: Config, name: string, url: string, path: string)
    ensures SameExcept(fs, DriveEffect(fs, cfg, name, url, path).1, path + name)
    ensures Wf(fs) ==> Wf(DriveEffect(fs, cfg, name, url, path).1)
  {
    var r := DriveEffect(fs, cfg, name, url, path).1;
    var id := DriveFileId(url);
    if ((path + name in fs.files || path + name + ".mp4" in fs.files) && !cfg.force) || id.None? {
      assert r == fs;
    } else {
      assert r == Store(fs, path + name, [Download(DriveMediaRequest(id.value))]).1;
    }
  }

  /** A Docs export changes at most its target, and nothing when the format is unknown. */
  lemma ExportFootprint(fs: Fs, cfg: Config, name: string, url: string, path: string)
    ensures ExportFormatOf(url).None? ==> ExportEffect(fs, cfg, name, url, path) == (Continue, fs)
    ensures ExportFormatOf(url).Some? ==>
      SameExcept(fs, ExportEffect(fs, cfg, name, url, path).1, path + name + "." + ExportFormatOf(url).value.ext)
    ensures Wf(fs) ==> Wf(ExportEffect(fs, cfg, name, url, path).1)
  {
    var r := ExportEffect(fs, cfg, name, url, path).1;
    var format := ExportFormatOf(url);
    if format.Some? {
      var target := path + name + "." + format.value.ext;
      var id := ExportFileId(url);
      if (target in fs.files && !cfg.force) || id.None? {
        assert r == fs;
      } else {
        assert r == Store(fs, target, [Download(ExportRequest(id.value, format.value.mime))]).1;
      }
    }
  }

  /** A video download changes at most its target, and nothing when the library fails. */
  lemma VideoFootprint(fs: Fs, cfg: Config, url: string, path: string)
    ensures url !in cfg.videoTitle ==> VideoEffect(fs, cfg, url, path).1 == fs
    ensures url in cfg.videoTitle ==>
      SameExcept(fs, VideoEffect(fs, cfg, url, path).1, path + cfg.videoTitle[url] + ".mp4")
    ensures Wf(fs) ==> Wf(VideoEffect(fs, cfg, url, path).1)
  {
  }

  /** A topic changes at most one file, below its directory, and never a directory. */
  lemma BsFileFootprint(fs: Fs, cfg: Config, title: string, url: string, path: string)
    ensures SameExcept(fs, BsFileEffect(fs, cfg, title, url, path).1, BsTouched(cfg, title, url, path))
    ensures ConfinedTo(fs, BsFileEffect(fs, cfg, title, url, path).1, path)
    ensures Wf(fs) ==> Wf(BsFileEffect(fs, cfg, title, url, path).1)
  {
    var name := Sanitised(title);
    match ClassifyBs(url, cfg.noVideo)
    case None =>
    case Some(CdnFile) => CdnFootprint(fs, cfg, name, url, path);
    case Some(DriveFile) => DriveFootprint(fs, cfg, name, url, path);
    case Some(DocsExport) => ExportFootprint(fs, cfg, name, url, path);
    case Some(Video) => VideoFootprint(fs, cfg, url, path);
    case Some(NotHandled) =>
    ConfinedSingle(fs, BsFileEffect(fs, cfg, title, url, path).1, BsTouched(cfg, title, url, path), path);
  }

  /** An unrecognised locator is appended, with a line break, to the directory's `nothandled.txt`. */
  lemma BsNotHandledLogged(fs: Fs, cfg: Config, title: string, url: string, path: string)
    requires ClassifyBs(url, cfg.noVideo) == Some(NotHandled)
    ensures var r := BsFileEffect(fs, cfg, title, url, path);
      && (r.0 == Continue <==> WriteError(fs, path + NotHandledLog).None?)
      && (r.0 == Continue ==> r.1.files[path + NotHandledLog] == Existing(fs, path + NotHandledLog) + [Written(url + "\n")])
  {
  }

  /** An empty locator ends the run (indexing its first character raises). */
  lemma BsEmptyUrlAborts(fs: Fs, cfg: Config, title: string, path: string)
    ensures BsFileEffect(fs, cfg, title, [], path) == (Abort(EmptyUrl), fs)
  {
  }

  /** A Drive or Docs locator that is due to be fetched but holds no file id ends the run. */
  lemma BsMissingIdAborts(fs: Fs, cfg: Config, title: string, url: string, path: string)
    requires ClassifyBs(url, cfg.noVideo) in {Some(DriveFile), Some(DocsExport)}
    requires BsTarget(cfg, title, url, path).Some? && BsRequest(cfg, url).None?
    requires !Mirrored(fs, cfg, title, url, path) || cfg.force
    ensures BsFileEffect(fs, cfg, title, url, path) == (Abort(NoFileId(url)), fs)
  {
  }

  /**
   * CDN files and videos never end the run: their failures are warned about or
   * swallowed. Nor does a Docs link of unknown format, which is only warned about.
   */
  lemma BsFileAbortCauses(fs: Fs, cfg: Config, title: string, url: string, path: string)
    requires BsFileEffect(fs, cfg, title, url, path).0.Abort?
    ensures ClassifyBs(url, cfg.noVideo) in {None, Some(DriveFile), Some(DocsExport), Some(NotHandled)}
    ensures ClassifyBs(url, cfg.noVideo) == Some(DocsExport) ==> ExportFormatOf(url).Some?
  {
  }

  /** Without `FORCE`, a second CDN fetch of the same topic changes nothing. */
  lemma CdnRerun(fs: Fs, cfg: Config, name: string, url: string, path: string)
    requires !cfg.force
    ensures var fs2 := CdnEffect(fs, cfg, name, url, path).1;
      CdnEffect(fs2, cfg, name, url, path) == (Continue, fs2)
  {
  }

  /** Without `FORCE`, a second Drive fetch after a successful one changes nothing. */
  lemma DriveRerun(fs: Fs, cfg: Config, name: string, url: string, path: string)
    requires !cfg.force
    requires DriveEffect(fs, cfg, name, url, path).0 == Continue
    ensures var fs2 := DriveEffect(fs, cfg, name, url, path).1;
      DriveEffect(fs2, cfg, name, url, path) == (Continue, fs2)
  {
  }

  /** Without `FORCE`, a second export after a successful one changes nothing. */
  lemma ExportRerun(fs: Fs, cfg: Config, name: string, url: string, path: string)
    requires !cfg.force
    requires ExportEffect(fs, cfg, name, url, path).0 == Continue
    ensures var fs2 := ExportEffect(fs, cfg, name, url, path).1;
      ExportEffect(fs2, cfg, name, url, path) == (Continue, fs2)
  {
  }

  /** A second video download changes nothing, `FORCE` or not. */
  lemma VideoRerun(fs: Fs, cfg: Config, url: string, path: string)
    ensures var fs2 := VideoEffect(fs, cfg, url, path).1;
      VideoEffect(fs2, cfg, url, path) == (Continue, fs2)
  {
  }

  /** Without `FORCE`, handling a topic a second time changes nothing. */
  lemma BsFileSecondRunSkips(fs: Fs, cfg: Config, title: string, url: string, path: string)
    requires !cfg.force
    requires ClassifyBs(url, cfg.noVideo) != Some(NotHandled)
    requires BsFileEffect(fs, cfg, title, url, path).0 == Continue
    ensures var fs2 := BsFileEffect(fs, cfg, title, url, path).1;
      BsFileEffect(fs2, cfg, title, url, path) == (Continue, fs2)
  {
    var name := Sanitised(title);
    match ClassifyBs(url, cfg.noVideo)
    case Some(CdnFile) => CdnRerun(fs, cfg, name, url, path);
    case Some(DriveFile) => DriveRerun(fs, cfg, name, url, path);
    case Some(DocsExport) => ExportRerun(fs, cfg, name, url, path);
    case Some(Video) => VideoRerun(fs, cfg, url, path);
  }

  method FetchCdnFile(disk: Disk, cfg: Config, name: string, url: string, path: string)
    modifies disk
    ensures (Continue, disk.State()) == CdnEffect(old(disk.State()), cfg, name, url, path)
  {
    var file := CdnFileName(name, url);
    var present := disk.HasFile(path + file);
    if !present || cfg.force {
      if IsVideoName(file) && cfg.noVideo {
      } else {
        var err := disk.WriteFile(path + file, [Download(cfg.baseUrl + url)]);
        assert err.Some? ==> CdnEffect(old(disk.State()), cfg, name, url, path) == (Continue, old(disk.State()));
      }
    }
  }

  method FetchDriveFile(disk: Disk, cfg: Config, name: string, url: string, path: string) returns (o: Outcome)
    modifies disk
    ensures (o, disk.State()) == DriveEffect(old(disk.State()), cfg, name, url, path)
  {
    o := Continue;
    var present := disk.HasFile(path + name);
    var presentVideo := disk.HasFile(path + name + ".mp4");
    if !(present || presentVideo) || cfg.force {
      var id := DriveFileId(url);
      if id.None? {
        o := Abort(NoFileId(url));
      } else {
        o := disk.StoreFile(path + name, [Download(DriveMediaRequest(id.value))]);
      }
    }
  }

  method ExportDocsFile(disk: Disk, cfg: Config, name: string, url: string, path: string) returns (o: Outcome)
    modifies disk
    ensures (o, disk.State()) == ExportEffect(old(disk.State()), cfg, name, url, path)
  {
    o := Continue;
    var format := ExportFormatOf(url);
    if format.Some? {
      var target := path + name + "." + format.value.ext;
      var present := disk.HasFile(target);
      if !present || cfg.force {
        var id := ExportFileId(url);
        if id.None? {
          o := Abort(NoFileId(url));
        } else {
          o := disk.StoreFile(target, [Download(ExportRequest(id.value, format.value.mime))]);
        }
      }
    }
  }

  method FetchVideo(disk: Disk, cfg: Config, url: string, path: string)
    modifies disk
    ensures (Continue, disk.State()) == VideoEffect(old(disk.State()), cfg, url, path)
  {
    if url in cfg.videoTitle {
      var target := path + cfg.videoTitle[url] + ".mp4";
      var present := disk.HasFile(target);
      if !present {
        var err := disk.WriteFile(target, [Download(url)]);
      }
    }
  }

  /** `download_bs_file`: classify the locator and take the matching branch. */
  method DownloadBsFile(disk: Disk, cfg: Config, title: string, url: string, path: string) returns (o: Outcome)
    modifies disk
    ensures (o, disk.State()) == BsFileEffect(old(disk.State()), cfg, title, url, path)
  {
    o := Continue;
    match ClassifyBs(url, cfg.noVideo) {
      case None =>
        o := Abort(EmptyUrl);
      case Some(CdnFile) =>
        var name := SanitiseTitle(title);
        FetchCdnFile(disk, cfg, name, url, path);
      case Some(DriveFile) =>
        var name := SanitiseTitle(title);
        o := FetchDriveFile(disk, cfg, name, url, path);
      case Some(DocsExport) =>
        var name := SanitiseTitle(title);
        o := ExportDocsFile(disk, cfg, name, url, path);
      case Some(Video) =>
        FetchVideo(disk, cfg, url, path);
      case Some(NotHandled) =>
        o := disk.LogText(path + NotHandledLog, url + "\n");
    }
  }

  // ---------------------------------------------------------------------------
  // Folders: download_bs_folder (singularity.py:180-197)
  // ---------------------------------------------------------------------------

  /** The `index.html` of a new folder or module directory. */
  function IndexPage(title: string, html: string): string
  {
    "<h1>" + title + "<h1><br><hr><br>" + html
  }

  /**
   * Making the directory of a folder or module: when `os.mkdir` creates it, its
   * `index.html` is written; when it raises FileExistsError, the stale log
   * `stale` is removed instead (a missing log is fine). Any other error ends the run.
   */
  function EnterDir(fs: Fs, dir: string, stale: string, title: string, html: string): (Outcome, Fs)
  {
    var mkdir := MkdirError(fs, dir);
    if mkdir.None? then Store(Mkdir(fs, dir), dir + "index.html", [Written(IndexPage(title, html))])
    else if mkdir.value != FileExists then (Abort(OsFailure(dir, mkdir.value)), fs)
    else
      var remove := RemoveError(fs, stale);
      if remove.None? then (Continue, Remove(fs, stale))
      else if remove.value == NotFound then (Continue, fs)
      else (Abort(OsFailure(stale, remove.value)), fs)
  }

  /** The directory a folder is mirrored to. */
  function FolderDir(title: string, path: string): (dir: string)
    ensures HasPrefix(dir, path) && |dir| > |path| && dir[|dir| - 1] == '/'
  {
    path + Sanitised(title) + "/"
  }

  /** The effect of one entry of a listing: a folder is walked, a topic handled. */
  function BsNodeEffect(fs: Fs, cfg: Config, n: Node, path: string): (Outcome, Fs)
    decreases n
  {
    match n
    case Topic(title, url) => BsFileEffect(fs, cfg, title, url, path)
    case Folder(title, html, children) =>
      var dir := FolderDir(title, path);
      var (o, fs1) := EnterDir(fs, dir, dir + NotHandledLog, title, html);
      if o.Abort? then (o, fs1) else BsChildrenEffect(fs1, cfg, children, dir)
  }

  /** The effect of a listing, entry by entry in order, stopping at the first failure. */
  function BsChildrenEffect(fs: Fs, cfg: Config, cs: seq<Node>, dir: string): (Outcome, Fs)
    decreases cs
  {
    if cs == [] then (Continue, fs)
    else
      var (o, fs1) := BsNodeEffect(fs, cfg, cs[0], dir);
      if o.Abort? then (o, fs1) else BsChildrenEffect(fs1, cfg, cs[1..], dir)
  }

  /** One step of a listing's walk: its first entry, then the rest unless that failed. */
  lemma BsChildrenStep(fs: Fs, cfg: Config, cs: seq<Node>, dir: string)
    requires cs != []
    ensures var r := BsNodeEffect(fs, cfg, cs[0], dir);
      BsChildrenEffect(fs, cfg, cs, dir) == if r.0.Abort? then r else BsChildrenEffect(r.1, cfg, cs[1..], dir)
  {
  }

  /** Walking a listing is walking its first part, then, unless that failed, the rest. */
  lemma {:induction false} BsChildrenAppend(fs: Fs, cfg: Config, a: seq<Node>, b: seq<Node>, dir: string)
    ensures var (o, fs1) := BsChildrenEffect(fs, cfg, a, dir);
      BsChildrenEffect(fs, cfg, a + b, dir) == if o.Abort? then (o, fs1) else BsChildrenEffect(fs1, cfg, b, dir)
    decreases a
  {
    if a == [] {
      assert a + b == b;
    } else {
      assert (a + b)[0] == a[0] && (a + b)[1..] == a[1..] + b;
      var (o, fs1) := BsNodeEffect(fs, cfg, a[0], dir);
      if o.Continue? {
        BsChildrenAppend(fs1, cfg, a[1..], b, dir);
      }
    }
  }

  /** The directories a folder's walk creates: its own and, below it, those of its sub-folders. */
  function NodeDirs(n: Node, path: string): set<string>
    decreases n
  {
    match n
    case Topic(_, _) => {}
    case Folder(title, _, children) => {FolderDir(title, path)} + ChildrenDirs(children, FolderDir(title, path))
  }

  function ChildrenDirs(cs: seq<Node>, dir: string): set<string>
    decreases cs
  {
    if cs == [] then {} else NodeDirs(cs[0], dir) + ChildrenDirs(cs[1..], dir)
  }

  /**
   * Entering a directory adds at most that directory, changes at most its
   * `index.html` and the stale log, and keeps every file inside an existing
   * directory.
   */
  lemma EnterDirFootprint(fs: Fs, dir: string, stale: string, title: string, html: string)
    ensures var r := EnterDir(fs, dir, stale, title, html);
      && fs.dirs <= r.1.dirs <= fs.dirs + {dir}
      && (forall q :: q != stale && q != dir + "index.html" ==> Untouched(fs, r.1, q))
      && (Wf(fs) ==> Wf(r.1))
  {
    var r := EnterDir(fs, dir, stale, title, html);
    if MkdirError(fs, dir).None? {
      assert r == Store(Mkdir(fs, dir), dir + "index.html", [Written(IndexPage(title, html))]);
    } else if MkdirError(fs, dir).value == FileExists && RemoveError(fs, stale).None? {
      assert r.1 == Remove(fs, stale);
    } else {
      assert r.1 == fs;
    }
  }

  /** A folder directory entered without failure exists afterwards. */
  lemma DirEntered(fs: Fs, dir: string, title: string, html: string)
    requires Wf(fs)
    requires dir != [] && dir[|dir| - 1] == '/'
    requires EnterDir(fs, dir, dir + NotHandledLog, title, html).0 == Continue
    ensures dir in EnterDir(fs, dir, dir + NotHandledLog, title, html).1.dirs
  {
    if dir in fs.dirs {
      EnterDirFootprint(fs, dir, dir + NotHandledLog, title, html);
    } else {
      assert '/' !in NotHandledLog;
      ParentOfEntry(dir, NotHandledLog);
      assert DropSlash(dir + NotHandledLog) == dir + NotHandledLog;
    }
  }

  /** A directory made afresh gets the folder's `index.html`, holding its title and description. */
  lemma NewDirIndexed(fs: Fs, dir: string, stale: string, title: string, html: string)
    requires dir != [] && dir[|dir| - 1] == '/'
    requires MkdirError(fs, dir).None? && EnterDir(fs, dir, stale, title, html).0 == Continue
    ensures var r := EnterDir(fs, dir, stale, title, html).1;
      && dir in r.dirs
      && dir + "index.html" in r.files
      && r.files[dir + "index.html"] == [Written(IndexPage(title, html))]
  {
    assert '/' !in "index.html";
    StoredEntry(Mkdir(fs, dir), dir, "index.html", [Written(IndexPage(title, html))]);
  }

  /** Entering a folder's directory below `path` changes nothing outside `path`. */
  lemma EnterDirConfined(fs: Fs, dir: string, path: string, title: string, html: string)
    requires HasPrefix(dir, path)
    ensures ConfinedTo(fs, EnterDir(fs, dir, dir + NotHandledLog, title, html).1, path)
  {
    EnterDirFootprint(fs, dir, dir + NotHandledLog, title, html);
    PrefixTrans(dir + "index.html", dir, path);
    PrefixTrans(dir + NotHandledLog, dir, path);
  }

  /** A walk never takes a directory away, and keeps every file inside an existing directory. */
  lemma {:induction false} BsNodeKeepsDirs(fs: Fs, cfg: Config, n: Node, path: string)
    ensures fs.dirs <= BsNodeEffect(fs, cfg, n, path).1.dirs
    ensures Wf(fs) ==> Wf(BsNodeEffect(fs, cfg, n, path).1)
    decreases n
  {
    match n
    case Topic(title, url) =>
      assert BsNodeEffect(fs, cfg, n, path) == BsFileEffect(fs, cfg, title, url, path);
      BsFileFootprint(fs, cfg, title, url, path);
    case Folder(title, html, children) =>
      var dir := FolderDir(title, path);
      var r1 := EnterDir(fs, dir, dir + NotHandledLog, title, html);
      EnterDirFootprint(fs, dir, dir + NotHandledLog, title, html);
      if r1.0.Continue? {
        assert BsNodeEffect(fs, cfg, n, path) == BsChildrenEffect(r1.1, cfg, children, dir);
        BsChildrenKeepDirs(r1.1, cfg, children, dir);
      } else {
        assert BsNodeEffect(fs, cfg, n, path) == r1;
      }
  }

  lemma {:induction false} BsChildrenKeepDirs(fs: Fs, cfg: Config, cs: seq<Node>, dir: string)
    ensures fs.dirs <= BsChildrenEffect(fs, cfg, cs, dir).1.dirs
    ensures Wf(fs) ==> Wf(BsChildrenEffect(fs, cfg, cs, dir).1)
    decreases cs
  {
    if cs != [] {
      var r1 := BsNodeEffect(fs, cfg, cs[0], dir);
      BsNodeKeepsDirs(fs, cfg, cs[0], dir);
      if r1.0.Continue? {
        BsChildrenKeepDirs(r1.1, cfg, cs[1..], dir);
      }
    }
  }

  /**
   * A walk that does not fail, started with every file inside an existing
   * directory, leaves the directory of every folder of the tree on disk.
   */
  lemma {:induction false} BsNodeMirrorsTree(fs: Fs, cfg: Config, n: Node, path: string)
    requires Wf(fs)
    requires BsNodeEffect(fs, cfg, n, path).0 == Continue
    ensures NodeDirs(n, path) <= BsNodeEffect(fs, cfg, n, path).1.dirs
    decreases n
  {
    match n
    case Topic(_, _) =>
    case Folder(title, html, children) =>
      var dir := FolderDir(title, path);
      var r1 := EnterDir(fs, dir, dir + NotHandledLog, title, html);
      DirEntered(fs, dir, title, html);
      EnterDirFootprint(fs, dir, dir + NotHandledLog, title, html);
      BsChildrenMirrorTree(r1.1, cfg, children, dir);
      BsChildrenKeepDirs(r1.1, cfg, children, dir);
  }

  lemma {:induction false} BsChildrenMirrorTree(fs: Fs, cfg: Config, cs: seq<Node>, dir: string)
    requires Wf(fs)
    requires BsChildrenEffect(fs, cfg, cs, dir).0 == Continue
    ensures ChildrenDirs(cs, dir) <= BsChildrenEffect(fs, cfg, cs, dir).1.dirs
    decreases cs
  {
    if cs != [] {
      var r1 := BsNodeEffect(fs, cfg, cs[0], dir);
      BsNodeMirrorsTree(fs, cfg, cs[0], dir);
      BsNodeKeepsDirs(fs, cfg, cs[0], dir);
      BsChildrenMirrorTree(r1.1, cfg, cs[1..], dir);
      BsChildrenKeepDirs(r1.1, cfg, cs[1..], dir);
    }
  }

  /** A walk of an entry in directory `path` changes nothing outside `path`. */
  lemma {:induction false} BsNodeConfined(fs: Fs, cfg: Config, n: Node, path: string)
    ensures ConfinedTo(fs, BsNodeEffect(fs, cfg, n, path).1, path)
    decreases n
  {
    match n
    case Topic(title, url) =>
      BsFileFootprint(fs, cfg, title, url, path);
    case Folder(title, html, children) =>
      var dir := FolderDir(title, path);
      var r1 := EnterDir(fs, dir, dir + NotHandledLog, title, html);
      EnterDirConfined(fs, dir, path, title, html);
      if r1.0.Continue? {
        var r2 := BsChildrenEffect(r1.1, cfg, children, dir);
        BsChildrenConfined(r1.1, cfg, children, dir);
        ConfinedNest(fs, r1.1, r2.1, path, dir);
      }
  }

  lemma {:induction false} BsChildrenConfined(fs: Fs, cfg: Config, cs: seq<Node>, dir: string)
    ensures ConfinedTo(fs, BsChildrenEffect(fs, cfg, cs, dir).1, dir)
    decreases cs
  {
    if cs != [] {
      var r1 := BsNodeEffect(fs, cfg, cs[0], dir);
      BsNodeConfined(fs, cfg, cs[0], dir);
      if r1.0.Continue? {
        BsChildrenConfined(r1.1, cfg, cs[1..], dir);
        ConfinedTrans(fs, r1.1, BsChildrenEffect(r1.1, cfg, cs[1..], dir).1, dir);
      }
    }
  }

  /**
   * Visiting an existing folder directory again leaves its `index.html` alone
   * and clears its `nothandled.txt`, so the log only lists what the latest run
   * could not handle. Only a directory standing where the log should be stops
   * the run, with IsADirectoryError.
   */
  lemma FolderRevisitClearsLog(fs: Fs, dir: string, title: string, html: string)
    requires dir != [] && dir[|dir| - 1] == '/'
    requires dir in fs.dirs
    ensures var log := dir + NotHandledLog;
      EnterDir(fs, dir, log, title, html)
      == if log !in fs.files && (log in fs.dirs || log + "/" in fs.dirs)
         then (Abort(OsFailure(log, IsADirectory)), fs)
         else (Continue, fs.(files := fs.files - {log}))
  {
    var log := dir + NotHandledLog;
    assert '/' !in NotHandledLog;
    ParentOfEntry(dir, NotHandledLog);
    if log !in fs.files {
      assert fs.files - {log} == fs.files;
    }
  }

  /** `os.mkdir` followed by the `index.html` write, or the removal of the stale log. */
  method EnterDirectory(disk: Disk, dir: string, stale: string, title: string, html: string) returns (o: Outcome)
    modifies disk
    ensures (o, disk.State()) == EnterDir(old(disk.State()), dir, stale, title, html)
  {
    var mkdir := disk.MakeDir(dir);
    if mkdir.None? {
      o := disk.StoreFile(dir + "index.html", [Written(IndexPage(title, html))]);
    } else if mkdir.value != FileExists {
      o := Abort(OsFailure(dir, mkdir.value));
    } else {
      var remove := disk.RemoveFile(stale);
      if remove.None? || remove.value == NotFound {
        o := Continue;
      } else {
        o := Abort(OsFailure(stale, remove.value));
      }
    }
  }

  /** `download_bs_folder`: enter the folder's directory, then walk its structure. */
  method DownloadBsFolder(disk: Disk, cfg: Config, folder: Node, path: string) returns (o: Outcome)
    requires folder.Folder?
    modifies disk
    ensures (o, disk.State()) == BsNodeEffect(old(disk.State()), cfg, folder, path)
    decreases folder, 0
  {
    var name := SanitiseTitle(folder.title);
    var dir := path + name + "/";
    o := EnterDirectory(disk, dir, dir + NotHandledLog, folder.title, folder.html);
    if o.Continue? {
      o := DownloadStructure(disk, cfg, folder.children, dir);
    }
  }

  /** One entry of a structure: `Type == 0` recurses, everything else goes to the file handler. */
  method DownloadEntry(disk: Disk, cfg: Config, n: Node, dir: string) returns (o: Outcome)
    modifies disk
    ensures (o, disk.State()) == BsNodeEffect(old(disk.State()), cfg, n, dir)
    decreases n, 1
  {
    if n.Folder? {
      o := DownloadBsFolder(disk, cfg, n, dir);
    } else {
      o := DownloadBsFile(disk, cfg, n.title, n.url, dir);
    }
  }

  /** The `for a in m['Structure']` loop: folders recurse, everything else goes to the file handler. */
  method DownloadStructure(disk: Disk, cfg: Config, cs: seq<Node>, dir: string) returns (o: Outcome)
    modifies disk
    ensures (o, disk.State()) == BsChildrenEffect(old(disk.State()), cfg, cs, dir)
    decreases cs, 2
  {
    ghost var start := disk.State();
    o := Continue;
    var i := 0;
    while i < |cs|
      invariant 0 <= i <= |cs|
      invariant BsChildrenEffect(start, cfg, cs, dir) == BsChildrenEffect(disk.State(), cfg, cs[i..], dir)
      invariant o == Continue
    {
      ghost var before := disk.State();
      BsChildrenStep(before, cfg, cs[i..], dir);
      assert cs[i..][0] == cs[i] && cs[i..][1..] == cs[i + 1..];
      o := DownloadEntry(disk, cfg, cs[i], dir);
      if o.Abort? {
        return;
      }
      i := i + 1;
    }
    assert cs[i..] == [];
  }

  // ---------------------------------------------------------------------------
  // The course: download_brightspace (singularity.py:266-317)
  // ---------------------------------------------------------------------------

  /** `./Downloads/<course>/`. */
  function CourseDir(course: string): string
  {
    Downloads + course + "/"
  }

  /** The directory a module is mirrored to. */
  function ModuleDir(course: string, m: Module): string
  {
    CourseDir(course) + Sanitised(m.title) + "/"
  }

  /** The log a revisited module removes: the path is written without `./Downloads/`. */
  function ModuleStaleLog(course: string, m: Module): string
  {
    course + "/" + Sanitised(m.title) + "/" + NotHandledLog
  }

  /** The effect of one module: its directory is entered and its structure walked. */
  function ModuleEffect(fs: Fs, cfg: Config, course: string, m: Module): (Outcome, Fs)
  {
    var dir := ModuleDir(course, m);
    var (o, fs1) := EnterDir(fs, dir, ModuleStaleLog(course, m), m.title, m.html);
    if o.Abort? then (o, fs1) else BsChildrenEffect(fs1, cfg, m.structure, dir)
  }

  /** The effect of the module loop: module after module, in listing order, until one fails. */
  function BsModulesEffect(fs: Fs, cfg: Config, course: string, ms: seq<Module>): (Outcome, Fs)
    decreases |ms|
  {
    if ms == [] then (Continue, fs)
    else
      var r := ModuleEffect(fs, cfg, course, ms[0]);
      if r.0.Abort? then r else BsModulesEffect(r.1, cfg, course, ms[1..])
  }

  /** The start of a course: its directory is made unless it exists, and `brightspace.ct` is written empty. */
  function CourseSetupEffect(fs: Fs, course: string): (Outcome, Fs)
  {
    var base := CourseDir(course);
    var mkdir := MkdirError(fs, base);
    if mkdir.Some? && mkdir.value != FileExists then (Abort(OsFailure(base, mkdir.value)), fs)
    else Store(if mkdir.None? then Mkdir(fs, base) else fs, base + "brightspace.ct", [])
  }

  /**
   * The effect of mirroring a course: the set-up and, if the module listing
   * could be read, every module; an unreadable listing ends the run.
   */
  function BrightspaceEffect(fs: Fs, cfg: Config, course: string, listing: Option<seq<Module>>): (Outcome, Fs)
  {
    var (o, fs1) := CourseSetupEffect(fs, course);
    if o.Abort? then (o, fs1)
    else if listing.None? then (Abort(BadListing), fs1)
    else BsModulesEffect(fs1, cfg, course, listing.value)
  }

  /**
   * Entering a module's directory never touches the module's own
   * `nothandled.txt`: the log it removes on a revisit lies elsewhere, so
   * a module's log keeps growing from run to run.
   */
  lemma ModuleEntryKeepsOwnLog(fs: Fs, course: string, m: Module)
    ensures Untouched(fs, EnterDir(fs, ModuleDir(course, m), ModuleStaleLog(course, m), m.title, m.html).1,
                      ModuleDir(course, m) + NotHandledLog)
  {
    var dir := ModuleDir(course, m);
    EnterDirFootprint(fs, dir, ModuleStaleLog(course, m), m.title, m.html);
    assert |dir + NotHandledLog| == |ModuleStaleLog(course, m)| + |Downloads|;
    assert |dir + NotHandledLog| == |dir + "index.html"| + 4;
  }

  /** A course whose module listing cannot be read ends the run after the marker is written. */
  lemma BadListingAborts(fs: Fs, cfg: Config, course: string)
    ensures BrightspaceEffect(fs, cfg, course, None).0.Abort?
    ensures BrightspaceEffect(fs, cfg, course, None).1.files.Keys
      <= fs.files.Keys + {CourseDir(course) + "brightspace.ct"}
  {
  }

  /** Walking the modules stops at the first failure and otherwise walks each one in listing order. */
  lemma {:induction false} BsModulesAppend(fs: Fs, cfg: Config, course: string, a: seq<Module>, b: seq<Module>)
    ensures var (o, fs1) := BsModulesEffect(fs, cfg, course, a);
      BsModulesEffect(fs, cfg, course, a + b) == if o.Abort? then (o, fs1) else BsModulesEffect(fs1, cfg, course, b)
    decreases |a|
  {
    if a == [] {
      assert a + b == b;
    } else {
      assert (a + b)[0] == a[0] && (a + b)[1..] == a[1..] + b;
      var r := ModuleEffect(fs, cfg, course, a[0]);
      if r.0.Continue? {
        BsModulesAppend(r.1, cfg, course, a[1..], b);
      }
    }
  }

  /** The start of `download_brightspace`. */
  method SetUpCourse(disk: Disk, course: string) returns (o: Outcome)
    modifies disk
    ensures (o, disk.State()) == CourseSetupEffect(old(disk.State()), course)
  {
    var base := Downloads + course + "/";
    var mkdir := disk.MakeDir(base);
    if mkdir.Some? && mkdir.value != FileExists {
      o := Abort(OsFailure(base, mkdir.value));
    } else {
      o := disk.StoreFile(base + "brightspace.ct", []);
    }
  }

  /** One pass of the module loop of `download_brightspace`. */
  method DownloadModule(disk: Disk, cfg: Config, course: string, m: Module) returns (o: Outcome)
    modifies disk
    ensures (o, disk.State()) == ModuleEffect(old(disk.State()), cfg, course, m)
  {
    var name := SanitiseTitle(m.title);
    var dir := Downloads + course + "/" + name + "/";
    o := EnterDirectory(disk, dir, course + "/" + name + "/" + NotHandledLog, m.title, m.html);
    if o.Continue? {
      o := DownloadStructure(disk, cfg, m.structure, dir);
    }
  }

  /** `download_brightspace`: set up the course directory, then walk every module in order. */
  method DownloadBrightspace(disk: Disk, cfg: Config, course: string, listing: Option<seq<Module>>) returns (o: Outcome)
    modifies disk
    ensures (o, disk.State()) == BrightspaceEffect(old(disk.State()), cfg, course, listing)
  {
    o := SetUpCourse(disk, course);
    if o.Abort? {
      return;
    }
    if listing.None? {
      o := Abort(BadListing);
      return;
    }
    var ms := listing.value;
    ghost var start := disk.State();
    var i := 0;
    while i < |ms|
      invariant 0 <= i <= |ms|
      invariant BsModulesEffect(start, cfg, course, ms) == BsModulesEffect(disk.State(), cfg, course, ms[i..])
      invariant o == Continue
    {
      assert ms[i..][0] == ms[i] && ms[i..][1..] == ms[i + 1..];
      o := DownloadModule(disk, cfg, course, ms[i]);
      if o.Abort? {
        return;
      }
      i := i + 1;
    }
    assert ms[i..] == [];
  }

}
