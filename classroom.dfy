/**
 * Mirroring a Google Classroom class (singularity.py:200-261, 321-436).
 *
 * A class has three lists of posts: announcements, course-work materials and
 * course work. A post with attachments gets a directory of its own, the
 * announcements' directly under `Announcements/`, the others under their
 * section and the name of their topic (`NO TOPIC` when the topic is not known).
 * Each attachment is handed to the file handler, which stores Drive files and
 * exported Docs under their sanitised title and YouTube videos under the title
 * the video library reports.
 *
 * As for Brightspace, each step is a function from the mirror's state to an
 * outcome and the next state, and a method on a `Disk` proved to agree with it.
 */
module Classroom {
  import opened Wrappers
  import opened Text
  import opened Sanitise
  import opened Locators
  import opened FileSystem
  import opened Settings

  /**
   * An entry of a post's `materials`: a Drive file or a YouTube video with its
   * `alternateLink` and `title` (either may be missing), or anything else.
   */
  datatype Material =
    | DriveAttachment(link: Option<string>, title: Option<string>)
    | VideoAttachment(link: Option<string>, title: Option<string>)
    | OtherAttachment

  /** An announcement, material or course-work post; `materials` is missing when it has no attachments. */
  datatype Post = Post(id: string, title: string, topicId: Option<string>, materials: Option<seq<Material>>)

  /** An entry of the topic listing; a missing key stops the table's construction. */
  datatype TopicEntry = TopicEntry(topicId: Option<string>, name: Option<string>)

  /** The three sections a class is mirrored into. */
  datatype Section = Announcements | Materials | Classwork

  /**
   * What the Classroom API returned for a class: each list is missing when its
   * key is absent from the response.
   */
  datatype Listings = Listings(
    announcements: Option<seq<Post>>,
    topics: Option<seq<TopicEntry>>,
    materials: Option<seq<Post>>,
    coursework: Option<seq<Post>>)

  /** The directory of posts whose topic is not in the topic table. */
  const NoTopic := "NO TOPIC"

  /** `./Downloads/<class>/`. */
  function ClassDir(cls: string): (d: string)
    ensures HasPrefix(d, Downloads)
  {
    Downloads + cls + "/"
  }

  /** The log of files that could not be written, shared by the whole class. */
  function ErrorsLog(cls: string): (p: string)
    ensures HasPrefix(p, ClassDir(cls))
  {
    ClassDir(cls) + "errors.txt"
  }

  // ---------------------------------------------------------------------------
  // One attachment: download_gc_file (singularity.py:200-261)
  // ---------------------------------------------------------------------------

  /**
   * A Google Docs attachment, exported to the Office format its link names.
   * A missing directory is logged to the class's `errors.txt`; the run goes on.
   */
  function GcExportEffect(fs: Fs, cfg: Config, cls: string, name: string, url: string, path: string): (Outcome, Fs)
  {
    var format := ExportFormatOf(url);
    if format.None? then (Continue, fs)
    else
      var target := path + name + "." + format.value.ext;
      if target in fs.files && !cfg.force then (Continue, fs)
      else
        var id := ExportFileId(url);
        if id.None? then (Abort(NoFileId(url)), fs)
        else
          match WriteError(fs, target)
          case None => (Continue, Write(fs, target, [Download(ExportRequest(id.value, format.value.mime))]))
          case Some(NotFound) => Log(fs, ErrorsLog(cls), target + "\n")
          case Some(e) => (Abort(OsFailure(target, e)), fs)
  }

  /**
   * A Google Drive attachment, stored under its bare sanitised title. The
   * handler for a missing directory formats `ff`, which this branch never
   * binds, so the UnboundLocalError it raises ends the run.
   */
  function GcDriveEffect(fs: Fs, cfg: Config, name: string, url: string, path: string): (Outcome, Fs)
  {
    if (path + name in fs.files || path + name + ".mp4" in fs.files) && !cfg.force then (Continue, fs)
    else
      var id := DriveFileId(url);
      if id.None? then (Abort(NoFileId(url)), fs)
      else
        match WriteError(fs, path + name)
        case None => (Continue, Write(fs, path + name, [Download(DriveMediaRequest(id.value))]))
        case Some(NotFound) => (Abort(UnboundLocal("ff")), fs)
        case Some(e) => (Abort(OsFailure(path + name, e)), fs)
  }

  /** A video in any of the four containers the handler looks for is present. */
  predicate VideoPresent(fs: Fs, base: string)
  {
    base + ".mp4" in fs.files || base + ".mov" in fs.files || base + ".m4v" in fs.files || base + ".mkv" in fs.files
  }

  /**
   * A YouTube attachment. Neither `FORCE` nor `NO_VIDEO` is consulted, and
   * every failure of the library or of the write is swallowed.
   */
  function GcVideoEffect(fs: Fs, cfg: Config, url: string, path: string): (Outcome, Fs)
  {
    if url !in cfg.videoTitle then (Continue, fs)
    else
      var base := path + cfg.videoTitle[url];
      if VideoPresent(fs, base) || WriteError(fs, base + ".mp4").Some? then (Continue, fs)
      else (Continue, Write(fs, base + ".mp4", [Download(url)]))
  }

  /**
   * The effect of one attachment in directory `path`. A missing link ends the
   * run: the KeyError handler reads the link again to report it and raises the
   * same KeyError. A missing title is reported and the attachment skipped.
   */
  function GcFileEffect(fs: Fs, cfg: Config, cls: string, m: Material, path: string): (Outcome, Fs)
  {
    match m
    case OtherAttachment => (Continue, fs)
    case DriveAttachment(link, title) =>
      if link.None? then (Abort(MissingLink), fs)
      else if title.None? then (Continue, fs)
      else
        var name := DeleteBanned(title.value);
        (match ClassifyGc(link.value)
         case GcExport => GcExportEffect(fs, cfg, cls, name, link.value, path)
         case GcDrive => GcDriveEffect(fs, cfg, name, link.value, path)
         case GcIgnored => (Continue, fs))
    case VideoAttachment(link, title) =>
      if link.None? then (Abort(MissingLink), fs)
      else if title.None? then (Continue, fs)
      else GcVideoEffect(fs, cfg, link.value, path)
  }

  /** An export changes at most its target and the class's `errors.txt`. */
  lemma GcExportFootprint(fs: Fs, cfg: Config, cls: string, name: string, url: string, path: string)
    ensures var r := GcExportEffect(fs, cfg, cls, name, url, path).1;
      && r.dirs == fs.dirs
      && (ExportFormatOf(url).Some? ==>
            forall q :: q != path + name + "." + ExportFormatOf(url).value.ext && q != ErrorsLog(cls) ==> Untouched(fs, r, q))
      && (Wf(fs) ==> Wf(r))
    ensures ExportFormatOf(url).None? ==> GcExportEffect(fs, cfg, cls, name, url, path) == (Continue, fs)
  {
    var r := GcExportEffect(fs, cfg, cls, name, url, path).1;
    var format := ExportFormatOf(url);
    if format.Some? {
      var target := path + name + "." + format.value.ext;
      var id := ExportFileId(url);
      if (target in fs.files && !cfg.force) || id.None? {
        assert r == fs;
      } else if WriteError(fs, target).None? {
        assert r == Write(fs, target, [Download(ExportRequest(id.value, format.value.mime))]);
      } else if WriteError(fs, target) == Some(NotFound) {
        assert r == Log(fs, ErrorsLog(cls), target + "\n").1;
      } else {
        assert r == fs;
      }
    }
  }

  /** A Drive fetch changes at most its target. */
  lemma GcDriveFootprint(fs: Fs, cfg: Config, name: string, url: string, path: string)
    ensures SameExcept(fs, GcDriveEffect(fs, cfg, name, url, path).1, path + name)
    ensures Wf(fs) ==> Wf(GcDriveEffect(fs, cfg, name, url, path).1)
  {
    var r := GcDriveEffect(fs, cfg, name, url, path).1;
    var id := DriveFileId(url);
    if ((path + name in fs.files || path + name + ".mp4" in fs.files) && !cfg.force) || id.None? {
      assert r == fs;
    } else if WriteError(fs, path + name).None? {
      assert r == Write(fs, path + name, [Download(DriveMediaRequest(id.value))]);
    } else {
      assert r == fs;
    }
  }

  /** A video download changes at most its `.mp4` file. */
  lemma GcVideoFootprint(fs: Fs, cfg: Config, url: string, path: string)
    ensures url !in cfg.videoTitle ==> GcVideoEffect(fs, cfg, url, path).1 == fs
    ensures url in cfg.videoTitle ==>
      SameExcept(fs, GcVideoEffect(fs, cfg, url, path).1, path + cfg.videoTitle[url] + ".mp4")
    ensures Wf(fs) ==> Wf(GcVideoEffect(fs, cfg, url, path).1)
  {
  }

  /** An attachment never creates a directory and changes nothing outside its directory but the class's `errors.txt`. */
  lemma GcFileFootprint(fs: Fs, cfg: Config, cls: string, m: Material, path: string)
    ensures var r := GcFileEffect(fs, cfg, cls, m, path).1;
      && r.dirs == fs.dirs
      && (forall q :: !HasPrefix(q, path) && q != ErrorsLog(cls) ==> Untouched(fs, r, q))
      && (Wf(fs) ==> Wf(r))
  {
    if m.OtherAttachment? || m.link.None? || m.title.None? {
    } else if m.DriveAttachment? {
      var name := DeleteBanned(m.title.value);
      var url := m.link.value;
      match ClassifyGc(url)
      case GcExport =>
        GcExportFootprint(fs, cfg, cls, name, url, path);
        if ExportFormatOf(url).Some? {
          assert HasPrefix(path + name + "." + ExportFormatOf(url).value.ext, path);
        }
      case GcDrive =>
        GcDriveFootprint(fs, cfg, name, url, path);
        assert HasPrefix(path + name, path);
      case GcIgnored =>
    } else {
      var url := m.link.value;
      GcVideoFootprint(fs, cfg, url, path);
      if url in cfg.videoTitle {
        assert HasPrefix(path + cfg.videoTitle[url] + ".mp4", path);
      }
    }
  }

  /** Without `FORCE`, a Drive or Docs attachment whose file is already present is left alone. */
  lemma GcSkipRule(fs: Fs, cfg: Config, cls: string, url: string, title: string, path: string)
    requires !cfg.force
    requires ClassifyGc(url) == GcDrive ==>
      path + DeleteBanned(title) in fs.files || path + DeleteBanned(title) + ".mp4" in fs.files
    requires ClassifyGc(url) == GcExport && ExportFormatOf(url).Some? ==>
      path + DeleteBanned(title) + "." + ExportFormatOf(url).value.ext in fs.files
    ensures GcFileEffect(fs, cfg, cls, DriveAttachment(Some(url), Some(title)), path) == (Continue, fs)
  {
  }

  /**
   * A Drive attachment due to be fetched is stored under its sanitised title,
   * with the body of the Drive v3 media request for its id.
   */
  lemma GcDriveFetchRule(fs: Fs, cfg: Config, cls: string, url: string, title: string, path: string)
    requires ClassifyGc(url) == GcDrive && DriveFileId(url).Some?
    requires var t := path + DeleteBanned(title); !(t in fs.files || t + ".mp4" in fs.files) || cfg.force
    requires WriteError(fs, path + DeleteBanned(title)).None?
    ensures GcFileEffect(fs, cfg, cls, DriveAttachment(Some(url), Some(title)), path)
      == (Continue, Write(fs, path + DeleteBanned(title), [Download(DriveMediaRequest(DriveFileId(url).value))]))
  {
  }

  /**
   * A Docs attachment due to be exported is stored under its sanitised title and
   * its format's extension, with the body of the Drive v2 export request.
   */
  lemma GcExportFetchRule(fs: Fs, cfg: Config, cls: string, url: string, title: string, path: string)
    requires ClassifyGc(url) == GcExport && ExportFormatOf(url).Some? && ExportFileId(url).Some?
    requires var t := path + DeleteBanned(title) + "." + ExportFormatOf(url).value.ext;
      (t !in fs.files || cfg.force) && WriteError(fs, t).None?
    ensures var f := ExportFormatOf(url).value;
      GcFileEffect(fs, cfg, cls, DriveAttachment(Some(url), Some(title)), path)
        == (Continue, Write(fs, path + DeleteBanned(title) + "." + f.ext, [Download(ExportRequest(ExportFileId(url).value, f.mime))]))
  {
  }

  /** Drive folders are never downloaded, whatever the flags. */
  lemma GcDriveFoldersIgnored(fs: Fs, cfg: Config, cls: string, url: string, title: string, path: string)
    requires Contains(url, "folders") && !Contains(url, DocsHost)
    ensures GcFileEffect(fs, cfg, cls, DriveAttachment(Some(url), Some(title)), path) == (Continue, fs)
  {
  }

  /**
   * A video already present as `.mp4`, `.mov`, `.m4v` or `.mkv` is not fetched
   * again, even with `FORCE`.
   */
  lemma GcVideoSkipRule(fs: Fs, cfg: Config, cls: string, url: string, title: string, path: string)
    requires url in cfg.videoTitle
    requires exists ext :: ext in [".mp4", ".mov", ".m4v", ".mkv"] && path + cfg.videoTitle[url] + ext in fs.files
    ensures GcFileEffect(fs, cfg, cls, VideoAttachment(Some(url), Some(title)), path) == (Continue, fs)
  {
    var ext :| ext in [".mp4", ".mov", ".m4v", ".mkv"] && path + cfg.videoTitle[url] + ext in fs.files;
    assert VideoPresent(fs, path + cfg.videoTitle[url]);
  }

  /**
   * A titled video missing under all four names is downloaded as `.mp4` when
   * the target can be written, whatever `FORCE` says.
   */
  lemma GcVideoFetch(fs: Fs, cfg: Config, cls: string, url: string, title: string, path: string)
    requires url in cfg.videoTitle && !VideoPresent(fs, path + cfg.videoTitle[url])
    requires WriteError(fs, path + cfg.videoTitle[url] + ".mp4").None?
    ensures GcFileEffect(fs, cfg, cls, VideoAttachment(Some(url), Some(title)), path)
      == (Continue, Write(fs, path + cfg.videoTitle[url] + ".mp4", [Download(url)]))
  {
  }

  /** `NO_VIDEO` has no effect on Classroom attachments. */
  lemma GcIgnoresNoVideo(fs: Fs, cfg: Config, cls: string, m: Material, path: string)
    ensures GcFileEffect(fs, cfg.(noVideo := !cfg.noVideo), cls, m, path) == GcFileEffect(fs, cfg, cls, m, path)
  {
  }

  /** An attachment without a link ends the run; one with a link but no title is skipped. */
  lemma GcMissingKeys(fs: Fs, cfg: Config, cls: string, m: Material, path: string)
    requires !m.OtherAttachment?
    ensures m.link.None? ==> GcFileEffect(fs, cfg, cls, m, path) == (Abort(MissingLink), fs)
    ensures m.link.Some? && m.title.None? ==> GcFileEffect(fs, cfg, cls, m, path) == (Continue, fs)
  {
  }

  /**
   * An export due to be written into a directory that does not exist is
   * recorded, with a line break, at the end of the class's `errors.txt`.
   */
  lemma GcExportLogsMissingDir(fs: Fs, cfg: Config, cls: string, name: string, url: string, path: string)
    requires ExportFormatOf(url).Some? && ExportFileId(url).Some?
    requires var target := path + name + "." + ExportFormatOf(url).value.ext;
      (target !in fs.files || cfg.force) && WriteError(fs, target) == Some(NotFound)
    requires WriteError(fs, ErrorsLog(cls)).None?
    ensures var target := path + name + "." + ExportFormatOf(url).value.ext;
      GcExportEffect(fs, cfg, cls, name, url, path)
        == (Continue, Append(fs, ErrorsLog(cls), target + "\n"))
  {
  }

  /**
   * A Drive attachment whose title loses every character to the deletion
   * targets its own directory: `open` raises IsADirectoryError, which neither
   * the KeyError handler nor the post's FileNotFoundError handler catches.
   */
  lemma GcBlankDriveTitleAborts(fs: Fs, cfg: Config, cls: string, url: string, title: string, path: string)
    requires ClassifyGc(url) == GcDrive && DriveFileId(url).Some?
    requires DeleteBanned(title) == [] && path in fs.dirs
    requires cfg.force || (path !in fs.files && path + ".mp4" !in fs.files)
    ensures GcFileEffect(fs, cfg, cls, DriveAttachment(Some(url), Some(title)), path)
      == (Abort(OsFailure(path, IsADirectory)), fs)
    ensures !Caught(GcFileEffect(fs, cfg, cls, DriveAttachment(Some(url), Some(title)), path).0)
  {
    assert path + DeleteBanned(title) == path;
  }

  /**
   * An export into a directory path where a file stands raises
   * NotADirectoryError, which the FileNotFoundError handler does not catch:
   * the export is not recorded in `errors.txt` and the run ends.
   */
  lemma GcExportBelowFileEndsRun(fs: Fs, cfg: Config, cls: string, title: string, url: string, path: string)
    requires ExportFormatOf(url).Some? && ExportFileId(url).Some?
    requires path != [] && path[|path| - 1] == '/' && DropSlash(path) in fs.files
    requires NothingBelow(fs, path)
    ensures var target := path + DeleteBanned(title) + "." + ExportFormatOf(url).value.ext;
      GcExportEffect(fs, cfg, cls, DeleteBanned(title), url, path)
        == (Abort(OsFailure(target, NotADirectory)), fs)
  {
    assert IsBanned('/');
    ExportBelowFile(fs, cfg, cls, DeleteBanned(title), url, path);
  }

  lemma ExportBelowFile(fs: Fs, cfg: Config, cls: string, name: string, url: string, path: string)
    requires ExportFormatOf(url).Some? && ExportFileId(url).Some? && '/' !in name
    requires path != [] && path[|path| - 1] == '/' && DropSlash(path) in fs.files
    requires NothingBelow(fs, path)
    ensures var target := path + name + "." + ExportFormatOf(url).value.ext;
      GcExportEffect(fs, cfg, cls, name, url, path) == (Abort(OsFailure(target, NotADirectory)), fs)
  {
    var f := ExportFormatOf(url).value;
    var leaf := name + "." + f.ext;
    assert '/' !in f.ext;
    assert path + name + "." + f.ext == path + leaf;
    WriteBelowFile(fs, path, leaf);
    GcExportRaises(fs, cfg, cls, name, url, path);
  }

  /** An export whose target is absent and cannot be opened for a reason other than a missing directory ends the run. */
  lemma GcExportRaises(fs: Fs, cfg: Config, cls: string, name: string, url: string, path: string)
    requires ExportFormatOf(url).Some? && ExportFileId(url).Some?
    requires var target := path + name + "." + ExportFormatOf(url).value.ext;
      target !in fs.files && WriteError(fs, target).Some? && WriteError(fs, target) != Some(NotFound)
    ensures var target := path + name + "." + ExportFormatOf(url).value.ext;
      GcExportEffect(fs, cfg, cls, name, url, path) == (Abort(OsFailure(target, WriteError(fs, target).value)), fs)
  {
  }

  /**
   * As written, `-f` never reaches a Classroom run started from the command
   * line: `FORCE` keeps its initial `None`, so a Drive attachment already on
   * disk is skipped.
   */
  lemma ForceSwitchLostAsWritten(fs: Fs, cfg: Config, cls: string, url: string, title: string, path: string)
    requires !cfg.force
    requires ClassifyGc(url) == GcDrive && path + DeleteBanned(title) in fs.files
    ensures GcFileEffect(fs, GoogleArgsAsWritten(cfg, true), cls, DriveAttachment(Some(url), Some(title)), path)
      == (Continue, fs)
  {
    var c := GoogleArgsAsWritten(cfg, true);
    assert !c.force;
    assert GcFileEffect(fs, c, cls, DriveAttachment(Some(url), Some(title)), path)
      == GcDriveEffect(fs, c, DeleteBanned(title), url, path);
  }

  /** With the switch assigned to the global, `-f` fetches the same attachment again. */
  lemma ForceSwitchHonoured(fs: Fs, cfg: Config, cls: string, url: string, title: string, path: string)
    requires ClassifyGc(url) == GcDrive && DriveFileId(url).Some?
    requires WriteError(fs, path + DeleteBanned(title)).None?
    ensures GcFileEffect(fs, GoogleArgs(cfg, true), cls, DriveAttachment(Some(url), Some(title)), path)
      == (Continue, Write(fs, path + DeleteBanned(title), [Download(DriveMediaRequest(DriveFileId(url).value))]))
  {
    GcDriveFetchRule(fs, GoogleArgs(cfg, true), cls, url, title, path);
  }

  /** The same situation for a Drive file ends the whole run instead. */
  lemma GcDriveMissingDirEndsRun(fs: Fs, cfg: Config, name: string, url: string, path: string)
    requires DriveFileId(url).Some?
    requires !(path + name in fs.files || path + name + ".mp4" in fs.files) || cfg.force
    requires WriteError(fs, path + name) == Some(NotFound)
    ensures GcDriveEffect(fs, cfg, name, url, path) == (Abort(UnboundLocal("ff")), fs)
  {
  }

  method ExportGcFile(disk: Disk, cfg: Config, cls: string, name: string, url: string, path: string) returns (o: Outcome)
    modifies disk
    ensures (o, disk.State()) == GcExportEffect(old(disk.State()), cfg, cls, name, url, path)
  {
    o := Continue;
    var format := ExportFormatOf(url);
    if format.None? {
      return;
    }
    var target := path + name + "." + format.value.ext;
    var present := disk.HasFile(target);
    if present && !cfg.force {
      return;
    }
    var id := ExportFileId(url);
    if id.None? {
      o := Abort(NoFileId(url));
      return;
    }
    var err := disk.WriteFile(target, [Download(ExportRequest(id.value, format.value.mime))]);
    if err == Some(NotFound) {
      o := disk.LogText(ErrorsLog(cls), target + "\n");
    } else if err.Some? {
      o := Abort(OsFailure(target, err.value));
    }
  }

  method FetchGcDriveFile(disk: Disk, cfg: Config, name: string, url: string, path: string) returns (o: Outcome)
    modifies disk
    ensures (o, disk.State()) == GcDriveEffect(old(disk.State()), cfg, name, url, path)
  {
    o := Continue;
    var present := disk.HasFile(path + name);
    var presentVideo := disk.HasFile(path + name + ".mp4");
    if (present || presentVideo) && !cfg.force {
      return;
    }
    var id := DriveFileId(url);
    if id.None? {
      o := Abort(NoFileId(url));
      return;
    }
    var err := disk.WriteFile(path + name, [Download(DriveMediaRequest(id.value))]);
    if err == Some(NotFound) {
      o := Abort(UnboundLocal("ff"));
    } else if err.Some? {
      o := Abort(OsFailure(path + name, err.value));
    }
  }

  method FetchGcVideo(disk: Disk, cfg: Config, url: string, path: string)
    modifies disk
    ensures (Continue, disk.State()) == GcVideoEffect(old(disk.State()), cfg, url, path)
  {
    if url in cfg.videoTitle {
      var base := path + cfg.videoTitle[url];
      var mp4 := disk.HasFile(base + ".mp4");
      var mov := disk.HasFile(base + ".mov");
      var m4v := disk.HasFile(base + ".m4v");
      var mkv := disk.HasFile(base + ".mkv");
      if !mp4 && !mov && !m4v && !mkv {
        var err := disk.WriteFile(base + ".mp4", [Download(url)]);
      }
    }
  }

  /** `download_gc_file`: read the attachment's keys, classify its link and take the matching branch. */
  method DownloadGcFile(disk: Disk, cfg: Config, cls: string, m: Material, path: string) returns (o: Outcome)
    modifies disk
    ensures (o, disk.State()) == GcFileEffect(old(disk.State()), cfg, cls, m, path)
  {
    o := Continue;
    if m.OtherAttachment? {
      return;
    }
    if m.link.None? {
      o := Abort(MissingLink);
      return;
    }
    if m.title.None? {
      return;
    }
    if m.DriveAttachment? {
      var name := RemoveBanned(m.title.value);
      match ClassifyGc(m.link.value) {
        case GcExport =>
          o := ExportGcFile(disk, cfg, cls, name, m.link.value, path);
        case GcDrive =>
          o := FetchGcDriveFile(disk, cfg, name, m.link.value, path);
        case GcIgnored =>
      }
    } else {
      FetchGcVideo(disk, cfg, m.link.value, path);
    }
  }

  // ---------------------------------------------------------------------------
  // The topic table (singularity.py:372-378)
  // ---------------------------------------------------------------------------

  /** A topic entry that has both keys the table reads. */
  predicate Complete(e: TopicEntry)
  {
    e.topicId.Some? && e.name.Some?
  }

  /**
   * The `for t in ...['topic']` loop from the table `m` on: each entry maps its
   * id to its sanitised name, a later entry overriding an earlier one, and the
   * first entry missing a key ends the loop (the KeyError is caught outside it).
   */
  function TopicsFrom(m: map<string, string>, es: seq<TopicEntry>): map<string, string>
    decreases |es|
  {
    if es == [] || !Complete(es[0]) then m
    else TopicsFrom(m[es[0].topicId.value := DeleteBanned(es[0].name.value)], es[1..])
  }

  /** The topic table of a listing. */
  function TopicTable(es: seq<TopicEntry>): map<string, string>
  {
    TopicsFrom(map[], es)
  }

  /** The number of entries before the first one missing a key. */
  function CompleteRun(es: seq<TopicEntry>): (n: nat)
    ensures n <= |es|
    ensures forall i :: 0 <= i < n ==> Complete(es[i])
    ensures n < |es| ==> !Complete(es[n])
    decreases |es|
  {
    if es == [] || !Complete(es[0]) then 0 else 1 + CompleteRun(es[1..])
  }

  /** No name in the table holds a banned character. */
  ghost predicate CleanNames(m: map<string, string>)
  {
    forall k :: k in m ==> forall i :: 0 <= i < |m[k]| ==> !IsBanned(m[k][i])
  }

  /** Every name in a table built from clean names is clean. */
  lemma {:induction false} TopicsFromClean(m: map<string, string>, es: seq<TopicEntry>)
    requires CleanNames(m)
    ensures CleanNames(TopicsFrom(m, es))
    decreases |es|
  {
    if es != [] && Complete(es[0]) {
      var name := DeleteBanned(es[0].name.value);
      var m1 := m[es[0].topicId.value := name];
      assert forall i :: 0 <= i < |name| ==> !IsBanned(name[i]);
      assert CleanNames(m1);
      TopicsFromClean(m1, es[1..]);
    }
  }

  /** No topic folder name holds a banned character, so none holds a `/`. */
  lemma TopicTableClean(es: seq<TopicEntry>)
    ensures CleanNames(TopicTable(es))
  {
    TopicsFromClean(map[], es);
  }

  /** The ids of a table: those it started with and those of the entries before the first incomplete one. */
  lemma {:induction false} TopicsFromKeys(m: map<string, string>, es: seq<TopicEntry>)
    ensures forall k :: k in TopicsFrom(m, es) <==>
      (k in m || exists i :: 0 <= i < CompleteRun(es) && es[i].topicId == Some(k))
    decreases |es|
  {
    if es != [] && Complete(es[0]) {
      var m1 := m[es[0].topicId.value := DeleteBanned(es[0].name.value)];
      TopicsFromKeys(m1, es[1..]);
      forall k
        ensures (exists i :: 0 <= i < CompleteRun(es) && es[i].topicId == Some(k))
          <==> (k == es[0].topicId.value || exists i :: 0 <= i < CompleteRun(es[1..]) && es[1..][i].topicId == Some(k))
      {
        if exists i :: 0 <= i < CompleteRun(es) && es[i].topicId == Some(k) {
          var i :| 0 <= i < CompleteRun(es) && es[i].topicId == Some(k);
          if i > 0 {
            assert es[1..][i - 1] == es[i];
          }
        }
        if exists i :: 0 <= i < CompleteRun(es[1..]) && es[1..][i].topicId == Some(k) {
          var i :| 0 <= i < CompleteRun(es[1..]) && es[1..][i].topicId == Some(k);
          assert es[i + 1] == es[1..][i];
        }
      }
    }
  }

  /** A topic id is in the table exactly when an entry before the first incomplete one carries it. */
  lemma TopicTableKeys(es: seq<TopicEntry>, k: string)
    ensures k in TopicTable(es) <==> exists i :: 0 <= i < CompleteRun(es) && es[i].topicId == Some(k)
  {
    TopicsFromKeys(map[], es);
  }

  /** Building from a concatenation: the first part, then the second, unless the first stopped early. */
  lemma {:induction false} TopicsFromAppend(m: map<string, string>, a: seq<TopicEntry>, b: seq<TopicEntry>)
    requires CompleteRun(a) == |a|
    ensures TopicsFrom(m, a + b) == TopicsFrom(TopicsFrom(m, a), b)
    decreases |a|
  {
    if a == [] {
      assert a + b == b;
    } else {
      assert (a + b)[0] == a[0] && (a + b)[1..] == a[1..] + b;
      TopicsFromAppend(m[a[0].topicId.value := DeleteBanned(a[0].name.value)], a[1..], b);
    }
  }

  /**
   * A complete entry appended to a listing whose entries are all complete sets
   * its id to its sanitised name, overriding any earlier entry with that id.
   */
  lemma TopicTableLastWins(es: seq<TopicEntry>, e: TopicEntry)
    requires CompleteRun(es) == |es| && Complete(e)
    ensures TopicTable(es + [e]) == TopicTable(es)[e.topicId.value := DeleteBanned(e.name.value)]
  {
    TopicsFromAppend(map[], es, [e]);
    assert [e][0] == e && [e][1..] == [];
  }

  /** Entries after the first incomplete one are never read. */
  lemma {:induction false} TopicsFromStops(m: map<string, string>, es: seq<TopicEntry>)
    ensures TopicsFrom(m, es) == TopicsFrom(m, es[..CompleteRun(es)])
    decreases |es|
  {
    if es != [] && Complete(es[0]) {
      var m1 := m[es[0].topicId.value := DeleteBanned(es[0].name.value)];
      TopicsFromStops(m1, es[1..]);
      var p := es[..CompleteRun(es)];
      assert p[0] == es[0] && p[1..] == es[1..][..CompleteRun(es[1..])];
    } else {
      assert es[..CompleteRun(es)] == [];
    }
  }

  /** The `for t in r4.json()['topic']` loop, as a method. */
  method BuildTopicTable(es: seq<TopicEntry>) returns (topics: map<string, string>)
    ensures topics == TopicTable(es)
  {
    topics := map[];
    var i := 0;
    while i < |es|
      invariant 0 <= i <= |es|
      invariant TopicTable(es) == TopicsFrom(topics, es[i..])
    {
      assert es[i..][0] == es[i] && es[i..][1..] == es[i + 1..];
      if es[i].name.None? {
        return;
      }
      var temp := RemoveBanned(es[i].name.value);
      if es[i].topicId.None? {
        return;
      }
      topics := topics[es[i].topicId.value := temp];
      i := i + 1;
    }
  }

  /** The folder a post's topic is mirrored to: its name in the table, or `NO TOPIC`. */
  function TopicFolder(table: map<string, string>, topicId: Option<string>): string
  {
    if topicId.Some? && topicId.value in table then table[topicId.value] else NoTopic
  }

  /** With a table built from the listing, a topic folder is a single path component. */
  lemma TopicFolderOneLevel(es: seq<TopicEntry>, topicId: Option<string>)
    ensures '/' !in TopicFolder(TopicTable(es), topicId)
  {
    TopicTableClean(es);
    var f := TopicFolder(TopicTable(es), topicId);
    assert IsBanned('/');
    assert forall i :: 0 <= i < |f| ==> f[i] != '/';
  }

  /** A post whose topic is unknown, or which has none, goes to `NO TOPIC`. */
  lemma UnknownTopicFallsBack(es: seq<TopicEntry>, topicId: Option<string>)
    requires topicId.None? || forall i :: 0 <= i < CompleteRun(es) ==> es[i].topicId != topicId
    ensures TopicFolder(TopicTable(es), topicId) == NoTopic
  {
    if topicId.Some? {
      TopicTableKeys(es, topicId.value);
    }
  }

  // ---------------------------------------------------------------------------
  // Posts (singularity.py:349-367, 385-407, 414-436)
  // ---------------------------------------------------------------------------

  function SectionName(section: Section): string
  {
    match section
    case Announcements => "Announcements"
    case Materials => "Materials"
    case Classwork => "Classwork"
  }

  /** `./Downloads/<class>/<section>/`. */
  function SectionDir(cls: string, section: Section): string
  {
    ClassDir(cls) + SectionName(section) + "/"
  }

  /** The topic directory of a material or course-work post. */
  function TopicDir(cls: string, table: map<string, string>, section: Section, post: Post): string
  {
    SectionDir(cls, section) + TopicFolder(table, post.topicId) + "/"
  }

  /**
   * The directory a post's attachments go to: an announcement's is named after
   * its id, another post's after its title, below its topic's directory.
   */
  function PostDir(cls: string, table: map<string, string>, section: Section, post: Post): (d: string)
    ensures HasPrefix(d, SectionDir(cls, section))
  {
    if section == Announcements then SectionDir(cls, section) + FolderName(post.id) + "/"
    else
      var t := TopicDir(cls, table, section, post);
      assert HasPrefix(t, SectionDir(cls, section));
      PrefixTrans(t + FolderName(post.title) + "/", t, SectionDir(cls, section));
      t + FolderName(post.title) + "/"
  }

  /** `if not os.path.exists(d): os.mkdir(d)`. */
  function EnsureDir(fs: Fs, d: string): (r: (Outcome, Fs))
    ensures r.1.files == fs.files
    ensures r.0 == Continue ==> r.1.dirs == fs.dirs + {d}
    ensures r.0 != Continue ==>
      && r.1 == fs && MkdirError(fs, d).Some? && r.0 == Abort(OsFailure(d, MkdirError(fs, d).value))
    ensures Wf(fs) ==> Wf(r.1)
  {
    if d in fs.dirs then (Continue, fs)
    else match MkdirError(fs, d)
      case None => (Continue, Mkdir(fs, d))
      case Some(e) => (Abort(OsFailure(d, e)), fs)
  }

  /** The attachments of a post, in order, until one ends the run. */
  function GcFilesEffect(fs: Fs, cfg: Config, cls: string, ms: seq<Material>, path: string): (Outcome, Fs)
    decreases |ms|
  {
    if ms == [] then (Continue, fs)
    else
      var r := GcFileEffect(fs, cfg, cls, ms[0], path);
      if r.0.Abort? then r else GcFilesEffect(r.1, cfg, cls, ms[1..], path)
  }

  /** A FileNotFoundError, which the `try` around a post's attachments catches. */
  predicate Caught(o: Outcome)
  {
    o.Abort? && o.failure.OsFailure? && o.failure.error == NotFound
  }

  /** The `try` block of a post: its directory is made if missing, then its attachments are handled. */
  function PostBodyEffect(fs: Fs, cfg: Config, cls: string, ms: seq<Material>, path: string): (r: (Outcome, Fs))
    ensures !Caught(r.0)
  {
    var r1 := EnsureDir(fs, path);
    var r2 := if r1.0.Abort? then r1 else GcFilesEffect(r1.1, cfg, cls, ms, path);
    if Caught(r2.0) then (Continue, r2.1) else r2
  }

  /** One post of a section: its section and topic directories, then its body. */
  function PostEffect(fs: Fs, cfg: Config, cls: string, table: map<string, string>, section: Section, post: Post): (Outcome, Fs)
  {
    if post.materials.None? then (Continue, fs)
    else
      var r1 := EnsureDir(fs, SectionDir(cls, section));
      if r1.0.Abort? then r1
      else
        var r2 := if section == Announcements then r1 else EnsureDir(r1.1, TopicDir(cls, table, section, post));
        if r2.0.Abort? then r2
        else PostBodyEffect(r2.1, cfg, cls, post.materials.value, PostDir(cls, table, section, post))
  }

  /** The posts of a section, in order, until one ends the run. */
  function PostsEffect(fs: Fs, cfg: Config, cls: string, table: map<string, string>, section: Section, ps: seq<Post>): (Outcome, Fs)
    decreases |ps|
  {
    if ps == [] then (Continue, fs)
    else
      var r := PostEffect(fs, cfg, cls, table, section, ps[0]);
      if r.0.Abort? then r else PostsEffect(r.1, cfg, cls, table, section, ps[1..])
  }

  // ---------------------------------------------------------------------------
  // The class: download_classroom (singularity.py:321-436)
  // ---------------------------------------------------------------------------

  /**
   * The start of a class: its directory is made unless it exists, `classroom.ct`
   * is written empty and the previous run's `errors.txt` is removed.
   */
  function ClassroomSetupEffect(fs: Fs, cls: string): (Outcome, Fs)
  {
    var base := ClassDir(cls);
    var mkdir := MkdirError(fs, base);
    if mkdir.Some? && mkdir.value != FileExists then (Abort(OsFailure(base, mkdir.value)), fs)
    else
      var (o, fs1) := Store(if mkdir.None? then Mkdir(fs, base) else fs, base + "classroom.ct", []);
      if o.Abort? then (o, fs1) else ClearErrors(fs1, cls)
  }

  /** Removing the previous run's `errors.txt`; a missing log is fine, any other failure ends the run. */
  function ClearErrors(fs: Fs, cls: string): (Outcome, Fs)
  {
    var remove := RemoveError(fs, ErrorsLog(cls));
    if remove.None? then (Continue, Remove(fs, ErrorsLog(cls)))
    else if remove.value == NotFound then (Continue, fs)
    else (Abort(OsFailure(ErrorsLog(cls), remove.value)), fs)
  }

  /**
   * The effect of mirroring a class: the set-up, the announcements, then the
   * materials and the course work filed under the topic table.
   */
  function ClassroomEffect(fs: Fs, cfg: Config, cls: string, listings: Listings): (Outcome, Fs)
  {
    var r0 := ClassroomSetupEffect(fs, cls);
    if r0.0.Abort? then r0
    else
      var r1 := if listings.announcements.None? then r0
                else PostsEffect(r0.1, cfg, cls, map[], Announcements, listings.announcements.value);
      if r1.0.Abort? then r1
      else
        var table := if listings.topics.None? then map[] else TopicTable(listings.topics.value);
        var r2 := if listings.materials.None? then r1
                  else PostsEffect(r1.1, cfg, cls, table, Materials, listings.materials.value);
        if r2.0.Abort? then r2
        else if listings.coursework.None? then r2
        else PostsEffect(r2.1, cfg, cls, table, Classwork, listings.coursework.value)
  }

  // ---------------------------------------------------------------------------
  // Properties of a class's walk
  // ---------------------------------------------------------------------------

  /** The attachments of a post create no directory and change nothing outside the class directory. */
  lemma {:induction false} GcFilesConfined(fs: Fs, cfg: Config, cls: string, ms: seq<Material>, path: string)
    requires HasPrefix(path, ClassDir(cls))
    ensures GcFilesEffect(fs, cfg, cls, ms, path).1.dirs == fs.dirs
    ensures ConfinedTo(fs, GcFilesEffect(fs, cfg, cls, ms, path).1, ClassDir(cls))
    ensures Wf(fs) ==> Wf(GcFilesEffect(fs, cfg, cls, ms, path).1)
    decreases |ms|
  {
    if ms != [] {
      var r := GcFileEffect(fs, cfg, cls, ms[0], path);
      GcFileFootprint(fs, cfg, cls, ms[0], path);
      forall q | !HasPrefix(q, ClassDir(cls))
        ensures Untouched(fs, r.1, q)
      {
        if HasPrefix(q, path) {
          PrefixTrans(q, path, ClassDir(cls));
        }
      }
      if r.0.Continue? {
        GcFilesConfined(r.1, cfg, cls, ms[1..], path);
        ConfinedTrans(fs, r.1, GcFilesEffect(r.1, cfg, cls, ms[1..], path).1, ClassDir(cls));
      }
    }
  }

  /** A post's body adds at most its own directory and changes nothing outside the class directory. */
  lemma PostBodyConfined(fs: Fs, cfg: Config, cls: string, ms: seq<Material>, path: string)
    requires HasPrefix(path, ClassDir(cls))
    ensures var r := PostBodyEffect(fs, cfg, cls, ms, path).1;
      && fs.dirs <= r.dirs <= fs.dirs + {path}
      && ConfinedTo(fs, r, ClassDir(cls))
      && (Wf(fs) ==> Wf(r))
  {
    var r1 := EnsureDir(fs, path);
    if r1.0.Continue? {
      GcFilesConfined(r1.1, cfg, cls, ms, path);
      ConfinedTrans(fs, r1.1, GcFilesEffect(r1.1, cfg, cls, ms, path).1, ClassDir(cls));
    }
  }

  /** Every directory a post creates lies in the class directory. */
  lemma PostDirsInClass(cls: string, table: map<string, string>, section: Section, post: Post)
    ensures HasPrefix(SectionDir(cls, section), ClassDir(cls))
    ensures HasPrefix(TopicDir(cls, table, section, post), ClassDir(cls))
    ensures HasPrefix(PostDir(cls, table, section, post), ClassDir(cls))
  {
    PrefixTrans(TopicDir(cls, table, section, post), SectionDir(cls, section), ClassDir(cls));
    PrefixTrans(PostDir(cls, table, section, post), SectionDir(cls, section), ClassDir(cls));
  }

  /** Making a directory below `prefix` changes nothing outside `prefix`. */
  lemma EnsureDirConfined(fs: Fs, d: string, prefix: string)
    requires HasPrefix(d, prefix)
    ensures fs.dirs <= EnsureDir(fs, d).1.dirs
    ensures ConfinedTo(fs, EnsureDir(fs, d).1, prefix)
  {
  }

  /** A post changes nothing outside the class directory and never takes a directory away. */
  lemma PostConfined(fs: Fs, cfg: Config, cls: string, table: map<string, string>, section: Section, post: Post)
    ensures var r := PostEffect(fs, cfg, cls, table, section, post).1;
      && fs.dirs <= r.dirs
      && ConfinedTo(fs, r, ClassDir(cls))
      && (Wf(fs) ==> Wf(r))
  {
    if post.materials.Some? {
      var c := ClassDir(cls);
      var sect := SectionDir(cls, section);
      var topic := TopicDir(cls, table, section, post);
      var path := PostDir(cls, table, section, post);
      PostDirsInClass(cls, table, section, post);
      var r1 := EnsureDir(fs, sect);
      EnsureDirConfined(fs, sect, c);
      if r1.0.Abort? {
        assert PostEffect(fs, cfg, cls, table, section, post) == r1;
      } else {
        var r2 := if section == Announcements then r1 else EnsureDir(r1.1, topic);
        EnsureDirConfined(r1.1, topic, c);
        if r2.0.Abort? {
          assert PostEffect(fs, cfg, cls, table, section, post) == r2;
        } else {
          var r3 := PostBodyEffect(r2.1, cfg, cls, post.materials.value, path);
          PostBodyConfined(r2.1, cfg, cls, post.materials.value, path);
          ConfinedTrans(r1.1, r2.1, r3.1, c);
          ConfinedTrans(fs, r1.1, r3.1, c);
          assert PostEffect(fs, cfg, cls, table, section, post) == r3;
        }
      }
    }
  }

  /** The posts of a section change nothing outside the class directory. */
  lemma {:induction false} PostsConfined(fs: Fs, cfg: Config, cls: string, table: map<string, string>, section: Section, ps: seq<Post>)
    ensures var r := PostsEffect(fs, cfg, cls, table, section, ps).1;
      && fs.dirs <= r.dirs
      && ConfinedTo(fs, r, ClassDir(cls))
      && (Wf(fs) ==> Wf(r))
    decreases |ps|
  {
    if ps != [] {
      var r := PostEffect(fs, cfg, cls, table, section, ps[0]);
      PostConfined(fs, cfg, cls, table, section, ps[0]);
      if r.0.Continue? {
        PostsConfined(r.1, cfg, cls, table, section, ps[1..]);
        ConfinedTrans(fs, r.1, PostsEffect(r.1, cfg, cls, table, section, ps[1..]).1, ClassDir(cls));
      }
    }
  }

  /** The set-up touches only the class directory, `classroom.ct` and `errors.txt`. */
  lemma SetupConfined(fs: Fs, cls: string)
    ensures ConfinedTo(fs, ClassroomSetupEffect(fs, cls).1, ClassDir(cls))
    ensures Wf(fs) ==> Wf(ClassroomSetupEffect(fs, cls).1)
  {
    var base := ClassDir(cls);
    var mkdir := MkdirError(fs, base);
    var fs0 := if mkdir.None? then Mkdir(fs, base) else fs;
    var ct := base + "classroom.ct";
    assert HasPrefix(ct, base);
    assert ConfinedTo(fs, fs0, base);
    if mkdir.Some? && mkdir.value != FileExists {
      assert ClassroomSetupEffect(fs, cls).1 == fs;
    } else {
      var (o, fs1) := Store(fs0, ct, []);
      if o.Continue? {
        assert SameExcept(fs0, fs1, ct);
        ConfinedSingle(fs0, fs1, ct, base);
        var fs2 := ClearErrors(fs1, cls).1;
        ClearErrorsConfined(fs1, cls);
        ConfinedTrans(fs0, fs1, fs2, base);
        ConfinedTrans(fs, fs0, fs2, base);
        assert ClassroomSetupEffect(fs, cls).1 == fs2;
      } else {
        assert ClassroomSetupEffect(fs, cls).1 == fs0;
      }
    }
  }

  /** Clearing the errors log changes at most that log. */
  lemma ClearErrorsConfined(fs: Fs, cls: string)
    ensures ConfinedTo(fs, ClearErrors(fs, cls).1, ClassDir(cls))
    ensures Wf(fs) ==> Wf(ClearErrors(fs, cls).1)
    ensures SameExcept(fs, ClearErrors(fs, cls).1, ErrorsLog(cls))
    ensures ClearErrors(fs, cls).0 == Continue ==> ErrorsLog(cls) !in ClearErrors(fs, cls).1.files
  {
    var r := ClearErrors(fs, cls).1;
    if RemoveError(fs, ErrorsLog(cls)).None? {
      assert r == Remove(fs, ErrorsLog(cls));
    } else {
      assert r == fs;
    }
    ConfinedSingle(fs, r, ErrorsLog(cls), ClassDir(cls));
  }

  /** Mirroring a class changes nothing outside `./Downloads/<class>/`. */
  lemma ClassroomConfined(fs: Fs, cfg: Config, cls: string, listings: Listings)
    ensures ConfinedTo(fs, ClassroomEffect(fs, cfg, cls, listings).1, ClassDir(cls))
    ensures Wf(fs) ==> Wf(ClassroomEffect(fs, cfg, cls, listings).1)
  {
    var c := ClassDir(cls);
    var r0 := ClassroomSetupEffect(fs, cls);
    SetupConfined(fs, cls);
    if r0.0.Abort? {
      assert ClassroomEffect(fs, cfg, cls, listings) == r0;
    } else {
      var r1 := if listings.announcements.None? then r0
                else PostsEffect(r0.1, cfg, cls, map[], Announcements, listings.announcements.value);
      if listings.announcements.Some? {
        PostsConfined(r0.1, cfg, cls, map[], Announcements, listings.announcements.value);
      }
      ConfinedTrans(fs, r0.1, r1.1, c);
      if r1.0.Abort? {
        assert ClassroomEffect(fs, cfg, cls, listings) == r1;
      } else {
        var table := if listings.topics.None? then map[] else TopicTable(listings.topics.value);
        var r2 := if listings.materials.None? then r1
                  else PostsEffect(r1.1, cfg, cls, table, Materials, listings.materials.value);
        if listings.materials.Some? {
          PostsConfined(r1.1, cfg, cls, table, Materials, listings.materials.value);
        }
        ConfinedTrans(fs, r1.1, r2.1, c);
        if r2.0.Abort? || listings.coursework.None? {
          assert ClassroomEffect(fs, cfg, cls, listings) == r2;
        } else {
          var r3 := PostsEffect(r2.1, cfg, cls, table, Classwork, listings.coursework.value);
          PostsConfined(r2.1, cfg, cls, table, Classwork, listings.coursework.value);
          ConfinedTrans(fs, r2.1, r3.1, c);
          assert ClassroomEffect(fs, cfg, cls, listings) == r3;
        }
      }
    }
  }

  /**
   * A set-up that succeeds leaves the class directory in place, `classroom.ct`
   * empty, and no `errors.txt`: the log only ever lists the latest run's failures.
   */
  lemma ClassroomSetupClearsErrors(fs: Fs, cls: string)
    requires ClassroomSetupEffect(fs, cls).0 == Continue
    ensures var r := ClassroomSetupEffect(fs, cls).1;
      && ClassDir(cls) in r.dirs
      && ClassDir(cls) + "classroom.ct" in r.files
      && r.files[ClassDir(cls) + "classroom.ct"] == []
      && ErrorsLog(cls) !in r.files
  {
    var fs1 := SetupStages(fs, cls);
    ClearErrorsConfined(fs1, cls);
    ErrorsLogApart(cls);
  }

  /** The set-up before its last stage: the class directory exists and `classroom.ct` is empty. */
  lemma SetupStages(fs: Fs, cls: string) returns (fs1: Fs)
    requires ClassroomSetupEffect(fs, cls).0 == Continue
    ensures ClassroomSetupEffect(fs, cls) == ClearErrors(fs1, cls)
    ensures ClassDir(cls) in fs1.dirs
    ensures ClassDir(cls) + "classroom.ct" in fs1.files && fs1.files[ClassDir(cls) + "classroom.ct"] == []
  {
    var base := ClassDir(cls);
    var fs0 := if MkdirError(fs, base).None? then Mkdir(fs, base) else fs;
    assert Store(fs0, base + "classroom.ct", []).0 == Continue;
    MarkerStored(fs0, cls);
    fs1 := Store(fs0, base + "classroom.ct", []).1;
  }

  /** Writing `classroom.ct` successfully keeps the class directory and leaves the marker empty. */
  lemma MarkerStored(fs: Fs, cls: string)
    requires Store(fs, ClassDir(cls) + "classroom.ct", []).0 == Continue
    ensures var r := Store(fs, ClassDir(cls) + "classroom.ct", []).1;
      ClassDir(cls) in r.dirs && ClassDir(cls) + "classroom.ct" in r.files && r.files[ClassDir(cls) + "classroom.ct"] == []
  {
    assert '/' !in "classroom.ct";
    StoredEntry(fs, ClassDir(cls), "classroom.ct", []);
  }

  lemma ErrorsLogApart(cls: string)
    ensures ErrorsLog(cls) != ClassDir(cls) + "classroom.ct"
  {
    assert |ErrorsLog(cls)| == |ClassDir(cls) + "classroom.ct"| - 2;
  }

  /** The directory each directory of a post lies in, when topic names are clean. */
  lemma PostDirParents(cls: string, table: map<string, string>, section: Section, post: Post)
    requires CleanNames(table)
    ensures section == Announcements ==> Container(PostDir(cls, table, section, post)) == SectionDir(cls, section)
    ensures section != Announcements ==>
      && Container(TopicDir(cls, table, section, post)) == SectionDir(cls, section)
      && Container(PostDir(cls, table, section, post)) == TopicDir(cls, table, section, post)
  {
    var sect := SectionDir(cls, section);
    assert IsBanned('/');
    if section == Announcements {
      var leaf := FolderName(post.id);
      assert '/' !in leaf;
      ParentOfEntry(sect, leaf);
      assert DropSlash(PostDir(cls, table, section, post)) == sect + leaf;
    } else {
      var topic := TopicFolder(table, post.topicId);
      var t := TopicDir(cls, table, section, post);
      assert forall i :: 0 <= i < |NoTopic| ==> NoTopic[i] != '/';
      assert '/' !in topic;
      ParentOfEntry(sect, topic);
      assert DropSlash(t) == sect + topic;
      var leaf := FolderName(post.title);
      assert '/' !in leaf;
      ParentOfEntry(t, leaf);
      assert DropSlash(PostDir(cls, table, section, post)) == t + leaf;
    }
  }

  /** A directory whose parent exists is present after `EnsureDir` unless it failed. */
  lemma EnsureDirMade(fs: Fs, d: string)
    requires Container(d) in fs.dirs
    ensures EnsureDir(fs, d).0.Abort? ==> EnsureDir(fs, d).0 == Abort(OsFailure(d, FileExists))
    ensures EnsureDir(fs, d).0.Continue? ==> d in EnsureDir(fs, d).1.dirs
  {
  }

  /** A post's body that does not end the run, in a directory that exists, leaves the post's directory on disk. */
  lemma PostBodyMade(fs: Fs, cfg: Config, cls: string, ms: seq<Material>, path: string)
    requires Container(path) in fs.dirs && HasPrefix(path, ClassDir(cls))
    requires PostBodyEffect(fs, cfg, cls, ms, path).0 == Continue
    ensures path in PostBodyEffect(fs, cfg, cls, ms, path).1.dirs
  {
    EnsureDirMade(fs, path);
    var r1 := EnsureDir(fs, path);
    assert r1.0.Continue?;
    GcFilesConfined(r1.1, cfg, cls, ms, path);
  }

  /**
   * A post with attachments that is handled without ending the run leaves its
   * directory on disk, below its topic's directory when it has one.
   */
  lemma PostMirrored(fs: Fs, cfg: Config, cls: string, table: map<string, string>, section: Section, post: Post)
    requires CleanNames(table)
    requires post.materials.Some?
    requires PostEffect(fs, cfg, cls, table, section, post).0 == Continue
    ensures var r := PostEffect(fs, cfg, cls, table, section, post).1;
      && SectionDir(cls, section) in r.dirs
      && (section != Announcements ==> TopicDir(cls, table, section, post) in r.dirs)
      && PostDir(cls, table, section, post) in r.dirs
  {
    var sect := SectionDir(cls, section);
    var topic := TopicDir(cls, table, section, post);
    var path := PostDir(cls, table, section, post);
    var ms := post.materials.value;
    var r1 := EnsureDir(fs, sect);
    assert r1.0.Continue?;
    var r2 := if section == Announcements then r1 else EnsureDir(r1.1, topic);
    assert r2.0.Continue?;
    assert PostEffect(fs, cfg, cls, table, section, post) == PostBodyEffect(r2.1, cfg, cls, ms, path);
    PostDirParents(cls, table, section, post);
    PostDirsInClass(cls, table, section, post);
    assert Container(path) in r2.1.dirs;
    PostBodyMade(r2.1, cfg, cls, ms, path);
    PostBodyConfined(r2.1, cfg, cls, ms, path);
    var r := PostBodyEffect(r2.1, cfg, cls, ms, path).1;
    assert sect in r.dirs && path in r.dirs;
    assert section != Announcements ==> topic in r.dirs;
  }

  // ---------------------------------------------------------------------------
  // The walk, performed on a disk
  // ---------------------------------------------------------------------------

  /** `if not os.path.exists(d): os.mkdir(d)`. */
  method EnsureDirectory(disk: Disk, d: string) returns (o: Outcome)
    modifies disk
    ensures (o, disk.State()) == EnsureDir(old(disk.State()), d)
  {
    o := Continue;
    var present := disk.HasDir(d);
    if !present {
      var err := disk.MakeDir(d);
      if err.Some? {
        o := Abort(OsFailure(d, err.value));
      }
    }
  }

  /** The `for m in i['materials']` loop. */
  method DownloadGcFiles(disk: Disk, cfg: Config, cls: string, ms: seq<Material>, path: string) returns (o: Outcome)
    modifies disk
    ensures (o, disk.State()) == GcFilesEffect(old(disk.State()), cfg, cls, ms, path)
  {
    ghost var start := disk.State();
    o := Continue;
    var i := 0;
    while i < |ms|
      invariant 0 <= i <= |ms|
      invariant GcFilesEffect(start, cfg, cls, ms, path) == GcFilesEffect(disk.State(), cfg, cls, ms[i..], path)
      invariant o == Continue
    {
      assert ms[i..][0] == ms[i] && ms[i..][1..] == ms[i + 1..];
      o := DownloadGcFile(disk, cfg, cls, ms[i], path);
      if o.Abort? {
        return;
      }
      i := i + 1;
    }
    assert ms[i..] == [];
  }

  /** The `try` block around a post's directory and attachments, which catches FileNotFoundError. */
  method DownloadPostBody(disk: Disk, cfg: Config, cls: string, ms: seq<Material>, path: string) returns (o: Outcome)
    modifies disk
    ensures (o, disk.State()) == PostBodyEffect(old(disk.State()), cfg, cls, ms, path)
  {
    o := EnsureDirectory(disk, path);
    if o.Continue? {
      o := DownloadGcFiles(disk, cfg, cls, ms, path);
    }
    if Caught(o) {
      o := Continue;
    }
  }

  /** One pass of a section loop of `download_classroom`. */
  method DownloadPost(disk: Disk, cfg: Config, cls: string, table: map<string, string>, section: Section, post: Post)
    returns (o: Outcome)
    modifies disk
    ensures (o, disk.State()) == PostEffect(old(disk.State()), cfg, cls, table, section, post)
  {
    o := Continue;
    if post.materials.None? {
      return;
    }
    var sect := Downloads + cls + "/" + SectionName(section) + "/";
    o := EnsureDirectory(disk, sect);
    if o.Abort? {
      return;
    }
    var path;
    if section == Announcements {
      var mat := CleanFolderName(post.id);
      path := sect + mat + "/";
    } else {
      var top := TopicFolder(table, post.topicId);
      o := EnsureDirectory(disk, sect + top + "/");
      if o.Abort? {
        return;
      }
      var mat := CleanFolderName(post.title);
      path := sect + top + "/" + mat + "/";
    }
    o := DownloadPostBody(disk, cfg, cls, post.materials.value, path);
  }

  /** A section loop of `download_classroom`: `for i in ...: if 'materials' in i: ...`. */
  method DownloadPosts(disk: Disk, cfg: Config, cls: string, table: map<string, string>, section: Section, ps: seq<Post>)
    returns (o: Outcome)
    modifies disk
    ensures (o, disk.State()) == PostsEffect(old(disk.State()), cfg, cls, table, section, ps)
  {
    ghost var start := disk.State();
    o := Continue;
    var i := 0;
    while i < |ps|
      invariant 0 <= i <= |ps|
      invariant PostsEffect(start, cfg, cls, table, section, ps) == PostsEffect(disk.State(), cfg, cls, table, section, ps[i..])
      invariant o == Continue
    {
      assert ps[i..][0] == ps[i] && ps[i..][1..] == ps[i + 1..];
      o := DownloadPost(disk, cfg, cls, table, section, ps[i]);
      if o.Abort? {
        return;
      }
      i := i + 1;
    }
    assert ps[i..] == [];
  }

  /** The start of `download_classroom`. */
  method SetUpClassroom(disk: Disk, cls: string) returns (o: Outcome)
    modifies disk
    ensures (o, disk.State()) == ClassroomSetupEffect(old(disk.State()), cls)
  {
    var base := Downloads + cls + "/";
    var mkdir := disk.MakeDir(base);
    if mkdir.Some? && mkdir.value != FileExists {
      o := Abort(OsFailure(base, mkdir.value));
      return;
    }
    o := disk.StoreFile(base + "classroom.ct", []);
    if o.Abort? {
      return;
    }
    var remove := disk.RemoveFile(base + "errors.txt");
    if remove.Some? && remove.value != NotFound {
      o := Abort(OsFailure(base + "errors.txt", remove.value));
    }
  }

  /** `download_classroom`: set up, then the announcements, the topic table, the materials and the course work. */
  method DownloadClassroom(disk: Disk, cfg: Config, cls: string, listings: Listings) returns (o: Outcome)
    modifies disk
    ensures (o, disk.State()) == ClassroomEffect(old(disk.State()), cfg, cls, listings)
  {
    o := SetUpClassroom(disk, cls);
    if o.Abort? {
      return;
    }
    if listings.announcements.Some? {
      o := DownloadPosts(disk, cfg, cls, map[], Announcements, listings.announcements.value);
      if o.Abort? {
        return;
      }
    }
    var topics := map[];
    if listings.topics.Some? {
      topics := BuildTopicTable(listings.topics.value);
    }
    if listings.materials.Some? {
      o := DownloadPosts(disk, cfg, cls, topics, Materials, listings.materials.value);
      if o.Abort? {
        return;
      }
    }
    if listings.coursework.Some? {
      o := DownloadPosts(disk, cfg, cls, topics, Classwork, listings.coursework.value);
    }
  }

}
