/**
 * The local mirror as the synchroniser sees it: whole-file writes, appends to
 * log files, `os.mkdir`, `os.remove`, `os.path.isfile` and `os.path.exists`.
 *
 * A path is the string the program builds. Directories are recorded with their
 * trailing `/`, files without one. Downloaded bodies are opaque: a file holds
 * the request it was fetched with, so two fetches of the same request give the
 * same content. The only failures modelled are the ones the layout itself can
 * cause: writing to or removing a directory (IsADirectoryError), writing,
 * creating or removing under a directory that does not exist
 * (FileNotFoundError) or under a name that is a file (NotADirectoryError), and
 * creating a directory where one or a file already stands (FileExistsError).
 */
module FileSystem {
  import opened Wrappers
  import opened Text

  /** One write into a file: a downloaded body, named by the request that fetched it, or text. */
  datatype Chunk = Download(request: string) | Written(text: string)

  /** The state of the mirror. */
  datatype Fs = Fs(files: map<string, seq<Chunk>>, dirs: set<string>)

  /** The error an `open`, `mkdir` or `remove` raises. */
  datatype OsError = IsADirectory | NotFound | FileExists | NotADirectory

  /** Why a run stops: an exception that nothing between it and the top level catches. */
  datatype Failure =
    | EmptyUrl
    | NoFileId(url: string)
    | OsFailure(path: string, error: OsError)
    | MissingLink
    | BadListing
    | UnboundLocal(name: string)

  /** The root every mirrored course lies under. */
  const Downloads := "./Downloads/"

  /** What an operation hands back to its caller: go on, or the run is over. */
  datatype Outcome = Continue | Abort(failure: Failure)

  /** A path without its trailing `/`, if it has one. */
  function DropSlash(p: string): (r: string)
    ensures |r| <= |p|
  {
    if p != [] && p[|p| - 1] == '/' then p[..|p| - 1] else p
  }

  /** The directory `p` lies in: `p` up to and including its last `/` (empty if there is none). */
  function Parent(p: string): (r: string)
    ensures |r| <= |p| && r == p[..|r|]
  {
    if p == [] then []
    else if p[|p| - 1] == '/' then p
    else Parent(p[..|p| - 1])
  }

  /** A name without `/` placed in a directory lies in that directory. */
  lemma {:induction false} ParentOfEntry(dir: string, name: string)
    requires dir != [] && dir[|dir| - 1] == '/'
    requires '/' !in name
    ensures Parent(dir + name) == dir
    decreases |name|
  {
    if name != [] {
      assert (dir + name)[..|dir + name| - 1] == dir + name[..|name| - 1];
      assert (dir + name)[|dir + name| - 1] == name[|name| - 1];
      ParentOfEntry(dir, name[..|name| - 1]);
    } else {
      assert dir + name == dir;
    }
  }

  /** The directory a file path or a directory path (with its `/`) lies in. */
  function Container(p: string): (r: string)
    ensures p != [] ==> |r| < |p|
  {
    Parent(DropSlash(p))
  }

  /** The file at `q` is the same in both states: absent from both, or present with the same writes. */
  ghost predicate Untouched(fs: Fs, fs2: Fs, q: string)
  {
    (q in fs.files <==> q in fs2.files) && (q in fs.files ==> fs.files[q] == fs2.files[q])
  }

  /** `fs2` differs from `fs` at most in the file at `p`. */
  ghost predicate SameExcept(fs: Fs, fs2: Fs, p: string)
  {
    fs2.dirs == fs.dirs && forall q :: q != p ==> Untouched(fs, fs2, q)
  }

  /** Every file and directory outside `prefix` is the same in both states. */
  ghost predicate ConfinedTo(fs: Fs, fs2: Fs, prefix: string)
  {
    && (forall q :: !HasPrefix(q, prefix) ==> Untouched(fs, fs2, q))
    && (forall d :: !HasPrefix(d, prefix) ==> (d in fs2.dirs <==> d in fs.dirs))
  }

  /** A change confined to one path below `prefix` is confined to `prefix`. */
  lemma ConfinedSingle(fs: Fs, fs2: Fs, p: string, prefix: string)
    requires SameExcept(fs, fs2, p) && HasPrefix(p, prefix)
    ensures ConfinedTo(fs, fs2, prefix)
  {
  }

  /** Changes confined to `prefix` compose. */
  lemma ConfinedTrans(a: Fs, b: Fs, c: Fs, prefix: string)
    requires ConfinedTo(a, b, prefix) && ConfinedTo(b, c, prefix)
    ensures ConfinedTo(a, c, prefix)
  {
  }

  /** A prefix of a prefix is a prefix. */
  lemma PrefixTrans(q: string, d: string, p: string)
    requires HasPrefix(q, d) && HasPrefix(d, p)
    ensures HasPrefix(q, p)
  {
    assert q[..|p|] == q[..|d|][..|p|];
  }

  /** A change confined to `p`, followed by one confined to a directory `d` below `p`, is confined to `p`. */
  lemma ConfinedNest(a: Fs, b: Fs, c: Fs, p: string, d: string)
    requires ConfinedTo(a, b, p) && ConfinedTo(b, c, d) && HasPrefix(d, p)
    ensures ConfinedTo(a, c, p)
  {
    forall q | HasPrefix(q, d)
      ensures HasPrefix(q, p)
    {
      PrefixTrans(q, d, p);
    }
  }

  /** Every file lies in a directory that exists. */
  ghost predicate Wf(fs: Fs)
  {
    forall p :: p in fs.files ==> Container(p) in fs.dirs
  }

  /** `os.path.isfile(p)`. */
  predicate IsFile(fs: Fs, p: string)
  {
    p in fs.files
  }

  /**
   * Why the directory path `d` does not lead to a directory, walking up from
   * `d`: the nearest missing directory gives FileNotFoundError, unless a file
   * stands where a directory on the way should be (NotADirectoryError).
   */
  function PathError(fs: Fs, d: string): (r: Option<OsError>)
    ensures r.None? <==> d in fs.dirs
    ensures r.Some? ==> r.value == NotFound || r.value == NotADirectory
    decreases |d|
  {
    if d in fs.dirs then None
    else if d == [] then Some(NotFound)
    else if DropSlash(d) in fs.files then Some(NotADirectory)
    else
      match PathError(fs, Container(d))
      case Some(e) => Some(e)
      case None => Some(NotFound)
  }

  /**
   * Why `open(p, 'w')` or `open(p, 'a')` fails, if it does: a directory stands
   * at `p` (IsADirectoryError), the directory `p` lies in cannot be reached, or
   * `p` names a directory by its trailing `/`, which `open` cannot create.
   */
  function WriteError(fs: Fs, p: string): (r: Option<OsError>)
    ensures r.None? <==>
      Container(p) in fs.dirs && p + "/" !in fs.dirs && p !in fs.dirs && (p == [] || p[|p| - 1] != '/')
  {
    if p in fs.dirs || p + "/" in fs.dirs then Some(IsADirectory)
    else if PathError(fs, Container(p)).Some? then PathError(fs, Container(p))
    else if p != [] && p[|p| - 1] == '/' then
      if DropSlash(p) in fs.files then Some(NotADirectory) else Some(IsADirectory)
    else None
  }

  /** No file and no directory lies below the directory path `dir`. */
  ghost predicate NothingBelow(fs: Fs, dir: string)
  {
    && (forall d :: d in fs.dirs ==> !HasPrefix(d, dir))
    && (forall q :: q in fs.files ==> !HasPrefix(q, dir))
  }

  /**
   * Writing to a name in a directory path where a file stands, with nothing
   * below that path, raises NotADirectoryError rather than FileNotFoundError.
   */
  lemma WriteBelowFile(fs: Fs, dir: string, name: string)
    requires dir != [] && dir[|dir| - 1] == '/' && DropSlash(dir) in fs.files
    requires NothingBelow(fs, dir)
    requires name != [] && '/' !in name
    ensures WriteError(fs, dir + name) == Some(NotADirectory)
    ensures dir + name !in fs.files
  {
    var p := dir + name;
    assert p[|p| - 1] == name[|name| - 1];
    ParentOfEntry(dir, name);
    assert Container(p) == dir;
    assert HasPrefix(p, dir) && HasPrefix(p + "/", dir) && HasPrefix(dir, dir);
  }

  /** `open(p, 'w').write(...)`: the file holds exactly `body` afterwards. */
  function Write(fs: Fs, p: string, body: seq<Chunk>): (r: Fs)
    ensures p in r.files && r.files[p] == body
    ensures SameExcept(fs, r, p)
    ensures Wf(fs) && Container(p) in fs.dirs ==> Wf(r)
  {
    fs.(files := fs.files[p := body])
  }

  /** The writes into a log file so far (none if it does not exist). */
  function Existing(fs: Fs, p: string): seq<Chunk>
  {
    if p in fs.files then fs.files[p] else []
  }

  /** `open(p, 'a').write(text)`: one write more at the end of the file. */
  function Append(fs: Fs, p: string, text: string): (r: Fs)
    ensures p in r.files && r.files[p] == Existing(fs, p) + [Written(text)]
    ensures SameExcept(fs, r, p)
    ensures Wf(fs) && Container(p) in fs.dirs ==> Wf(r)
  {
    fs.(files := fs.files[p := Existing(fs, p) + [Written(text)]])
  }

  /** What `os.mkdir(d)` does. */
  function MkdirError(fs: Fs, d: string): (r: Option<OsError>)
    ensures r.None? <==> d !in fs.dirs && DropSlash(d) !in fs.files && Container(d) in fs.dirs
    ensures r.Some? ==> r.value == FileExists || r.value == NotFound || r.value == NotADirectory
  {
    if d in fs.dirs || DropSlash(d) in fs.files then Some(FileExists)
    else PathError(fs, Container(d))
  }

  function Mkdir(fs: Fs, d: string): (r: Fs)
    ensures r.files == fs.files && r.dirs == fs.dirs + {d}
    ensures Wf(fs) ==> Wf(r)
  {
    fs.(dirs := fs.dirs + {d})
  }

  /** What `os.remove(p)` does: `None` when it removes the file. */
  function RemoveError(fs: Fs, p: string): (r: Option<OsError>)
    ensures r.None? <==> p in fs.files
    ensures r.Some? ==> r.value == IsADirectory || r.value == NotFound || r.value == NotADirectory
  {
    if p in fs.files then None
    else if p in fs.dirs || p + "/" in fs.dirs then Some(IsADirectory)
    else if PathError(fs, Container(p)).Some? then PathError(fs, Container(p))
    else Some(NotFound)
  }

  function Remove(fs: Fs, p: string): (r: Fs)
    ensures p !in r.files
    ensures SameExcept(fs, r, p)
    ensures Wf(fs) ==> Wf(r)
  {
    fs.(files := fs.files - {p})
  }

  /** A write whose failure nothing catches: the file is written or the run stops. */
  function Store(fs: Fs, p: string, body: seq<Chunk>): (r: (Outcome, Fs))
    ensures r.0 == Continue <==> WriteError(fs, p).None?
    ensures r.0 == Continue ==> r.1 == Write(fs, p, body)
    ensures r.0 != Continue ==> r.1 == fs
    ensures Wf(fs) ==> Wf(r.1)
  {
    match WriteError(fs, p)
    case None => (Continue, Write(fs, p, body))
    case Some(e) => (Abort(OsFailure(p, e)), fs)
  }

  /** A write into a directory that succeeds leaves the directory in place and the file holding `body`. */
  lemma StoredEntry(fs: Fs, dir: string, name: string, body: seq<Chunk>)
    requires dir != [] && dir[|dir| - 1] == '/' && name != [] && '/' !in name
    requires Store(fs, dir + name, body).0 == Continue
    ensures var r := Store(fs, dir + name, body).1;
      dir in r.dirs && dir + name in r.files && r.files[dir + name] == body
  {
    ParentOfEntry(dir, name);
    assert (dir + name)[|dir + name| - 1] == name[|name| - 1];
    assert DropSlash(dir + name) == dir + name;
  }

  /** An append whose failure nothing catches. */
  function Log(fs: Fs, p: string, text: string): (r: (Outcome, Fs))
    ensures r.0 == Continue <==> WriteError(fs, p).None?
    ensures r.0 == Continue ==> r.1 == Append(fs, p, text)
    ensures r.0 != Continue ==> r.1 == fs
    ensures Wf(fs) ==> Wf(r.1)
  {
    match WriteError(fs, p)
    case None => (Continue, Append(fs, p, text))
    case Some(e) => (Abort(OsFailure(p, e)), fs)
  }

  /** The mirror on disk, changed in place by the synchroniser's steps. */
  class Disk {
    var files: map<string, seq<Chunk>>
    var dirs: set<string>

    function State(): Fs
      reads this
    {
      Fs(files, dirs)
    }

    constructor (start: Fs)
      ensures State() == start
    {
      files := start.files;
      dirs := start.dirs;
    }

    /** `os.path.isfile(p)`. */
    method HasFile(p: string) returns (b: bool)
      ensures b == IsFile(State(), p)
    {
      b := p in files;
    }

    /** `os.path.exists(d)` for a directory path `d` ending in `/`. */
    method HasDir(d: string) returns (b: bool)
      ensures b == (d in State().dirs)
    {
      b := d in dirs;
    }

    /** `open(p, 'wb').write(...)`, reporting the error the `open` raises instead of raising it. */
    method WriteFile(p: string, body: seq<Chunk>) returns (err: Option<OsError>)
      modifies this
      ensures err == WriteError(old(State()), p)
      ensures State() == if err.None? then Write(old(State()), p, body) else old(State())
    {
      err := WriteError(State(), p);
      if err.None? {
        files := files[p := body];
      }
    }

    /** `open(p, 'a').write(text)`. */
    method AppendText(p: string, text: string) returns (err: Option<OsError>)
      modifies this
      ensures err == WriteError(old(State()), p)
      ensures State() == if err.None? then Append(old(State()), p, text) else old(State())
    {
      err := WriteError(State(), p);
      if err.None? {
        var before := if p in files then files[p] else [];
        files := files[p := before + [Written(text)]];
      }
    }

    /** `os.mkdir(d)`. */
    method MakeDir(d: string) returns (err: Option<OsError>)
      modifies this
      ensures err == MkdirError(old(State()), d)
      ensures State() == if err.None? then Mkdir(old(State()), d) else old(State())
    {
      err := MkdirError(State(), d);
      if err.None? {
        dirs := dirs + {d};
      }
    }

    /** `os.remove(p)`. */
    method RemoveFile(p: string) returns (err: Option<OsError>)
      modifies this
      ensures err == RemoveError(old(State()), p)
      ensures State() == if err.None? then Remove(old(State()), p) else old(State())
    {
      err := RemoveError(State(), p);
      if err.None? {
        files := files - {p};
      }
    }

    /** A write that stops the run when it fails. */
    method StoreFile(p: string, body: seq<Chunk>) returns (o: Outcome)
      modifies this
      ensures (o, State()) == Store(old(State()), p, body)
    {
      var err := WriteFile(p, body);
      o := if err.None? then Continue else Abort(OsFailure(p, err.value));
    }

    /** An append that stops the run when it fails. */
    method LogText(p: string, text: string) returns (o: Outcome)
      modifies this
      ensures (o, State()) == Log(old(State()), p, text)
    {
      var err := AppendText(p, text);
      o := if err.None? then Continue else Abort(OsFailure(p, err.value));
    }
  }

}
