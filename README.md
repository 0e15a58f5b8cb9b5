# Course mirroring core of singularity.py, in Dafny

`singularity.py` mirrors online courses to a local `./Downloads/` tree. This
project models the part that decides what lands on disk:

- how remote titles become file and directory names (stripping, and deleting
  the characters of `BANNED_CHARS`);
- how a Brightspace topic's locator is classified: Brightspace CDN file,
  Google Drive file, Google Docs export, YouTube video, or not handled;
- how a Classroom attachment's link is classified;
- how Drive file ids, export formats and CDN extensions are read out of URLs;
- the skip rule (an existing target is not fetched again unless `FORCE` is
  set) and the `NO_VIDEO` switch;
- the depth-first Brightspace walk (`download_bs_folder` and the module loop of
  `download_brightspace`), with its `index.html` pages and `nothandled.txt` logs;
- the Classroom walk (`download_gc_file` and `download_classroom`): the topic
  table, the `Announcements/`, `Materials/<topic>/` and `Classwork/<topic>/`
  directories, and the class's `errors.txt`.

The local disk is a value `Fs`: a map from file paths to what was written, and a
set of directory paths (each with its trailing `/`). A downloaded body is the
request that fetched it, so a file's content records what was downloaded into
it. Each step of the program is written twice:

- a function from the disk before it to an `Outcome` (go on, or the run ends
  with the exception that escaped) and the disk after it;
- a method that performs the step in place on a `Disk` object, through
  `isfile`, `exists`, `mkdir`, `remove`, and writes and appends.

Each method's postcondition says that it agrees with its function. The lemmas
state the promised properties about the functions:

- the skip and fetch rules;
- the footprint of every step: at most the target file, the directory's log,
  or the class's `errors.txt`;
- a walk never leaves its directory (Brightspace) or the class directory
  (Classroom);
- a successful walk leaves a directory for every folder or post;
- without `FORCE`, handling a Brightspace topic a second time, after a
  first time that stored it, changes nothing;
- revisiting a folder clears its `nothandled.txt`;
- a classifier chain agrees with its rule table;
- the way the topic table is built.

Several failures of a single item are not caught where they arise, and they
end the run:

- an empty Brightspace locator (IndexError);
- a Drive or Docs locator without a file id (IndexError);
- a write where a directory stands, for instance a Drive file whose title
  sanitises to nothing (IsADirectoryError);
- a write below a name that is a file (NotADirectoryError), which the
  FileNotFoundError handlers do not catch;
- a Classroom attachment without a link (the KeyError handler raises again);
- a Classroom Drive file whose directory is missing: the handler formats `ff`,
  which is unbound in that branch, and raises UnboundLocalError.

The model reproduces each of these as an `Abort`.

## Model

| member | source | states |
|---|---|---|
| Text.Find | singularity.py:136 | the first index where the substring occurs, with no earlier occurrence, and -1 exactly when it does not occur |
| Text.In | singularity.py:136 | Python's `sub in s` holds exactly when `sub` occurs somewhere in `s` |
| Text.Split | singularity.py:139 | `s.split(sep)`: at least one piece, the pieces joined with `sep` give `s` back, there are two or more pieces exactly when `sep` occurs, and the first piece ends at the first occurrence |
| Text.Before | singularity.py:139 | `split(sep)[0]` is the prefix of `s` up to the first occurrence of `sep`, and all of `s` when `sep` does not occur |
| Text.Last | singularity.py:124 | `split(sep)[-1]` for a one-character `sep` is the suffix of `s` after the last `sep`, and all of `s` when `sep` does not occur |
| Text.SeparatedTail | singularity.py:124 | in `s == init + sep + r`, both `r` and `sep + r` are suffixes of `s` |
| Text.StripLeft | singularity.py:118 | `lstrip()` drops exactly the leading whitespace |
| Text.StripRight | singularity.py:118 | `rstrip()` drops exactly the trailing whitespace |
| Text.Strip | singularity.py:118 | `lstrip().rstrip()` is a factor of `s` framed by whitespace only, and neither starts nor ends with whitespace |
| Text.StripFrames | singularity.py:118 | the left-stripped then right-stripped text sits between whitespace only in `s` and is neither started nor ended by whitespace |
| Text.FramedPrefixOfSuffix | singularity.py:118 | cutting a whitespace tail off a suffix that follows only whitespace leaves a factor framed by whitespace |
| Text.Lower | singularity.py:126 | `lower()` keeps the length, turns every ASCII capital into its lower-case letter, and keeps every other character in place |
| Text.LowerConcat | singularity.py:126 | lower-casing a concatenation lower-cases each part |
| Text.LowerIdempotent | singularity.py:126 | lower-casing twice is lower-casing once |
| Text.ReplaceChar | singularity.py:357 | `replace(c, d)` keeps the length, leaves no `c` when `d` differs, keeps every other character in place, and returns a string without `c` unchanged |
| Text.ReplaceCharConcat | singularity.py:357 | replacing in a concatenation replaces in each part |
| Text.RemoveAll | singularity.py:119 | `replace(c, '')` leaves no `c`, and keeps exactly the other characters of `s` |
| Text.RemoveAllConcat | singularity.py:119 | removal in a concatenation removes in each part, `c` alone gives the empty string and any other character stays: the other characters keep their order and number |
| Sanitise.DeleteBanned | singularity.py:119 | the deletion loop leaves no banned character, and keeps exactly the characters of the input that are not banned |
| Sanitise.FolderName | singularity.py:356-358 | a Classroom post folder name holds neither a banned character nor a line break |
| Sanitise.RemoveAllExtends | singularity.py:119 | each pass of the `for c in BANNED_CHARS` loop deletes one more character from the set |
| Sanitise.RemoveBanned | singularity.py:119 | the loop over `BANNED_CHARS` computes the deletion of all of them |
| Sanitise.SanitiseTitle | singularity.py:118-119 | a Brightspace title is stripped and then loses its banned characters, and holds none afterwards |
| Sanitise.CleanFolderName | singularity.py:356-358 | a Classroom post folder name has its line breaks replaced and its banned characters deleted, and holds no line break |
| Sanitise.DeleteBannedPerCharacter | singularity.py:77 | deletion works character by character: banned characters vanish, the others stay in order, and it distributes over concatenation |
| Sanitise.DeleteBannedFixedIff | singularity.py:119 | a name is unchanged by deletion exactly when it holds no banned character |
| Sanitise.DeleteBannedIdempotent | singularity.py:206-214 | deleting the banned characters a second time, as the export branch does, changes nothing |
| Sanitise.SanitisedEmptyIff | singularity.py:118-119 | a sanitised title is empty exactly when its stripped form holds only banned characters |
| Sanitise.SanitisedNotIdempotent | singularity.py:118-119 | stripping before deleting means a sanitised title can end in a space: `"a ?"` gives `"a "`, which sanitises again to `"a"` |
| Sanitise.SanitisedQuestionMark | singularity.py:118-119 | `"a ?"` sanitises to `"a "`: the space before the deleted `?` survives the strip |
| Sanitise.SanitisedTrailingSpace | singularity.py:118-119 | `"a "` sanitises to `"a"` |
| Sanitise.BlankTitleIsEmpty | singularity.py:118-119 | every title made only of whitespace gives the empty name |
| Locators.ExportFormatOf | singularity.py:149-151 | the export format is `docx`, `pptx` or `xlsx` by the first of `document`, `presentation`, `spreadsheet` the URL contains, and none when it contains none of them |
| Locators.ExportFormatIsFirstKeyword | singularity.py:210-212 | the format chain is the first match in the ordered keyword table |
| Locators.SecondPiece | singularity.py:139 | `split(sep)[1]` exists exactly when `sep` occurs, and is the text between its first and second occurrence |
| Locators.IdToken | singularity.py:139 | `split('.')[0].split('&')[0].split('/')[0]` is the longest prefix free of `.`, `&` and `/` |
| Locators.IdTokenCut | singularity.py:139 | the three successive splits give exactly that prefix |
| Locators.IdTokenIsTakeUntilStop | singularity.py:234 | the id token equals an independent character-by-character definition |
| Locators.DriveFileId | singularity.py:139-140 | a Drive id exists exactly when the URL contains `/d/` or `/open?id=`, and it holds none of `.`, `&`, `/` |
| Locators.DriveFileIdAfterMarker | singularity.py:234-235 | the id is the token right after the first `/d/`, or after the first `/open?id=` when there is no `/d/` |
| Locators.ExportFileId | singularity.py:154 | an export id exists exactly when the URL contains `/d/`, and it holds no `/` |
| Locators.ExportFileIdAfterMarker | singularity.py:216 | the export id is the text between the first `/d/` and the next `/` |
| Locators.CdnExtension | singularity.py:124 | the CDN extension is the text after the last `.`, without a `.`, and the whole locator when it has no `.` |
| Locators.VideoNameIsExtension | singularity.py:126 | a CDN file name is a video name exactly when its lower-cased extension is in `VIDEO_EXTENSIONS` |
| Locators.ClassifyBs | singularity.py:123-176 | a Brightspace locator has no kind exactly when it is empty |
| Locators.ClassifyBsFollowsRules | singularity.py:123-174 | the topic handler's `if`/`elif` chain is the first match in the ordered rule table, for every non-empty locator and both settings of `NO_VIDEO` |
| Locators.ExportParamsMeanDrive | singularity.py:136-148 | a Docs link with the export parameters is fetched as a Drive file, never exported |
| Locators.NoVideoOnlyStopsYoutubeCom | singularity.py:165 | with `NO_VIDEO`, `youtu.be` links are still videos but `youtube.com` links are not handled |
| Locators.ClassifyGcFollowsRules | singularity.py:209-230 | the Classroom chain is the first match in its ordered rule table |
| Locators.GcExportParamsRuleIsDead | singularity.py:209-230 | a Classroom link is fetched from Drive exactly when it is a Drive link, not a folder and not a Docs link: the export-parameter test never decides |
| FileSystem.PathError | singularity.py:144 | a directory path fails to lead to a directory exactly when it is not a directory, with FileNotFoundError or, when a file stands on the way, NotADirectoryError |
| FileSystem.WriteError | singularity.py:144 | `open` for writing succeeds exactly for a path that is not a directory, does not end in `/`, and lies in an existing directory |
| FileSystem.WriteBelowFile | singularity.py:221 | writing below a name that is a file raises NotADirectoryError, not FileNotFoundError |
| FileSystem.MkdirError | singularity.py:307 | `os.mkdir` succeeds exactly when nothing stands at the path and its parent directory exists, and otherwise raises FileExists, NotFound or NotADirectory |
| FileSystem.RemoveError | singularity.py:312 | `os.remove` succeeds exactly when a file stands at the path, and otherwise raises IsADirectory, NotFound or NotADirectory |
| FileSystem.Write | singularity.py:131 | after `open(p, 'wb').write`, `p` holds exactly the body and no other file or directory changes |
| FileSystem.Append | singularity.py:175 | an append adds one write at the end of the file and changes nothing else |
| FileSystem.Mkdir | singularity.py:307 | `os.mkdir` adds exactly one directory |
| FileSystem.Remove | singularity.py:312 | `os.remove` removes exactly one file |
| FileSystem.Store | singularity.py:144 | a write nothing catches goes on exactly when `open` succeeds (not on a directory, nor one whose path ends in `/`, nor below a missing directory or a file), and then writes the body; otherwise nothing changes |
| FileSystem.StoredEntry | singularity.py:144 | a successful write of an entry of a directory leaves that directory in place and the entry holding the body |
| FileSystem.Log | singularity.py:175 | an append nothing catches goes on exactly when the path can be opened, and then appends the text |
| FileSystem.Disk.HasFile | singularity.py:125 | `os.path.isfile` reports whether a file is at the path |
| FileSystem.Disk.HasDir | singularity.py:354 | `os.path.exists` on a directory path reports whether the directory is there |
| FileSystem.Disk.WriteFile | singularity.py:131 | the in-place write reports the error `open` raises (IsADirectoryError on a directory path, FileNotFoundError, NotADirectoryError) and otherwise performs `Write` |
| FileSystem.Disk.AppendText | singularity.py:175 | the in-place append reports the error and otherwise performs `Append` |
| FileSystem.Disk.MakeDir | singularity.py:307 | the in-place `mkdir` reports FileExists, NotFound or NotADirectory (a file on the way), and otherwise adds the directory |
| FileSystem.Disk.RemoveFile | singularity.py:312 | the in-place `remove` reports IsADirectory, NotFound or NotADirectory (a file on the way), and otherwise removes the file |
| FileSystem.Disk.StoreFile | singularity.py:144 | the in-place write that ends the run on failure agrees with `Store` |
| FileSystem.Disk.LogText | singularity.py:175 | the in-place append that ends the run on failure agrees with `Log` |
| Brightspace.BsTouched | singularity.py:115-176 | the one path a topic can change lies below the topic's directory |
| Brightspace.BsSkipRule | singularity.py:125-168 | content already mirrored is left alone, unless `FORCE` is set; a video is left alone whatever `FORCE` says; a CDN file whose lower-cased extension is in `VIDEO_EXTENSIONS` is left alone when `NO_VIDEO` is set |
| Brightspace.BlankDriveTitleAborts | singularity.py:137-144 | a Drive topic whose title sanitises to nothing targets its own directory, and IsADirectoryError ends the run |
| Brightspace.DriveTopicEffect | singularity.py:134-146 | a topic classified as a Drive file has exactly the Drive fetch's effect, under its sanitised title |
| Brightspace.BsFetchRule | singularity.py:125-170 | content not yet mirrored, or any non-video content under `FORCE`, is stored at its target with the body of its request, unless `NO_VIDEO` withholds a CDN video or the target cannot be opened |
| Brightspace.CdnFetch | singularity.py:123-132 | a CDN file that is absent or forced, not withheld and writable is written with the body of `BASE_URL` + locator |
| Brightspace.DriveFetch | singularity.py:136-146 | a Drive file absent under both names, or forced, with an id and a writable target is written with the Drive media download |
| Brightspace.ExportFetch | singularity.py:148-161 | a Docs export that is absent or forced, with a format, an id and a writable target is written with the export download |
| Brightspace.VideoFetch | singularity.py:165-171 | a titled video that is absent and writable is written with its download |
| Brightspace.CdnFootprint | singularity.py:122-132 | a CDN fetch changes at most its target and keeps every file inside an existing directory |
| Brightspace.DriveFootprint | singularity.py:136-145 | a Drive fetch changes at most its target |
| Brightspace.ExportFootprint | singularity.py:147-161 | a Docs export changes at most its target; a Docs link of unknown format changes nothing and the run goes on, since the UnboundLocalError is caught with a warning |
| Brightspace.VideoFootprint | singularity.py:164-171 | a video download changes at most its `.mp4` file, and nothing when the video library fails |
| Brightspace.BsFileFootprint | singularity.py:115-176 | a topic changes at most one file below its directory and creates no directory |
| Brightspace.BsNotHandledLogged | singularity.py:174-176 | an unrecognised locator is appended, with a line break, to the directory's `nothandled.txt` |
| Brightspace.BsEmptyUrlAborts | singularity.py:123 | an empty locator ends the run and changes nothing |
| Brightspace.BsMissingIdAborts | singularity.py:137-154 | a Drive or Docs locator due to be fetched that holds no file id ends the run |
| Brightspace.BsFileAbortCauses | singularity.py:122-176 | CDN files, videos and Docs links of unknown format never end the run |
| Brightspace.CdnRerun | singularity.py:125 | without `FORCE`, a second CDN fetch changes nothing |
| Brightspace.DriveRerun | singularity.py:137 | without `FORCE`, a second Drive fetch after a successful one changes nothing |
| Brightspace.ExportRerun | singularity.py:153 | without `FORCE`, a second export after a successful one changes nothing |
| Brightspace.VideoRerun | singularity.py:168 | a second video download changes nothing |
| Brightspace.BsFileSecondRunSkips | singularity.py:122-171 | without `FORCE`, handling a topic a second time after a successful first time changes nothing |
| Brightspace.FetchCdnFile | singularity.py:122-132 | the CDN branch, performed in place, agrees with its effect function |
| Brightspace.FetchDriveFile | singularity.py:136-145 | the Drive branch agrees with its effect function |
| Brightspace.ExportDocsFile | singularity.py:147-161 | the Docs branch agrees with its effect function |
| Brightspace.FetchVideo | singularity.py:164-171 | the YouTube branch agrees with its effect function |
| Brightspace.DownloadBsFile | singularity.py:115-176 | `download_bs_file` agrees with the topic's effect |
| Brightspace.FolderDir | singularity.py:188 | a folder's directory lies below its parent's and ends in `/` |
| Brightspace.BsChildrenStep | singularity.py:195-197 | a listing is walked one entry at a time, stopping at the first failure |
| Brightspace.BsChildrenAppend | singularity.py:195-197 | walking a concatenated listing is walking its first part and then, unless that failed, the second |
| Brightspace.EnterDirFootprint | singularity.py:187-193 | entering a folder adds at most its directory and changes at most its `index.html` and stale log |
| Brightspace.DirEntered | singularity.py:187-193 | a folder directory entered without failure exists afterwards |
| Brightspace.NewDirIndexed | singularity.py:187-193 | a folder directory made afresh holds the folder's `index.html` with its title and description |
| Brightspace.EnterDirConfined | singularity.py:187-193 | entering a folder below a directory changes nothing outside it |
| Brightspace.BsNodeKeepsDirs | singularity.py:180-197 | a walk never takes a directory away and keeps every file inside an existing directory |
| Brightspace.BsChildrenKeepDirs | singularity.py:195-197 | the same for a listing |
| Brightspace.BsNodeMirrorsTree | singularity.py:180-197 | a walk that does not fail leaves a directory for every folder of the tree |
| Brightspace.BsChildrenMirrorTree | singularity.py:195-197 | the same for a listing |
| Brightspace.BsNodeConfined | singularity.py:180-197 | a walk of an entry changes nothing outside its parent directory |
| Brightspace.BsChildrenConfined | singularity.py:195-197 | the same for a listing |
| Brightspace.FolderRevisitClearsLog | singularity.py:191-193 | revisiting an existing folder leaves its `index.html` alone and removes its `nothandled.txt`; only a directory standing at the log's path ends the run |
| Brightspace.EnterDirectory | singularity.py:187-193 | the `mkdir`, `index.html` and stale-log removal agree with their effect |
| Brightspace.DownloadBsFolder | singularity.py:180-197 | `download_bs_folder` agrees with the folder's effect |
| Brightspace.DownloadEntry | singularity.py:196-197 | one entry of a listing agrees with its effect |
| Brightspace.DownloadStructure | singularity.py:195-197 | the `for a in m['Structure']` loop agrees with the listing's effect |
| Brightspace.ModuleEntryKeepsOwnLog | singularity.py:306-313 | entering a module never touches its own `nothandled.txt`, because the removal path lacks `./Downloads/` |
| Brightspace.BadListingAborts | singularity.py:283-287 | an unreadable module listing ends the run after only the marker file is written |
| Brightspace.BsModulesAppend | singularity.py:301-317 | the module loop walks the modules in listing order and stops at the first failure |
| Brightspace.SetUpCourse | singularity.py:271-274 | making the course directory and writing `brightspace.ct` agree with the set-up effect |
| Brightspace.DownloadModule | singularity.py:302-317 | one pass of the module loop agrees with the module's effect |
| Brightspace.DownloadBrightspace | singularity.py:266-317 | `download_brightspace` agrees with the course's effect |
| Classroom.ClassDir | singularity.py:326 | the class directory lies under `./Downloads/` |
| Classroom.ErrorsLog | singularity.py:225 | `errors.txt` lies in the class directory |
| Classroom.GcExportFootprint | singularity.py:209-226 | an export changes at most its target and the class's `errors.txt`; a link of unknown format changes nothing and the run goes on, since the UnboundLocalError is caught with a warning |
| Classroom.GcDriveFootprint | singularity.py:230-243 | a Drive fetch changes at most its target |
| Classroom.GcVideoFootprint | singularity.py:247-257 | a video download changes at most its `.mp4` file |
| Classroom.GcFileFootprint | singularity.py:201-261 | an attachment creates no directory and changes nothing outside its directory except `errors.txt` |
| Classroom.GcSkipRule | singularity.py:215-231 | without `FORCE`, a Drive or Docs attachment whose file is present is left alone |
| Classroom.GcDriveFetchRule | singularity.py:231-239 | a Drive attachment due to be fetched is stored under its sanitised title with the body of its Drive media request |
| Classroom.GcExportFetchRule | singularity.py:215-221 | a Docs attachment due to be exported is stored under its title and format extension with the body of its export request |
| Classroom.GcDriveFoldersIgnored | singularity.py:230 | Drive folder links are never downloaded |
| Classroom.GcVideoSkipRule | singularity.py:254 | a video present as `.mp4`, `.mov`, `.m4v` or `.mkv` is not fetched again, even with `FORCE` |
| Classroom.GcVideoFetch | singularity.py:254-255 | a titled video missing under all four names is downloaded as `.mp4` when the target can be written, whatever `FORCE` says |
| Classroom.GcIgnoresNoVideo | singularity.py:247-257 | `NO_VIDEO` has no effect on Classroom attachments |
| Classroom.GcMissingKeys | singularity.py:204-257 | a missing link ends the run, and a missing title skips the attachment |
| Classroom.GcExportLogsMissingDir | singularity.py:223-225 | an export into a missing directory is recorded, with a line break, at the end of `errors.txt`, and the run goes on |
| Classroom.GcBlankDriveTitleAborts | singularity.py:231-244 | a Drive attachment whose title loses every character targets its own directory, and IsADirectoryError ends the run |
| Classroom.GcExportBelowFileEndsRun | singularity.py:215-226 | an export below a name that is a file raises NotADirectoryError, which is neither logged nor caught |
| Classroom.GcDriveMissingDirEndsRun | singularity.py:241-243 | a Drive file whose directory is missing ends the run with UnboundLocalError |
| Settings.GoogleArgsAsWritten | singularity.py:483-485 | as written, the Classroom argument check leaves `FORCE` as it was, whatever the switch |
| Settings.GoogleArgs | singularity.py:475-476 | corrected, `FORCE` takes the switch and nothing else changes |
| Classroom.ForceSwitchLostAsWritten | singularity.py:483-485 | as written, with `-f` an attachment already on disk is still skipped |
| Classroom.ForceSwitchHonoured | singularity.py:231-239 | corrected, with `-f` the attachment is fetched and stored again |
| Classroom.ExportGcFile | singularity.py:209-226 | the Docs branch, performed in place, agrees with its effect |
| Classroom.FetchGcDriveFile | singularity.py:230-243 | the Drive branch agrees with its effect |
| Classroom.FetchGcVideo | singularity.py:247-256 | the YouTube branch agrees with its effect |
| Classroom.DownloadGcFile | singularity.py:201-261 | `download_gc_file` agrees with the attachment's effect |
| Classroom.CompleteRun | singularity.py:374-378 | the entries before the first one missing a key are complete, and the one after them is not |
| Classroom.TopicsFromClean | singularity.py:374-377 | every topic name put in the table is clean |
| Classroom.TopicTableClean | singularity.py:372-378 | no topic folder name holds a banned character |
| Classroom.TopicsFromKeys | singularity.py:374-378 | the ids in a table are those it started with and those before the first incomplete entry |
| Classroom.TopicTableKeys | singularity.py:372-378 | a topic id is in the table exactly when an entry before the first incomplete one carries it |
| Classroom.TopicsFromAppend | singularity.py:374-377 | a table built from complete entries and then more entries is built in two stages |
| Classroom.TopicTableLastWins | singularity.py:377 | a later entry with the same id overrides an earlier one |
| Classroom.TopicsFromStops | singularity.py:373-378 | entries after the first incomplete one are never read |
| Classroom.BuildTopicTable | singularity.py:372-378 | the topic loop builds exactly the topic table |
| Classroom.TopicFolderOneLevel | singularity.py:388-394 | a topic folder name holds no `/` |
| Classroom.UnknownTopicFallsBack | singularity.py:388-389 | a post whose topic is missing or unknown goes to `NO TOPIC` |
| Classroom.PostDir | singularity.py:359-428 | a post's directory lies in its section's directory |
| Classroom.EnsureDir | singularity.py:354 | `if not exists: mkdir` leaves the files alone, adds the directory on success and otherwise changes nothing and reports the `mkdir` error |
| Classroom.PostBodyEffect | singularity.py:361-367 | the `try` around a post's attachments never lets a FileNotFoundError through |
| Classroom.GcFilesConfined | singularity.py:365-366 | a post's attachments create no directory and change nothing outside the class directory |
| Classroom.PostBodyConfined | singularity.py:361-367 | a post's body adds at most its own directory and stays in the class directory |
| Classroom.PostDirsInClass | singularity.py:354-428 | every directory a post creates lies in the class directory |
| Classroom.EnsureDirConfined | singularity.py:354 | making a directory below a prefix changes nothing outside it |
| Classroom.PostConfined | singularity.py:349-407 | a post never takes a directory away and changes nothing outside the class directory |
| Classroom.PostsConfined | singularity.py:385-407 | the posts of a section change nothing outside the class directory |
| Classroom.SetupConfined | singularity.py:325-331 | the set-up changes nothing outside the class directory |
| Classroom.ClearErrorsConfined | singularity.py:330-331 | removing `errors.txt` changes at most that file, inside the class directory, and when the run goes on the log is gone |
| Classroom.ClassroomConfined | singularity.py:322-436 | mirroring a class changes nothing outside `./Downloads/<class>/` |
| Classroom.ClassroomSetupClearsErrors | singularity.py:325-331 | after a successful set-up the class directory exists, `classroom.ct` is empty and `errors.txt` is gone |
| Classroom.SetupStages | singularity.py:325-328 | a set-up that goes on has made or found the class directory and written `classroom.ct` empty before it removes `errors.txt` |
| Classroom.MarkerStored | singularity.py:328 | a successful write of `classroom.ct` keeps the class directory and leaves the marker empty |
| Classroom.ErrorsLogApart | singularity.py:328-330 | `errors.txt` and `classroom.ct` are different paths, so removing the log keeps the marker |
| Classroom.PostDirParents | singularity.py:392-399 | a topic directory lies directly in its section's directory, and a post directory directly in its topic's or section's directory |
| Classroom.EnsureDirMade | singularity.py:402 | with its parent present, `if not exists: mkdir` fails only with FileExistsError, and otherwise leaves the directory in place |
| Classroom.PostBodyMade | singularity.py:401-407 | a post's body that goes on leaves the post's directory in place |
| Classroom.PostMirrored | singularity.py:385-407 | a post with attachments handled without ending the run leaves its section, topic and post directories on disk |
| Classroom.EnsureDirectory | singularity.py:354 | the in-place `if not exists: mkdir` agrees with its effect |
| Classroom.DownloadGcFiles | singularity.py:365-366 | the `for m in i['materials']` loop agrees with the attachments' effect |
| Classroom.DownloadPostBody | singularity.py:361-367 | the `try` block agrees with the post body's effect |
| Classroom.DownloadPost | singularity.py:386-407 | one pass of a section loop agrees with the post's effect |
| Classroom.DownloadPosts | singularity.py:385-407 | a section loop agrees with the posts' effect |
| Classroom.SetUpClassroom | singularity.py:325-331 | the start of `download_classroom` agrees with the set-up effect |
| Classroom.DownloadClassroom | singularity.py:322-436 | `download_classroom` agrees with the class's effect |

## Left out

- HTTP requests, cookies and the Google OAuth token refresh (singularity.py:88-111) are not modelled. A topic's fetched `Url`, a folder's listing and the Classroom listings are inputs. A downloaded body is represented by the request that fetched it.
- The YouTube library is a map `videoTitle` from link to reported title; a link missing from the map stands for any exception the library raises. The library writes the file under its `safe_filename` of the title; the model writes it under the title itself, which the existence checks also use.
- JSON dumps and other metadata files are not modelled: `info.json`, `classlist.json`, `announcements.html`, `teacherlist.json`, `announcements.json`, `topics.json`, `materials.json` and `coursework.json`. Besides adding files in the course or class directory, reading the responses they hold can end a run before any content is mirrored. A Brightspace page without the announcements `div` raises IndexError (singularity.py:294), and a Classroom response that is not JSON raises when it is decoded (for example singularity.py:336).
- Console output (`print`, `print_warn`, `print_err`) is left out.
- The command line, the menus and the listing of courses (everything outside `download_bs_file`, `download_bs_folder`, `download_brightspace`, `download_gc_file` and `download_classroom`) are outside this model.
- A folder's record is fetched again by id before its `index.html` is written. The model uses the record from the parent listing for both.
- Listing records are assumed to carry the keys the code reads without a `try`: a module or folder's `Title`, `Description`, `Structure` and `Type`, and a post's `id` and `title`. A missing one would end the run with a KeyError. The keys the code does guard are modelled: `topicId`, `materials`, `alternateLink`, `title`, and the topic entries' `name` and `topicId`.
- Paths are the strings the program builds. Path normalisation (`a//b` as `a/b`, `.` and `..`) and the `./Downloads` root made at start-up are not modelled.
- `Text.Lower` lower-cases ASCII letters only, while Python's `lower()` covers all of Unicode.
- The only failures of `open`, `mkdir` and `remove` modelled are those the layout causes. Permissions, full disks and the network are not modelled.
- Brightspace.DirEntered and the tree-mirroring lemmas assume every file lies in an existing directory (`Wf`), which every step preserves.

## Findings

| source | as written | input that shows it | evidently intended | confidence | as-written member | corrected member |
|---|---|---|---|---|---|---|
| singularity.py:483-485 | `check_google_args` assigns `FORCE` without `global`, so the global stays `None` | `-gc -cid <class> -f` with a Drive attachment already on disk: it is skipped | `-f` forces Classroom downloads as it does Brightspace ones (singularity.py:459, 475-476) | high, from reading the code; not executed | Settings.GoogleArgsAsWritten, Classroom.ForceSwitchLostAsWritten | Settings.GoogleArgs, Classroom.ForceSwitchHonoured |

As written, no `FORCE` branch of the Classroom rules can be reached: the
command-line paths go through `check_google_args` (singularity.py:659, 667),
and the interactive mode refuses Google Classroom with NotImplementedError
(singularity.py:633-635). The other quirks noticed are modelled as written and
stated by a lemma:

- `youtu.be` ignores `NO_VIDEO`, because `and` binds tighter than `or` (Locators.NoVideoOnlyStopsYoutubeCom).
- A module's stale log is removed at a path without `./Downloads/` (Brightspace.ModuleEntryKeepsOwnLog).
- A Classroom Drive write into a missing directory ends the run with UnboundLocalError (Classroom.GcDriveMissingDirEndsRun).
- The Classroom export-parameter test is dead (Locators.GcExportParamsRuleIsDead).
