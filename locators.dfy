/**
 * Reading a material's locator: which download strategy its URL selects
 * (singularity.py:123-176 for Brightspace topics, 209-235 for Classroom drive
 * files), the Google Drive file id inside it, the export format of a Google
 * Docs link and the extension of a Brightspace-hosted file.
 *
 * The classifiers are the source's `if`/`elif` chains of substring tests. Next
 * to each chain stands an ordered table of rules with a first-match search, and
 * a lemma proves the chain and the table agree on every URL.
 */
module Locators {
  import opened Wrappers
  import opened Text

  /** `VIDEO_EXTENSIONS` (singularity.py:78). */
  const VideoExtensions: seq<string> := ["mp4", "mpg", "m4v", "mov", "mod", "avi", "3gp", "mkv"]

  const DocsHost := "docs.google.com"
  const DriveHost := "drive.google.com"
  const ExportParams := "&rtpof=true&sd=true"

  // ---------------------------------------------------------------------------
  // Export formats of Google Docs, Slides and Sheets
  // ---------------------------------------------------------------------------

  datatype ExportFormat = ExportFormat(mime: string, ext: string)

  const Docx := ExportFormat("application/vnd.openxmlformats-officedocument.wordprocessingml.document", "docx")
  const Pptx := ExportFormat("application/vnd.openxmlformats-officedocument.presentationml.presentation", "pptx")
  const Xlsx := ExportFormat("application/vnd.openxmlformats-officedocument.spreadsheetml.sheet", "xlsx")

  /**
   * The `mimetype`/`ff` chain (singularity.py:149-151, 210-212). `None` is the
   * case where neither variable gets bound, which the source notices only when
   * it first reads `ff`.
   */
  function ExportFormatOf(url: string): (r: Option<ExportFormat>)
    ensures r == Some(Docx) <==> Contains(url, "document")
    ensures r == Some(Pptx) <==> !Contains(url, "document") && Contains(url, "presentation")
    ensures r == Some(Xlsx) <==> !Contains(url, "document") && !Contains(url, "presentation") && Contains(url, "spreadsheet")
    ensures r == None <==> !Contains(url, "document") && !Contains(url, "presentation") && !Contains(url, "spreadsheet")
    ensures r.Some? ==> r.value in [Docx, Pptx, Xlsx] && '/' !in r.value.ext
  {
    if In("document", url) then Some(Docx)
    else if In("presentation", url) then Some(Pptx)
    else if In("spreadsheet", url) then Some(Xlsx)
    else None
  }

  /** The keyword → format mapping as an ordered table. */
  const ExportTable: seq<(string, ExportFormat)> := [("document", Docx), ("presentation", Pptx), ("spreadsheet", Xlsx)]

  /** The format of the first table entry whose keyword occurs in `url`. */
  ghost function FirstKeyword(table: seq<(string, ExportFormat)>, url: string): (r: Option<ExportFormat>)
    ensures r.None? <==> forall i :: 0 <= i < |table| ==> !Contains(url, table[i].0)
    ensures r.Some? ==> exists i :: (0 <= i < |table| && table[i].1 == r.value && Contains(url, table[i].0)
                                     && forall j :: 0 <= j < i ==> !Contains(url, table[j].0))
  {
    if table == [] then None
    else if Contains(url, table[0].0) then
      assert table[0].1 == table[0].1 && Contains(url, table[0].0);
      Some(table[0].1)
    else
      var r := FirstKeyword(table[1..], url);
      if r.Some? then
        var i :| 0 <= i < |table[1..]| && table[1..][i].1 == r.value && Contains(url, table[1..][i].0)
          && forall j :: 0 <= j < i ==> !Contains(url, table[1..][j].0);
        assert table[i + 1] == table[1..][i];
        assert forall j :: 1 <= j < i + 1 ==> table[j] == table[1..][j - 1];
        r
      else
        assert forall i :: 1 <= i < |table| ==> table[i] == table[1..][i - 1];
        r
  }

  /** The chain of the source and the table give the same format on every URL. */
  lemma ExportFormatIsFirstKeyword(url: string)
    ensures ExportFormatOf(url) == FirstKeyword(ExportTable, url)
  {
    var t1 := [("presentation", Pptx), ("spreadsheet", Xlsx)];
    var t2 := [("spreadsheet", Xlsx)];
    assert ExportTable[1..] == t1 && t1[1..] == t2 && t2[1..] == [];
    assert FirstKeyword(t2, url) == if Contains(url, "spreadsheet") then Some(Xlsx) else None;
    assert FirstKeyword(t1, url) == if Contains(url, "presentation") then Some(Pptx) else FirstKeyword(t2, url);
    assert FirstKeyword(ExportTable, url) == if Contains(url, "document") then Some(Docx) else FirstKeyword(t1, url);
  }

  // ---------------------------------------------------------------------------
  // Google Drive file ids
  // ---------------------------------------------------------------------------

  /** A character at which the file id is cut. */
  predicate IsIdStop(c: char)
  {
    c == '.' || c == '&' || c == '/'
  }

  /** A one-character `sub in s` is membership. */
  lemma ContainsChar(s: string, c: char)
    ensures Contains(s, [c]) <==> c in s
  {
    if c in s {
      var i :| 0 <= i < |s| && s[i] == c;
      assert s[i..i + 1] == [c];
      assert OccursAt(s, [c], i);
    }
    if Contains(s, [c]) {
      var i :| OccursAt(s, [c], i);
      assert s[i] == s[i..i + 1][0];
    }
  }

  /** `s.split(sep)[1]`: the text between the first and the second `sep`; `None` is the IndexError. */
  function SecondPiece(s: string, sep: string): (r: Option<string>)
    requires |sep| > 0
    ensures r.Some? <==> Contains(s, sep)
    ensures r.Some? ==> 0 <= Find(s, sep) && r.value == Before(s[Find(s, sep) + |sep|..], sep)
  {
    var parts := Split(s, sep);
    if |parts| >= 2 then Some(parts[1]) else None
  }

  /** `s.split(c)[0]` for one character `c`: a prefix without `c`, cut where `c` first occurs. */
  lemma BeforeChar(s: string, c: char)
    ensures HasPrefix(s, Before(s, [c]))
    ensures c !in Before(s, [c])
    ensures |Before(s, [c])| < |s| ==> s[|Before(s, [c])|] == c
  {
    var r := Before(s, [c]);
    ContainsChar(r, c);
    ContainsChar(s, c);
    if Contains(s, [c]) {
      assert HasPrefix(s, r + [c]);
      assert s[|r|] == (r + [c])[|r|];
    }
  }

  /**
   * `s.split('.')[0].split('&')[0].split('/')[0]` (singularity.py:139, 234):
   * the longest prefix of `s` holding none of `.`, `&`, `/`.
   */
  function IdToken(s: string): (r: string)
    ensures HasPrefix(s, r)
    ensures forall i :: 0 <= i < |r| ==> !IsIdStop(r[i])
    ensures |r| < |s| ==> IsIdStop(s[|r|])
  {
    IdTokenCut(s);
    Before(Before(Before(s, "."), "&"), "/")
  }

  lemma IdTokenCut(s: string)
    ensures var r := Before(Before(Before(s, "."), "&"), "/");
      && HasPrefix(s, r)
      && (forall i :: 0 <= i < |r| ==> !IsIdStop(r[i]))
      && (|r| < |s| ==> IsIdStop(s[|r|]))
  {
    var a := Before(s, ".");
    var b := Before(a, "&");
    var c := Before(b, "/");
    BeforeChar(s, '.');
    BeforeChar(a, '&');
    BeforeChar(b, '/');
    assert |c| <= |b| <= |a| <= |s|;
    forall i | 0 <= i < |c|
      ensures c[i] == s[i] && !IsIdStop(c[i])
    {
      assert c[i] == b[i] && c[i] in c;
      assert b[i] == a[i] && b[i] in b;
      assert a[i] == s[i] && a[i] in a;
    }
    assert s[..|c|] == c;
    if |c| < |b| {
      assert s[|c|] == a[|c|] == b[|c|] == '/';
    } else if |b| < |a| {
      assert s[|c|] == a[|b|] == '&';
    }
  }

  /** A reference definition of the id: take characters until the first stop character. */
  function TakeUntilStop(s: string): string
  {
    if s == [] || IsIdStop(s[0]) then [] else [s[0]] + TakeUntilStop(s[1..])
  }

  /** Any prefix without stop characters that ends at a stop character or at the end is the token. */
  lemma {:induction false} TokenUnique(s: string, r: string)
    requires HasPrefix(s, r)
    requires forall i :: 0 <= i < |r| ==> !IsIdStop(r[i])
    requires |r| < |s| ==> IsIdStop(s[|r|])
    ensures r == TakeUntilStop(s)
  {
    if r != [] {
      assert s[0] == r[0];
      TokenUnique(s[1..], r[1..]);
    }
  }

  /** The chained splits compute exactly the reference token. */
  lemma IdTokenIsTakeUntilStop(s: string)
    ensures IdToken(s) == TakeUntilStop(s)
  {
    TokenUnique(s, IdToken(s));
  }

  /**
   * The Drive file id of a URL (singularity.py:139-140, 234-235): the piece
   * after `/d/`, falling back to the piece after `/open?id=`, cut at the first
   * `.`, `&` or `/`. `None` when the URL has neither marker: the fallback's
   * IndexError, which nothing catches.
   */
  function DriveFileId(url: string): (r: Option<string>)
    ensures r.None? <==> !Contains(url, "/d/") && !Contains(url, "/open?id=")
    ensures r.Some? ==> forall i :: 0 <= i < |r.value| ==> !IsIdStop(r.value[i])
  {
    match SecondPiece(url, "/d/")
    case Some(p) => Some(IdToken(p))
    case None =>
      match SecondPiece(url, "/open?id=")
      case Some(q) => Some(IdToken(q))
      case None => None
  }

  /** Cutting a piece early at a `/` does not change its token. */
  lemma {:induction false} TokenOfSlashPrefix(s: string, p: string)
    requires HasPrefix(s, p)
    requires |p| < |s| ==> s[|p|] == '/'
    ensures TakeUntilStop(p) == TakeUntilStop(s)
  {
    if p != [] && !IsIdStop(p[0]) {
      assert s[0] == p[0];
      TokenOfSlashPrefix(s[1..], p[1..]);
    }
  }

  /** The token of the piece between two markers is the token of everything after the first marker. */
  lemma TokenAfterMarker(url: string, marker: string)
    requires |marker| > 0 && marker[0] == '/'
    requires Contains(url, marker)
    ensures 0 <= Find(url, marker)
    ensures SecondPiece(url, marker) == Some(Before(url[Find(url, marker) + |marker|..], marker))
    ensures IdToken(SecondPiece(url, marker).value) == TakeUntilStop(url[Find(url, marker) + |marker|..])
  {
    var rest := url[Find(url, marker) + |marker|..];
    var p := Before(rest, marker);
    IdTokenIsTakeUntilStop(p);
    if Contains(rest, marker) {
      assert HasPrefix(rest, p + marker);
      assert rest[|p|] == (p + marker)[|p|];
    }
    TokenOfSlashPrefix(rest, p);
  }

  /**
   * The id is the text after the first `/d/` up to the first `.`, `&` or `/`;
   * without `/d/`, the same after the first `/open?id=`.
   */
  lemma DriveFileIdAfterMarker(url: string)
    ensures Contains(url, "/d/") ==>
      DriveFileId(url) == Some(TakeUntilStop(url[Find(url, "/d/") + 3..]))
    ensures !Contains(url, "/d/") && Contains(url, "/open?id=") ==>
      DriveFileId(url) == Some(TakeUntilStop(url[Find(url, "/open?id=") + 9..]))
  {
    if Contains(url, "/d/") {
      TokenAfterMarker(url, "/d/");
    } else if Contains(url, "/open?id=") {
      TokenAfterMarker(url, "/open?id=");
    }
  }

  /**
   * The id of an exported Google Doc (singularity.py:154, 216):
   * `url.split('/d/')[1].split('/')[0]`, with `None` for the IndexError of a
   * URL without `/d/`.
   */
  function ExportFileId(url: string): (r: Option<string>)
    ensures r.None? <==> !Contains(url, "/d/")
    ensures r.Some? ==> '/' !in r.value
  {
    match SecondPiece(url, "/d/")
    case Some(p) =>
      ContainsChar(Before(p, "/"), '/');
      Some(Before(p, "/"))
    case None => None
  }

  /** The export id is the text after the first `/d/` up to the next `/`. */
  lemma ExportFileIdAfterMarker(url: string)
    requires Contains(url, "/d/")
    ensures 0 <= Find(url, "/d/")
    ensures ExportFileId(url) == Some(Before(url[Find(url, "/d/") + 3..], "/"))
  {
    var rest := url[Find(url, "/d/") + 3..];
    var p := Before(rest, "/d/");
    assert SecondPiece(url, "/d/") == Some(p);
    var q := Before(p, "/");
    assert ExportFileId(url) == Some(q);
    MarkerPieceCut(rest);
    SlashPieceCut(rest, p);
    SlashCutUnique(rest, q);
    BeforeChar(rest, '/');
    SlashCutUnique(rest, Before(rest, "/"));
  }

  /** The text before the first `/d/` ends at the end of `rest` or at a `/`. */
  lemma MarkerPieceCut(rest: string)
    ensures var p := Before(rest, "/d/");
      HasPrefix(rest, p) && (|p| < |rest| ==> rest[|p|] == '/')
  {
    var p := Before(rest, "/d/");
    if Contains(rest, "/d/") {
      assert HasPrefix(rest, p + "/d/");
      assert rest[|p|] == (p + "/d/")[|p|];
    }
  }

  /** Cutting such a prefix at its first `/` gives a prefix of `rest` that ends at a `/` or at the end. */
  lemma SlashPieceCut(rest: string, p: string)
    requires HasPrefix(rest, p) && (|p| < |rest| ==> rest[|p|] == '/')
    ensures var q := Before(p, "/");
      HasPrefix(rest, q) && '/' !in q && (|q| < |rest| ==> rest[|q|] == '/')
  {
    var q := Before(p, "/");
    BeforeChar(p, '/');
    assert rest[..|q|] == p[..|q|];
    if |q| < |p| {
      assert rest[|q|] == p[|q|];
    }
  }

  /** Two prefixes without `/` that end where a `/` (or the text) ends are the same. */
  lemma {:induction false} SlashCutUnique(s: string, r: string)
    requires HasPrefix(s, r) && '/' !in r
    requires |r| < |s| ==> s[|r|] == '/'
    ensures r == SlashCut(s)
  {
    if r != [] {
      assert s[0] == r[0];
      assert r[1..][..] == r[1..] && forall x :: x in r[1..] ==> x in r;
      SlashCutUnique(s[1..], r[1..]);
    }
  }

  function SlashCut(s: string): string
  {
    if s == [] || s[0] == '/' then [] else [s[0]] + SlashCut(s[1..])
  }

  // ---------------------------------------------------------------------------
  // Brightspace-hosted files
  // ---------------------------------------------------------------------------

  /** `url_.split('.')[-1]` (singularity.py:124): the text after the last `.`. */
  function CdnExtension(url: string): (ext: string)
    ensures '.' !in ext
    ensures HasSuffix(url, ext)
    ensures '.' in url ==> HasSuffix(url, "." + ext)
    ensures '.' !in url ==> ext == url
  {
    ContainsChar(url, '.');
    ContainsChar(Last(url, "."), '.');
    Last(url, ".")
  }

  predicate HasSuffix(s: string, t: string)
  {
    |t| <= |s| && s[|s| - |t|..] == t
  }

  /** The video test of singularity.py:126: `title.lower().split('.')[-1] in VIDEO_EXTENSIONS`. */
  predicate IsVideoName(name: string)
  {
    Last(Lower(name), ".") in VideoExtensions
  }

  /** The text after the last `.` of `a + "." + e` is `e`, when `e` holds no `.`. */
  lemma LastAfterDot(a: string, e: string)
    requires '.' !in e
    ensures Last(a + "." + e, ".") == e
  {
    var s := a + "." + e;
    var r := Last(s, ".");
    ContainsChar(r, '.');
    ContainsChar(s, '.');
    assert s[|a|] == '.';
    assert Contains(s, ".");
    assert |r| + 1 <= |s| && s[|s| - |r| - 1..] == "." + r;
    assert s[|s| - |r| - 1] == '.';
    assert |r| == |e|;
    assert r == s[|s| - |e|..] == e;
  }

  /**
   * The video test on the target name `title + "." + ext` looks only at the
   * lower-cased extension (ASCII letters only, see `Lower`).
   */
  lemma VideoNameIsExtension(title: string, ext: string)
    requires '.' !in ext
    ensures IsVideoName(title + "." + ext) <==> Lower(ext) in VideoExtensions
  {
    var lowered := Lower(title + "." + ext);
    assert lowered == Lower(title) + "." + Lower(ext);
    assert '.' !in Lower(ext);
    LastAfterDot(Lower(title), Lower(ext));
  }

  // ---------------------------------------------------------------------------
  // Classifiers
  // ---------------------------------------------------------------------------

  /** What the Brightspace topic handler does with a URL. */
  datatype BsKind = CdnFile | DriveFile | DocsExport | Video | NotHandled

  /**
   * The chain of singularity.py:123-176. `None` is the IndexError of `url_[0]`
   * on an empty URL, which nothing catches. `youtu.be` links are videos whatever
   * `noVideo` says, because `and` binds tighter than `or` on line 165.
   */
  function ClassifyBs(url: string, noVideo: bool): (k: Option<BsKind>)
    ensures k.None? <==> url == []
  {
    if url == [] then None
    else if url[0] == '/' then Some(CdnFile)
    else if In(DriveHost, url) || (In(DocsHost, url) && In(ExportParams, url)) then Some(DriveFile)
    else if In(DocsHost, url) then Some(DocsExport)
    else if In("youtu.be", url) || (In("youtube.com", url) && !noVideo) then Some(Video)
    else Some(NotHandled)
  }

  /** A rule of a classifier: a required prefix, required and forbidden substrings, a result. */
  datatype Rule<K> = Rule(prefix: string, needs: seq<string>, lacks: seq<string>, kind: K)

  ghost predicate Matches<K>(rule: Rule<K>, url: string)
  {
    HasPrefix(url, rule.prefix) && AllOccur(rule.needs, url) && NoneOccur(rule.lacks, url)
  }

  /** Every one of `subs` occurs in `url`. */
  ghost predicate AllOccur(subs: seq<string>, url: string)
  {
    subs == [] || (Contains(url, subs[0]) && AllOccur(subs[1..], url))
  }

  /** None of `subs` occurs in `url`. */
  ghost predicate NoneOccur(subs: seq<string>, url: string)
  {
    subs == [] || (!Contains(url, subs[0]) && NoneOccur(subs[1..], url))
  }

  /** A rule with no prefix that needs one substring matches exactly the URLs containing it. */
  lemma MatchesNeed<K>(sub: string, kind: K, url: string)
    ensures Matches(Rule("", [sub], [], kind), url) <==> Contains(url, sub)
  {
    var rule := Rule("", [sub], [], kind);
    assert rule.needs[1..] == [];
    assert AllOccur(rule.needs, url) <==> Contains(url, sub);
    assert HasPrefix(url, rule.prefix) && NoneOccur(rule.lacks, url);
  }

  /** A rule with no prefix that needs two substrings matches the URLs containing both. */
  lemma MatchesNeedBoth<K>(a: string, b: string, kind: K, url: string)
    ensures Matches(Rule("", [a, b], [], kind), url) <==> Contains(url, a) && Contains(url, b)
  {
    var rule := Rule("", [a, b], [], kind);
    assert rule.needs[1..] == [b] && rule.needs[1..][1..] == [];
    assert AllOccur(rule.needs[1..], url) <==> Contains(url, b);
    assert AllOccur(rule.needs, url) <==> Contains(url, a) && Contains(url, b);
    assert HasPrefix(url, rule.prefix) && NoneOccur(rule.lacks, url);
  }

  /** A rule with no prefix that needs one substring and excludes another. */
  lemma MatchesNeedLack<K>(a: string, b: string, kind: K, url: string)
    ensures Matches(Rule("", [a], [b], kind), url) <==> Contains(url, a) && !Contains(url, b)
  {
    var rule := Rule("", [a], [b], kind);
    assert rule.needs[1..] == [] && rule.lacks[1..] == [];
    assert AllOccur(rule.needs, url) <==> Contains(url, a);
    assert NoneOccur(rule.lacks, url) <==> !Contains(url, b);
    assert HasPrefix(url, rule.prefix);
  }

  /** The result of the first rule that matches, or `default`. */
  ghost function FirstRule<K>(rules: seq<Rule<K>>, url: string, default: K): K
  {
    if rules == [] then default
    else if Matches(rules[0], url) then rules[0].kind
    else FirstRule(rules[1..], url, default)
  }

  /** `FirstRule` is the kind of the lowest-numbered matching rule, or `default` when none matches. */
  lemma {:induction false} FirstRuleIsFirstMatch<K>(rules: seq<Rule<K>>, url: string, default: K)
    ensures (forall i :: 0 <= i < |rules| ==> !Matches(rules[i], url)) ==> FirstRule(rules, url, default) == default
    ensures forall i :: (0 <= i < |rules| && Matches(rules[i], url)
                         && (forall j :: 0 <= j < i ==> !Matches(rules[j], url))) ==> FirstRule(rules, url, default) == rules[i].kind
  {
    if rules != [] {
      var rest := rules[1..];
      FirstRuleIsFirstMatch(rest, url, default);
      forall i | 0 <= i < |rules| && Matches(rules[i], url) && (forall j :: 0 <= j < i ==> !Matches(rules[j], url))
        ensures FirstRule(rules, url, default) == rules[i].kind
      {
        if i > 0 {
          assert !Matches(rules[0], url);
          assert rest[i - 1] == rules[i];
          forall j | 0 <= j < i - 1
            ensures !Matches(rest[j], url)
          {
            assert rest[j] == rules[j + 1];
          }
        }
      }
      if forall i :: 0 <= i < |rules| ==> !Matches(rules[i], url) {
        forall j | 0 <= j < |rest|
          ensures !Matches(rest[j], url)
        {
          assert rest[j] == rules[j + 1];
        }
      }
    }
  }

  /** The Brightspace rules in priority order. */
  function BsRules(noVideo: bool): seq<Rule<BsKind>>
  {
    [ Rule("/", [], [], CdnFile)
    , Rule("", [DriveHost], [], DriveFile)
    , Rule("", [DocsHost, ExportParams], [], DriveFile)
    , Rule("", [DocsHost], [], DocsExport)
    , Rule("", ["youtu.be"], [], Video)
    ] + if noVideo then [] else [Rule("", ["youtube.com"], [], Video)]
  }

  /** The first-match search looks at the head rule, then at the rest. */
  lemma FirstRuleCons<K>(rules: seq<Rule<K>>, url: string, default: K)
    requires rules != []
    ensures FirstRule(rules, url, default)
      == if Matches(rules[0], url) then rules[0].kind else FirstRule(rules[1..], url, default)
  {
  }

  /** The source's chain is the first-match search over the rule table, for every non-empty URL. */
  lemma ClassifyBsFollowsRules(url: string, noVideo: bool)
    requires url != []
    ensures ClassifyBs(url, noVideo) == Some(FirstRule(BsRules(noVideo), url, NotHandled))
  {
    var rules := BsRules(noVideo);
    var tail := if noVideo then [] else [Rule("", ["youtube.com"], [], Video)];
    var r4 := [Rule("", ["youtu.be"], [], Video)] + tail;
    var r3 := [Rule("", [DocsHost], [], DocsExport)] + r4;
    var r2 := [Rule("", [DocsHost, ExportParams], [], DriveFile)] + r3;
    var r1 := [Rule("", [DriveHost], [], DriveFile)] + r2;
    assert rules == [Rule("/", [], [], CdnFile)] + r1;
    FirstRuleCons(rules, url, NotHandled);
    assert rules[1..] == r1;
    FirstRuleCons(r1, url, NotHandled);
    assert r1[1..] == r2;
    FirstRuleCons(r2, url, NotHandled);
    assert r2[1..] == r3;
    FirstRuleCons(r3, url, NotHandled);
    assert r3[1..] == r4;
    FirstRuleCons(r4, url, NotHandled);
    assert r4[1..] == tail;
    assert HasPrefix(url, "/") <==> url[0] == '/';
    MatchesNeed(DriveHost, DriveFile, url);
    MatchesNeedBoth(DocsHost, ExportParams, DriveFile, url);
    MatchesNeed(DocsHost, DocsExport, url);
    MatchesNeed("youtu.be", Video, url);
    if !noVideo {
      FirstRuleCons(tail, url, NotHandled);
      assert tail[1..] == [];
      MatchesNeed("youtube.com", Video, url);
    }
  }

  /**
   * A Google Docs link carrying the export parameters is a Drive file, not an
   * export, even when it names a document.
   */
  lemma ExportParamsMeanDrive(url: string, noVideo: bool)
    requires url != [] && url[0] != '/'
    requires Contains(url, DocsHost) && Contains(url, ExportParams)
    ensures ClassifyBs(url, noVideo) == Some(DriveFile)
  {
  }

  /** With videos switched off, a `youtu.be` link is still a video but a `youtube.com` link is not handled. */
  lemma NoVideoOnlyStopsYoutubeCom(url: string)
    requires url != [] && url[0] != '/'
    requires !Contains(url, DriveHost) && !Contains(url, DocsHost)
    ensures Contains(url, "youtu.be") ==> ClassifyBs(url, true) == Some(Video)
    ensures !Contains(url, "youtu.be") ==> ClassifyBs(url, true) == Some(NotHandled)
    ensures Contains(url, "youtube.com") ==> ClassifyBs(url, false) == Some(Video)
  {
  }

  /** What the Classroom drive-file handler does with a URL. */
  datatype GcKind = GcExport | GcDrive | GcIgnored

  /**
   * The chain of singularity.py:209-230: Docs is checked before Drive, Drive
   * folders are left alone, and nothing is logged when no rule applies.
   */
  function ClassifyGc(url: string): GcKind
  {
    if In(DocsHost, url) then GcExport
    else if (In(DriveHost, url) && !In("folders", url)) || (In(DocsHost, url) && In(ExportParams, url)) then GcDrive
    else GcIgnored
  }

  /** The Classroom rules in priority order. */
  function GcRules(): seq<Rule<GcKind>>
  {
    [ Rule("", [DocsHost], [], GcExport)
    , Rule("", [DriveHost], ["folders"], GcDrive)
    , Rule("", [DocsHost, ExportParams], [], GcDrive)
    ]
  }

  lemma ClassifyGcFollowsRules(url: string)
    ensures ClassifyGc(url) == FirstRule(GcRules(), url, GcIgnored)
  {
    var r2 := [Rule("", [DocsHost, ExportParams], [], GcDrive)];
    var r1 := [Rule("", [DriveHost], ["folders"], GcDrive)] + r2;
    assert GcRules() == [Rule("", [DocsHost], [], GcExport)] + r1;
    FirstRuleCons(GcRules(), url, GcIgnored);
    assert GcRules()[1..] == r1;
    FirstRuleCons(r1, url, GcIgnored);
    assert r1[1..] == r2;
    FirstRuleCons(r2, url, GcIgnored);
    assert r2[1..] == [];
    MatchesNeed(DocsHost, GcExport, url);
    MatchesNeedLack(DriveHost, "folders", GcDrive, url);
    MatchesNeedBoth(DocsHost, ExportParams, GcDrive, url);
  }

  /**
   * Because Docs is checked first, the export-parameter alternative of line 230
   * never decides anything: a Classroom link is fetched as a Drive file exactly
   * when it is a Drive link, not a folder, and not a Docs link.
   */
  lemma GcExportParamsRuleIsDead(url: string)
    ensures ClassifyGc(url) == GcDrive <==>
      Contains(url, DriveHost) && !Contains(url, "folders") && !Contains(url, DocsHost)
  {
  }

  /** The Drive v3 media request for a file id (singularity.py:143, 238). */
  function DriveMediaRequest(id: string): string
  {
    "https://www.googleapis.com/drive/v3/files/" + id + "?alt=media"
  }

  /** The Drive v2 export request for a file id and a MIME type (singularity.py:158, 220). */
  function ExportRequest(id: string, mime: string): string
  {
    "https://www.googleapis.com/drive/v2/files/" + id + "/export?mimeType=" + mime
  }

}
