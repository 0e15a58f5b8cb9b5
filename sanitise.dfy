/**
 * Turning remote titles into local file and directory names
 * (singularity.py:77, 118-119, 181-182, 206, 304-305, 356-358, 376, 396-398).
 *
 * Titles of Brightspace topics, folders and modules are stripped of surrounding
 * whitespace and then lose the nine characters of `BANNED_CHARS`; Classroom
 * titles and topic names lose the banned characters without being stripped, and
 * Classroom material folders first have their line breaks turned into spaces.
 * Because deletion comes after stripping, a sanitised Brightspace title can
 * still end (or start) with whitespace.
 */
module Sanitise {
  import opened Text

  /** `BANNED_CHARS`: characters that cannot appear in file names (singularity.py:77). */
  const BannedChars: seq<char> := ['<', '>', ':', '"', '/', '\\', '|', '?', '*']

  predicate IsBanned(c: char)
  {
    c in BannedChars
  }

  /** `s` with every character of `cs` deleted and every other character kept, in order. */
  function Without(s: string, cs: seq<char>): (r: string)
    ensures |r| <= |s|
  {
    if s == [] then []
    else if s[0] in cs then Without(s[1..], cs)
    else [s[0]] + Without(s[1..], cs)
  }

  /** Exactly the characters of `s` outside `cs` survive deletion. */
  lemma {:induction false} WithoutMembers(s: string, cs: seq<char>)
    ensures forall x :: x in Without(s, cs) <==> x in s && x !in cs
  {
    if s != [] {
      WithoutMembers(s[1..], cs);
      assert s == [s[0]] + s[1..];
    }
  }

  /** The banned characters deleted from `s` (the `for c in BANNED_CHARS` loops, as a value). */
  function DeleteBanned(s: string): (r: string)
    ensures forall i :: 0 <= i < |r| ==> !IsBanned(r[i])
    ensures forall x :: x in r <==> x in s && !IsBanned(x)
  {
    WithoutMembers(s, BannedChars);
    Without(s, BannedChars)
  }

  /** A Brightspace title as a name: stripped, then the banned characters deleted. */
  function Sanitised(title: string): string
  {
    DeleteBanned(Strip(title))
  }

  /** A Classroom material or announcement folder name: line breaks to spaces, then deletion. */
  function FolderName(title: string): (r: string)
    ensures forall i :: 0 <= i < |r| ==> !IsBanned(r[i]) && r[i] != '\n'
  {
    DeleteBanned(ReplaceChar(title, '\n', ' '))
  }

  /** One more `replace(c, '')` extends the set of deleted characters by `c`. */
  lemma {:induction false} RemoveAllExtends(s: string, cs: seq<char>, c: char)
    ensures RemoveAll(Without(s, cs), c) == Without(s, cs + [c])
  {
    if s != [] {
      RemoveAllExtends(s[1..], cs, c);
    }
  }

  /**
   * The source's `for c in BANNED_CHARS: title = title.replace(c, '')`
   * (singularity.py:206, 376, 398 and the second half of 119, 182, 305).
   */
  method RemoveBanned(s: string) returns (t: string)
    ensures t == DeleteBanned(s)
  {
    t := s;
    WithoutClean(s, []);
    assert BannedChars[..0] == [];
    for i := 0 to |BannedChars|
      invariant t == Without(s, BannedChars[..i])
    {
      RemoveAllExtends(s, BannedChars[..i], BannedChars[i]);
      assert BannedChars[..i] + [BannedChars[i]] == BannedChars[..i + 1];
      t := RemoveAll(t, BannedChars[i]);
    }
    assert BannedChars[..|BannedChars|] == BannedChars;
  }

  /** `title.lstrip().rstrip()` followed by the deletion loop (singularity.py:118-119, 181-182, 304-305). */
  method SanitiseTitle(title: string) returns (t: string)
    ensures t == Sanitised(title)
    ensures forall i :: 0 <= i < |t| ==> !IsBanned(t[i])
  {
    t := StripLeft(title);
    t := StripRight(t);
    t := RemoveBanned(t);
  }

  /** `mat.replace('\n', ' ')` followed by the deletion loop (singularity.py:356-358, 396-398). */
  method CleanFolderName(title: string) returns (t: string)
    ensures t == FolderName(title)
    ensures '\n' !in t
  {
    t := ReplaceChar(title, '\n', ' ');
    t := RemoveBanned(t);
  }

  /** Deleting characters distributes over concatenation. */
  lemma {:induction false} WithoutConcat(a: string, b: string, cs: seq<char>)
    ensures Without(a + b, cs) == Without(a, cs) + Without(b, cs)
  {
    if a == [] {
      assert a + b == b;
    } else {
      var ab := a + b;
      assert ab[0] == a[0] && ab[1..] == a[1..] + b;
      WithoutConcat(a[1..], b, cs);
      if a[0] in cs {
        assert Without(ab, cs) == Without(a[1..] + b, cs);
      } else {
        assert Without(ab, cs) == [a[0]] + Without(a[1..] + b, cs);
        assert Without(a, cs) == [a[0]] + Without(a[1..], cs);
      }
    }
  }

  /**
   * Deletion is determined character by character: banned characters vanish,
   * every other character stays, and the result of a concatenation is the
   * concatenation of the results. Together these say that exactly the banned
   * characters are removed and the rest keep their order.
   */
  lemma DeleteBannedPerCharacter(a: string, b: string, c: char)
    ensures DeleteBanned(a + b) == DeleteBanned(a) + DeleteBanned(b)
    ensures DeleteBanned([c]) == if IsBanned(c) then [] else [c]
  {
    WithoutConcat(a, b, BannedChars);
  }

  /** A name is left unchanged exactly when it holds no banned character. */
  lemma {:induction false} DeleteBannedFixedIff(s: string)
    ensures DeleteBanned(s) == s <==> forall i :: 0 <= i < |s| ==> !IsBanned(s[i])
  {
    if forall i :: 0 <= i < |s| ==> !IsBanned(s[i]) {
      WithoutClean(s, BannedChars);
    }
  }

  lemma {:induction false} WithoutClean(s: string, cs: seq<char>)
    requires forall i :: 0 <= i < |s| ==> s[i] !in cs
    ensures Without(s, cs) == s
  {
    if s != [] {
      WithoutClean(s[1..], cs);
    }
  }

  /** Deleting the banned characters twice is deleting them once (singularity.py:206 then 214). */
  lemma DeleteBannedIdempotent(s: string)
    ensures DeleteBanned(DeleteBanned(s)) == DeleteBanned(s)
  {
    DeleteBannedFixedIff(DeleteBanned(s));
  }

  /** A sanitised title is empty exactly when the stripped title holds only banned characters. */
  lemma {:induction false} SanitisedEmptyIff(title: string)
    ensures Sanitised(title) == [] <==> forall i :: 0 <= i < |Strip(title)| ==> IsBanned(Strip(title)[i])
  {
    var s := Strip(title);
    if Sanitised(title) == [] {
      forall i | 0 <= i < |s|
        ensures IsBanned(s[i])
      {
        assert s[i] in s;
      }
    } else {
      assert DeleteBanned(s)[0] in DeleteBanned(s);
    }
  }

  /**
   * Stripping happens before deletion, so a sanitised title can end in a space
   * and sanitising again changes it: `"a ?"` becomes `"a "`, which becomes `"a"`.
   */
  lemma SanitisedNotIdempotent()
    ensures Sanitised("a ?") == "a "
    ensures Sanitised(Sanitised("a ?")) == "a"
  {
    SanitisedQuestionMark();
    SanitisedTrailingSpace();
  }

  lemma SanitisedQuestionMark()
    ensures Sanitised("a ?") == "a "
  {
    var t := "a ?";
    assert !IsSpace(t[0]) && !IsSpace(t[2]);
    assert StripLeft(t) == t;
    assert StripRight(t) == t;
    assert Strip(t) == t;
    assert t[1..] == " ?" && t[1..][1..] == "?" && t[1..][1..][1..] == [];
    assert Without("?", BannedChars) == [];
    assert Without(" ?", BannedChars) == " ";
    assert Without(t, BannedChars) == "a ";
  }

  lemma SanitisedTrailingSpace()
    ensures Sanitised("a ") == "a"
  {
    var u := "a ";
    assert !IsSpace(u[0]) && IsSpace(u[1]) && u[..1] == "a";
    assert StripLeft(u) == u;
    assert StripRight(u) == "a";
    assert Strip(u) == "a";
    assert Without("a", BannedChars) == "a";
  }

  /** A title made only of whitespace sanitises to the empty name. */
  lemma BlankTitleIsEmpty(title: string)
    requires forall i :: 0 <= i < |title| ==> IsSpace(title[i])
    ensures Sanitised(title) == ""
  {
  }

}
