/** The extension's utility object: finding the project root that holds a
    file, and changing the case of a word's first letter. The host inputs
    (open document, workspace folders, `rootPath`, the directory listing)
    are parameters; `showError` becomes the notices a call returns. */
module Util {
  import opened Host

  const NoEditorMessage: string := "当前激活的编辑器不是文件或者没有文件被打开！"
  const NoProjectRootMessage: string := "获取工程根路径异常！"

  // ---------------------------------------------------------------------
  // String search and the project-root scan
  // ---------------------------------------------------------------------

  /** `t` occurs in `s` starting at position `j`. */
  predicate OccursAt(s: string, t: string, j: int)
  {
    0 <= j && j + |t| <= |s| && s[j..j + |t|] == t
  }

  /** `s.indexOf(t, i)`: the first position at or after `i` where `t`
      occurs in `s`, or -1. */
  function IndexOfFrom(s: string, t: string, i: nat): (r: int)
    requires i <= |s|
    ensures r == -1 || (i <= r && OccursAt(s, t, r))
    ensures r != -1 ==> forall j :: i <= j < r ==> !OccursAt(s, t, j)
    ensures r == -1 ==> forall j :: i <= j ==> !OccursAt(s, t, j)
    decreases |s| - i
  {
    if |s| < i + |t| then -1
    else if s[i..i + |t|] == t then i
    else
      assert |t| > 0;
      IndexOfFrom(s, t, i + 1)
  }

  /** `s.indexOf(t)`: the first position where `t` occurs in `s`, or -1. */
  function IndexOf(s: string, t: string): (r: int)
    ensures r == -1 <==> forall j :: !OccursAt(s, t, j)
    ensures r != -1 ==> OccursAt(s, t, r) && forall j :: 0 <= j < r ==> !OccursAt(s, t, j)
  {
    IndexOfFrom(s, t, 0)
  }

  /** The scan's test `currentFile.indexOf(folder) === 0` is exactly the raw
      sequence-prefix relation: no path-component boundary is checked. */
  lemma IndexOfZeroIsPrefix(s: string, t: string)
    ensures IndexOf(s, t) == 0 <==> t <= s
  {
    if t <= s {
      assert s[0..|t|] == t;
    }
  }

  /** `/^\./.test(name)`: the entry is hidden. */
  predicate IsHidden(name: string)
    ensures IsHidden(name) <==> "." <= name
  {
    |name| > 0 && name[0] == '.'
  }

  /** `path.resolve(root, name)` for a plain entry name. */
  function Resolve(root: string, name: string): (r: string)
    ensures root + "/" <= r && r[|root| + 1..] == name
  {
    root + "/" + name
  }

  /** `files.filter(name => !/^\./.test(name)).map(name => path.resolve(root, name))`:
      the entries of a directory listing that do not start with a dot, joined
      to the root, in listing order. Plain files stay in, as they do in the
      listing. */
  function VisibleEntries(root: string, listing: seq<string>): (r: seq<string>)
    ensures |r| <= |listing|
    ensures forall c :: c in r ==> root + "/" <= c
  {
    if listing == [] then []
    else
      (if IsHidden(listing[0]) then [] else [Resolve(root, listing[0])])
      + VisibleEntries(root, listing[1..])
  }

  /** A path is a candidate of the expansion exactly when it is the root
      joined to some entry of the listing that is not hidden. */
  lemma {:induction false} VisibleEntriesMembers(root: string, listing: seq<string>, p: string)
    ensures p in VisibleEntries(root, listing)
      <==> exists n :: n in listing && !IsHidden(n) && p == Resolve(root, n)
  {
    if listing != [] {
      VisibleEntriesMembers(root, listing[1..], p);
      if p in VisibleEntries(root, listing[1..]) {
        var n :| n in listing[1..] && !IsHidden(n) && p == Resolve(root, n);
        assert n in listing;
      }
      if exists n :: n in listing && !IsHidden(n) && p == Resolve(root, n) {
        var n :| n in listing && !IsHidden(n) && p == Resolve(root, n);
        if n != listing[0] {
          assert n in listing[1..];
        }
      }
    }
  }

  /** The expansion keeps listing order: it distributes over concatenation. */
  lemma {:induction false} VisibleEntriesAppend(root: string, a: seq<string>, b: seq<string>)
    ensures VisibleEntries(root, a + b) == VisibleEntries(root, a) + VisibleEntries(root, b)
  {
    if a == [] {
      assert a + b == b;
    } else {
      assert (a + b)[1..] == a[1..] + b;
      VisibleEntriesAppend(root, a[1..], b);
    }
  }

  /** The candidate roots: the workspace folders (none configured reads as
      an empty list), except that a single folder equal to `rootPath` is
      replaced by its visible directory entries. */
  function Candidates(workspaceFolders: Option<seq<string>>, rootPath: Option<string>, listing: seq<string>): (r: seq<string>)
    ensures workspaceFolders.None? ==> r == []
    ensures forall c :: c in r ==>
      (workspaceFolders.Some? && c in workspaceFolders.value)
      || (workspaceFolders.Some? && |workspaceFolders.value| == 1 && workspaceFolders.value[0] + "/" <= c)
  {
    var folders := if workspaceFolders.Some? then workspaceFolders.value else [];
    if |folders| == 1 && rootPath == Some(folders[0]) then VisibleEntries(folders[0], listing)
    else folders
  }

  /** Single-root expansion happens exactly when there is one folder and it
      equals `rootPath`; otherwise the folders are used unchanged. */
  lemma CandidatesExpansion(workspaceFolders: Option<seq<string>>, rootPath: Option<string>, listing: seq<string>, p: string)
    ensures var folders := if workspaceFolders.Some? then workspaceFolders.value else [];
      && (|folders| == 1 && rootPath == Some(folders[0]) ==>
           ((p in Candidates(workspaceFolders, rootPath, listing))
             <==> (exists n :: n in listing && !IsHidden(n) && p == Resolve(folders[0], n))))
      && (!(|folders| == 1 && rootPath == Some(folders[0])) ==>
           Candidates(workspaceFolders, rootPath, listing) == folders)
  {
    var folders := if workspaceFolders.Some? then workspaceFolders.value else [];
    if |folders| == 1 && rootPath == Some(folders[0]) {
      VisibleEntriesMembers(folders[0], listing, p);
    }
  }

  /** The project root the scan settles on: the last candidate that the
      file path starts with, since each later match overwrites the earlier
      one. */
  function LastMatch(candidates: seq<string>, currentFile: string): (r: Option<string>)
    ensures r.Some? ==> r.value in candidates && r.value <= currentFile
    decreases |candidates|
  {
    if candidates == [] then None
    else if IndexOf(currentFile, candidates[|candidates| - 1]) == 0 then Some(candidates[|candidates| - 1])
    else LastMatch(candidates[..|candidates| - 1], currentFile)
  }

  /** The scan finds nothing exactly when no candidate is a prefix of the
      file path. */
  lemma {:induction false} LastMatchNone(candidates: seq<string>, currentFile: string)
    ensures LastMatch(candidates, currentFile).None? <==> forall c :: c in candidates ==> !(c <= currentFile)
    decreases |candidates|
  {
    if candidates != [] {
      var n := |candidates| - 1;
      var earlier := candidates[..n];
      IndexOfZeroIsPrefix(currentFile, candidates[n]);
      assert candidates[n] in candidates;
      assert forall c :: c in candidates <==> c == candidates[n] || c in earlier;
      LastMatchNone(earlier, currentFile);
    }
  }

  /** What the scan finds is a candidate that is a prefix of the file path,
      and no candidate after it is one. */
  lemma {:induction false} LastMatchIsLastPrefix(candidates: seq<string>, currentFile: string)
    requires LastMatch(candidates, currentFile).Some?
    ensures var p := LastMatch(candidates, currentFile).value;
      exists i :: 0 <= i < |candidates| && candidates[i] == p && p <= currentFile
        && forall j :: i < j < |candidates| ==> !(candidates[j] <= currentFile)
    decreases |candidates|
  {
    var n := |candidates| - 1;
    var p := LastMatch(candidates, currentFile).value;
    IndexOfZeroIsPrefix(currentFile, candidates[n]);
    if IndexOf(currentFile, candidates[n]) == 0 {
      assert candidates[n] == p && p <= currentFile;
    } else {
      var earlier := candidates[..n];
      LastMatchIsLastPrefix(earlier, currentFile);
      var i :| 0 <= i < |earlier| && earlier[i] == p && p <= currentFile
        && forall j :: i < j < |earlier| ==> !(earlier[j] <= currentFile);
      assert candidates[i] == p;
      assert forall j :: i < j < |candidates| ==> !(candidates[j] <= currentFile) by {
        forall j | i < j < |candidates| ensures !(candidates[j] <= currentFile) {
          if j < n {
            assert candidates[j] == earlier[j];
          }
        }
      }
    }
  }

  /** The `forEach` over the candidates: each one the file path starts with
      replaces the result so far. */
  method ScanFolders(candidates: seq<string>, currentFile: string) returns (projectPath: Option<string>)
    ensures projectPath == LastMatch(candidates, currentFile)
  {
    projectPath := None;
    for i := 0 to |candidates|
      invariant projectPath == LastMatch(candidates[..i], currentFile)
    {
      assert candidates[..i + 1][..i] == candidates[..i];
      if IndexOf(currentFile, candidates[i]) == 0 {
        projectPath := Some(candidates[i]);
      }
    }
    assert candidates[..|candidates|] == candidates;
  }

  /** `getProjectPath`: the root of the project holding the given document
      (or the active editor's), or "" with one error notice when there is no
      document or no candidate root, or only the empty path, matches. */
  method GetProjectPath(
    document: Option<string>, activeEditor: Option<string>,
    workspaceFolders: Option<seq<string>>, rootPath: Option<string>, listing: seq<string>)
    returns (projectPath: string, shown: seq<Notice>)
    ensures document.None? && activeEditor.None? ==>
      projectPath == "" && shown == [ErrorNotice(Str(NoEditorMessage))]
    ensures document.Some? || activeEditor.Some? ==>
      var currentFile := if document.Some? then document.value else activeEditor.value;
      var found := LastMatch(Candidates(workspaceFolders, rootPath, listing), currentFile);
      if found.Some? && found.value != "" then projectPath == found.value && shown == []
      else projectPath == "" && shown == [ErrorNotice(Str(NoProjectRootMessage))]
    ensures projectPath != "" ==>
      && (document.Some? || activeEditor.Some?)
      && var currentFile := if document.Some? then document.value else activeEditor.value;
         && projectPath in Candidates(workspaceFolders, rootPath, listing)
         && projectPath <= currentFile
    ensures projectPath == "" <==> |shown| == 1
    ensures |shown| <= 1
  {
    var doc := document;
    if doc.None? {
      doc := activeEditor;
    }
    if doc.None? {
      return "", [ErrorNotice(Str(NoEditorMessage))];
    }
    var currentFile := doc.value;
    var folders := if workspaceFolders.Some? then workspaceFolders.value else [];
    if |folders| == 1 && rootPath == Some(folders[0]) {
      folders := VisibleEntries(folders[0], listing);
    }
    var found := ScanFolders(folders, currentFile);
    LastMatchNone(folders, currentFile);
    if found.Some? {
      LastMatchIsLastPrefix(folders, currentFile);
    }
    if found.None? || found.value == "" {
      return "", [ErrorNotice(Str(NoProjectRootMessage))];
    }
    return found.value, [];
  }

  /** The prefix test is on raw strings: folder `/w/app` is the root of a
      file under `/w/app2`. */
  lemma RawPrefixMatchesSibling()
    ensures LastMatch(["/w/app"], "/w/app2/x.ts") == Some("/w/app")
  {
    assert "/w/app" <= "/w/app2/x.ts";
  }

  /** With a single ambiguous root holding a hidden `.git` and a visible
      `proj`, a file under `proj` resolves to that child. */
  lemma SingleRootResolvesVisibleChild()
    ensures LastMatch(Candidates(Some(["/r"]), Some("/r"), [".git", "proj"]), "/r/proj/src/a.ts")
      == Some("/r/proj")
  {
    var listing := [".git", "proj"];
    assert IsHidden(listing[0]) && !IsHidden(listing[1]);
    assert listing[1..][1..] == [];
    assert VisibleEntries("/r", listing[1..]) == [Resolve("/r", "proj")];
    assert VisibleEntries("/r", listing) == VisibleEntries("/r", listing[1..]);
    assert Resolve("/r", "proj") == "/r/proj";
    assert Candidates(Some(["/r"]), Some("/r"), listing) == ["/r/proj"];
    assert "/r/proj" <= "/r/proj/src/a.ts";
  }

  // ---------------------------------------------------------------------
  // First-letter case helpers
  // ---------------------------------------------------------------------

  predicate IsAsciiLower(c: char) { 'a' <= c <= 'z' }

  predicate IsAsciiUpper(c: char) { 'A' <= c <= 'Z' }

  /** `\w` without the `u` flag: an ASCII letter, digit or underscore. */
  predicate IsWordChar(c: char)
    ensures IsWordChar(c) ==> c as int < 128
    ensures IsAsciiLower(c) || IsAsciiUpper(c) ==> IsWordChar(c)
  {
    ('A' <= c <= 'Z') || ('a' <= c <= 'z') || ('0' <= c <= '9') || c == '_'
  }

  /** The ASCII characters with code points `lo` to `hi`, in order. */
  function CharRange(lo: nat, hi: nat): (r: string)
    requires hi < 128
    ensures |r| == if lo <= hi then hi - lo + 1 else 0
    decreases hi + 1 - lo
  {
    if lo > hi then [] else [lo as char] + CharRange(lo + 1, hi)
  }

  lemma {:induction false} CharRangeMembers(lo: nat, hi: nat, c: char)
    requires hi < 128
    ensures c in CharRange(lo, hi) <==> lo <= c as int <= hi
    decreases hi + 1 - lo
  {
    if lo <= hi {
      CharRangeMembers(lo + 1, hi, c);
      assert CharRange(lo, hi) == [lo as char] + CharRange(lo + 1, hi);
    }
  }

  /** The class `[A-Za-z0-9_]` written out as its members. */
  const WordChars: string :=
    CharRange('A' as int, 'Z' as int) + CharRange('a' as int, 'z' as int)
    + CharRange('0' as int, '9' as int) + "_"

  /** `\w` matches exactly the members of `[A-Za-z0-9_]`. */
  lemma WordCharClass(c: char)
    ensures IsWordChar(c) <==> c in WordChars
  {
    CharRangeMembers('A' as int, 'Z' as int, c);
    CharRangeMembers('a' as int, 'z' as int, c);
    CharRangeMembers('0' as int, '9' as int, c);
  }

  /** `toUpperCase` on the characters `\w` matches. */
  function AsciiToUpper(c: char): (r: char)
    ensures IsAsciiLower(c) ==> IsAsciiUpper(r) && r as int == c as int - 32
    ensures !IsAsciiLower(c) ==> r == c
  {
    if IsAsciiLower(c) then (c as int - 32) as char else c
  }

  /** `toLowerCase` on the characters `\w` matches. */
  function AsciiToLower(c: char): (r: char)
    ensures IsAsciiUpper(c) ==> IsAsciiLower(r) && r as int == c as int + 32
    ensures !IsAsciiUpper(c) ==> r == c
  {
    if IsAsciiUpper(c) then (c as int + 32) as char else c
  }

  /** `s.replace(/^\w/, m => convert(m))`. */
  function ReplaceLeadingWordChar(s: string, convert: char -> char): (r: string)
    ensures |r| == |s|
    ensures forall i :: 1 <= i < |r| ==> r[i] == s[i]
    ensures |s| > 0 ==> r[0] == if IsWordChar(s[0]) then convert(s[0]) else s[0]
  {
    if |s| > 0 && IsWordChar(s[0]) then [convert(s[0])] + s[1..] else s
  }

  /** `word || ''`, with `None` standing for null or undefined. */
  function OrEmpty(word: Option<string>): (r: string)
    ensures r != "" ==> word == Some(r)
    ensures word.Some? ==> r == word.value
  {
    if word.Some? then word.value else ""
  }

  /** `upperFirstLetter`: only an ASCII lowercase first letter changes. */
  function UpperFirstLetter(word: Option<string>): (r: string)
    ensures word.None? ==> r == ""
    ensures |r| == |OrEmpty(word)|
    ensures forall i :: 1 <= i < |r| ==> r[i] == OrEmpty(word)[i]
    ensures |r| > 0 && IsAsciiLower(OrEmpty(word)[0]) ==>
      IsAsciiUpper(r[0]) && r[0] as int == OrEmpty(word)[0] as int - 32
    ensures |r| > 0 && !IsAsciiLower(OrEmpty(word)[0]) ==> r[0] == OrEmpty(word)[0]
  {
    ReplaceLeadingWordChar(OrEmpty(word), AsciiToUpper)
  }

  /** `lowerFirstLetter`: only an ASCII uppercase first letter changes. */
  function LowerFirstLetter(word: Option<string>): (r: string)
    ensures word.None? ==> r == ""
    ensures |r| == |OrEmpty(word)|
    ensures forall i :: 1 <= i < |r| ==> r[i] == OrEmpty(word)[i]
    ensures |r| > 0 && IsAsciiUpper(OrEmpty(word)[0]) ==>
      IsAsciiLower(r[0]) && r[0] as int == OrEmpty(word)[0] as int + 32
    ensures |r| > 0 && !IsAsciiUpper(OrEmpty(word)[0]) ==> r[0] == OrEmpty(word)[0]
  {
    ReplaceLeadingWordChar(OrEmpty(word), AsciiToLower)
  }

  lemma UpperFirstLetterIdempotent(word: Option<string>)
    ensures UpperFirstLetter(Some(UpperFirstLetter(word))) == UpperFirstLetter(word)
  {
  }

  lemma LowerFirstLetterIdempotent(word: Option<string>)
    ensures LowerFirstLetter(Some(LowerFirstLetter(word))) == LowerFirstLetter(word)
  {
  }

  /** Lowering undoes raising for a word that starts with a lowercase letter. */
  lemma LowerUndoesUpper(w: string)
    requires |w| > 0 && IsAsciiLower(w[0])
    ensures LowerFirstLetter(Some(UpperFirstLetter(Some(w)))) == w
  {
  }

  /** Raising undoes lowering for a word that starts with an uppercase letter. */
  lemma UpperUndoesLower(w: string)
    requires |w| > 0 && IsAsciiUpper(w[0])
    ensures UpperFirstLetter(Some(LowerFirstLetter(Some(w)))) == w
  {
  }
}
