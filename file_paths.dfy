/**
  The string logic of the editor's Save As handler: the file name of a path, the case-insensitive
  extension test, the candidate name a Save As writes under, and the name shown in the filename
  indicator. Paths are strings with '/' as the separator.
 */
module FilePaths {
  import opened Wrappers

  /** File.separatorChar on the platforms the model describes. */
  const Separator: char := '/'
  const TxtExtension: string := ".txt"
  const JavaExtension: string := ".java"

  predicate EndsWith(s: string, suffix: string) {
    |suffix| <= |s| && s[|s| - |suffix|..] == suffix
  }

  /** String.toLowerCase restricted to ASCII letters. */
  function LowerChar(c: char): char {
    if 'A' <= c <= 'Z' then (c as int + 32) as char else c
  }

  function ToLower(s: string): (r: string)
    ensures |r| == |s|
  {
    if s == [] then [] else [LowerChar(s[0])] + ToLower(s[1..])
  }

  /** Lower-casing works character by character. */
  lemma {:induction false} ToLowerAt(s: string)
    ensures forall i :: 0 <= i < |s| ==> ToLower(s)[i] == LowerChar(s[i])
  {
    if s != [] {
      ToLowerAt(s[1..]);
    }
  }

  lemma ToLowerAppend(a: string, b: string)
    ensures ToLower(a + b) == ToLower(a) + ToLower(b)
  {
    ToLowerAt(a + b);
    ToLowerAt(a);
    ToLowerAt(b);
    assert forall i :: 0 <= i < |a + b| ==> ToLower(a + b)[i] == (ToLower(a) + ToLower(b))[i];
  }

  /** File.getName: the last name of the path. */
  function FileName(p: string): string {
    if p == [] then []
    else if p[|p| - 1] == Separator then []
    else FileName(p[..|p| - 1]) + [p[|p| - 1]]
  }

  /**
    The file name is the longest suffix of the path that holds no separator: either the whole path
    or the part after the last separator.
   */
  lemma {:induction false} FileNameIsLastName(p: string)
    ensures EndsWith(p, FileName(p))
    ensures Separator !in FileName(p)
    ensures |FileName(p)| < |p| ==> p[|p| - |FileName(p)| - 1] == Separator
  {
    if p != [] && p[|p| - 1] != Separator {
      var front := p[..|p| - 1];
      FileNameIsLastName(front);
      assert front[|front| - |FileName(front)|..] + [p[|p| - 1]] == p[|p| - |FileName(p)|..];
    }
  }

  /** Appending a separator-free extension extends the file name by that extension. */
  lemma {:induction false} FileNameAppend(p: string, ext: string)
    requires Separator !in ext
    ensures FileName(p + ext) == FileName(p) + ext
  {
    if ext == [] {
      assert p + ext == p;
    } else {
      var front := ext[..|ext| - 1];
      assert (p + ext)[..|p + ext| - 1] == p + front;
      assert ext[|ext| - 1] in ext;
      FileNameAppend(p, front);
      assert front + [ext[|ext| - 1]] == ext;
    }
  }

  /** The file name of a path inside a directory is the name after the directory's separator. */
  lemma FileNameInDirectory(dir: string, name: string)
    requires |dir| > 0 && dir[|dir| - 1] == Separator && Separator !in name
    ensures FileName(dir + name) == name
  {
    FileNameAppend(dir, name);
  }

  /** The test at the head of Save As: the name ends, ignoring case, in ".txt" or ".java". */
  predicate HasEditableExtension(name: string) {
    EndsWith(ToLower(name), TxtExtension) || EndsWith(ToLower(name), JavaExtension)
  }

  /** The extension test looks only at the lower-cased trailing characters of the name. */
  lemma {:induction false} EditableExtensionOfSuffix(stem: string, ext: string)
    requires |ext| == 4 || (|ext| == 5 && ext[1] != '.')
    requires ext[0] == '.'
    ensures HasEditableExtension(stem + ext) <==> ToLower(ext) == TxtExtension || ToLower(ext) == JavaExtension
  {
    ToLowerAppend(stem, ext);
    var l := ToLower(stem + ext);
    assert l[|l| - |ext|..] == ToLower(ext);
    if |ext| == 5 {
      assert l[|l| - 4..] == ToLower(ext)[1..];
      assert ToLower(ext)[1] != '.';
    } else {
      assert ToLower(ext) == JavaExtension ==> false;
      assert ToLower(ext)[0] == '.';
      if |stem| > 0 {
        assert l[|l| - 5..] == [l[|l| - 5]] + ToLower(ext);
        assert l[|l| - 5..][1] == '.';
      }
    }
  }

  /** The extension test ignores case: an upper- or mixed-case ".txt" or ".java" is kept too. */
  lemma ExtensionTestIgnoresCase(stem: string)
    ensures HasEditableExtension(stem + ".TXT")
    ensures HasEditableExtension(stem + ".Java")
    ensures !HasEditableExtension(stem + ".text")
  {
    ToLowerAt(".TXT");
    ToLowerAt(".Java");
    ToLowerAt(".text");
    EditableExtensionOfSuffix(stem, ".TXT");
    assert ToLower(".TXT") == TxtExtension;
    EditableExtensionOfSuffix(stem, ".Java");
    assert ToLower(".Java") == JavaExtension;
    EditableExtensionOfSuffix(stem, ".text");
    assert ToLower(".text")[4] == 't';
  }

  /**
    Where Save As will write: the path whose existence is checked (candidate), the name the
    indicator may show (fileName), and whether the written file must be renamed (rename).
   */
  datatype Target = Target(candidate: string, fileName: string, rename: bool)

  /**
    A chosen path whose file name has an editable extension is kept as it is; any other gets ".txt"
    appended and is renamed after writing. The remembered name is the candidate's file name, and the
    candidate always carries an editable extension.
   */
  function SaveTarget(chosen: string): Target {
    var name := FileName(chosen);
    if HasEditableExtension(name) then Target(chosen, name, false)
    else Target(chosen + TxtExtension, name + TxtExtension, true)
  }

  /** A name without a dot has no extension, so Save As always appends ".txt" to it. */
  lemma DotlessNameIsNotEditable(name: string)
    requires '.' !in name
    ensures !HasEditableExtension(name)
  {
    ToLowerAt(name);
    var l := ToLower(name);
    if |l| >= 4 {
      assert name[|l| - 4] != '.';
      assert l[|l| - 4..][0] != TxtExtension[0];
    }
    if |l| >= 5 {
      assert name[|l| - 5] != '.';
      assert l[|l| - 5..][0] != JavaExtension[0];
    }
  }

  /** Any name ending in ".txt" passes the extension test. */
  lemma TxtNameIsEditable(stem: string)
    ensures HasEditableExtension(stem + TxtExtension)
  {
    ToLowerAppend(stem, TxtExtension);
    ToLowerAt(TxtExtension);
    assert ToLower(TxtExtension) == TxtExtension;
  }

  /** A ".txt" file chosen inside a directory is written under its own name and shown by it. */
  lemma TxtTargetInDirectory(dir: string, stem: string)
    requires |dir| > 0 && dir[|dir| - 1] == Separator && Separator !in stem
    ensures SaveTarget(dir + stem + TxtExtension) == Target(dir + stem + TxtExtension, stem + TxtExtension, false)
  {
    assert dir + stem + TxtExtension == dir + (stem + TxtExtension);
    FileNameInDirectory(dir, stem + TxtExtension);
    TxtNameIsEditable(stem);
  }

  lemma SaveTargetMeaning(chosen: string)
    ensures var t := SaveTarget(chosen);
      && (t.rename <==> !HasEditableExtension(FileName(chosen)))
      && t.candidate == (if t.rename then chosen + TxtExtension else chosen)
      && t.fileName == FileName(t.candidate)
      && HasEditableExtension(t.fileName)
  {
    var name := FileName(chosen);
    if !HasEditableExtension(name) {
      FileNameAppend(chosen, TxtExtension);
      TxtNameIsEditable(name);
    }
  }

  /** Normalising twice is normalising once: the candidate is kept and needs no rename. */
  lemma SaveTargetIdempotent(chosen: string)
    ensures SaveTarget(SaveTarget(chosen).candidate) == Target(SaveTarget(chosen).candidate, SaveTarget(chosen).fileName, false)
  {
    SaveTargetMeaning(chosen);
  }

  /**
    pathDifference: drops the first (shorter length + 1) characters of the longer string. The Java
    code throws when both lengths are equal, so this precondition is the one its callers must meet.
   */
  function PathDifference(working: string, path: string): (r: string)
    requires |working| != |path|
    ensures |working| > |path| ==> EndsWith(working, r) && |r| == |working| - |path| - 1
    ensures |working| < |path| ==> EndsWith(path, r) && |r| == |path| - |working| - 1
  {
    if |working| > |path| then working[|path| + 1..] else path[|working| + 1..]
  }

  /** For a path inside the working directory, pathDifference is the path relative to it. */
  lemma PathDifferenceUnderWorking(working: string, rel: string)
    ensures PathDifference(working, working + [Separator] + rel) == rel
  {
    var p := working + [Separator] + rel;
    assert p[|working| + 1..] == rel;
  }

  /**
    The filename indicator after a Save As: the file name when the final path is the working
    directory followed by that name, otherwise pathDifference of the two. None stands for the
    exception pathDifference throws when the lengths are equal, which the handler does not catch.
   */
  function DisplayName(working: string, finalPath: string, fileName: string): Option<string> {
    if working + [Separator] + fileName == finalPath then Some(fileName)
    else if |working| == |finalPath| then None
    else Some(PathDifference(working, finalPath))
  }

  /** A file anywhere under the working directory is shown by its path relative to that directory. */
  lemma DisplayNameUnderWorking(working: string, rel: string, fileName: string)
    ensures DisplayName(working, working + [Separator] + rel, fileName) == Some(rel)
  {
    var p := working + [Separator] + rel;
    if working + [Separator] + fileName == p {
      assert fileName == (working + [Separator] + fileName)[|working| + 1..];
      assert rel == p[|working| + 1..];
    } else {
      PathDifferenceUnderWorking(working, rel);
    }
  }

  /** The name goes unshown only in the equal-length case, and then the file is not under the directory. */
  lemma DisplayNameFailsOnlyOnEqualLength(working: string, finalPath: string, fileName: string)
    ensures DisplayName(working, finalPath, fileName).None? <==> |working| == |finalPath|
    ensures DisplayName(working, finalPath, fileName).None? ==>
      !exists rel :: working + [Separator] + rel == finalPath
  {
  }
}
