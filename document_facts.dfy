/** The properties each handler promises, and those that relate one handler to the next. */
module DocumentFacts {
  import opened Wrappers
  import opened FilePaths
  import opened FileSystem
  import opened Document

  /** Menu enablement follows the lifecycle: in every valid state Save As is offered iff the text is editable. */
  lemma MenuTracksEditability(s: EditorState)
    requires Inv(s)
    ensures Enablement(s.fileLoaded, s.newFile).saveAs <==> s.editable
    ensures Enablement(s.fileLoaded, s.newFile).save ==> s.path.Some? && !s.newFile
    ensures !s.fileLoaded && !s.newFile ==> Enablement(s.fileLoaded, s.newFile) == Menu(false, false)
  {
  }

  /** Discard guard: with unsaved edits, NO or CANCEL leave Open and New without any effect. */
  lemma DiscardGuard(s: EditorState, answer: Answer, chosen: Option<string>, files: Files, readOk: bool)
    requires s.modified && (answer == No || answer == Cancel)
    ensures OpenStep(s, answer, chosen, files, readOk) == s
    ensures NewStep(s, answer) == s
  {
  }

  /** New, once past the guard, gives an empty, editable, unmodified new document; the path stays. */
  lemma NewOutcome(s: EditorState, answer: Answer)
    requires !s.modified || Proceeds(answer)
    ensures var r := NewStep(s, answer);
      && r.buffer == "" && r.editable
      && r.fileNameText == NewFileLabel && r.modifiedText == ""
      && r.newFile && !r.fileLoaded && !r.modified
      && r.path == s.path
  {
  }

  /**
    Open, once past the guard: a cancelled chooser changes nothing; a failed read changes only the
    path; a successful read shows the file, named by its file name, as loaded and unmodified.
   */
  lemma OpenOutcome(s: EditorState, answer: Answer, chosen: Option<string>, files: Files, readOk: bool)
    requires !s.modified || Proceeds(answer)
    ensures chosen.None? ==> OpenStep(s, answer, chosen, files, readOk) == s
    ensures chosen.Some? && !(readOk && chosen.value in files) ==>
      OpenStep(s, answer, chosen, files, readOk) == s.(path := chosen)
    ensures chosen.Some? && readOk && chosen.value in files ==>
      var r := OpenStep(s, answer, chosen, files, readOk);
      && r.buffer == files[chosen.value] && r.editable
      && r.fileNameText == FileName(chosen.value) && r.modifiedText == ""
      && r.fileLoaded && !r.newFile && !r.modified
      && r.path == chosen
  {
  }

  /**
    Save As declined: when the candidate exists and the overwrite answer is NO or CANCEL, no file
    changes and the only change to the editor is the path adopted from the chooser.
   */
  lemma SaveAsDeclined(w: World, chosen: string, answer: Answer, working: string, writeOk: bool, renameOk: bool)
    requires Enablement(w.editor.fileLoaded, w.editor.newFile).saveAs
    requires SaveTarget(chosen).candidate in w.files && !Proceeds(answer)
    ensures SaveAsStep(w, Some(chosen), answer, working, writeOk, renameOk) ==
      World(w.editor.(path := Some(chosen)), w.files)
  {
  }

  /** Save As past the overwrite prompt: a failed write changes only the path. */
  lemma SaveAsWriteFails(w: World, chosen: string, answer: Answer, working: string, renameOk: bool)
    requires Enablement(w.editor.fileLoaded, w.editor.newFile).saveAs
    requires SaveTarget(chosen).candidate !in w.files || Proceeds(answer)
    ensures SaveAsStep(w, Some(chosen), answer, working, false, renameOk) == World(w.editor.(path := Some(chosen)), w.files)
  {
  }

  /**
    Save As past the overwrite prompt, with a successful write: the buffer is in the chosen file,
    renamed to chosen + ".txt" when the extension was added and the rename succeeds; the path
    follows the file; the document is loaded and unmodified; every other file is untouched.
   */
  lemma SaveAsOutcome(w: World, chosen: string, answer: Answer, working: string, renameOk: bool)
    requires Enablement(w.editor.fileLoaded, w.editor.newFile).saveAs
    requires SaveTarget(chosen).candidate !in w.files || Proceeds(answer)
    ensures var t := SaveTarget(chosen);
      var r := SaveAsStep(w, Some(chosen), answer, working, true, renameOk);
      var finalPath := if t.rename && renameOk then t.candidate else chosen;
      && r.editor.path == Some(finalPath)
      && Read(r.files, finalPath, true) == Some(w.editor.buffer)
      && (t.rename && renameOk ==> chosen !in r.files)
      && (forall q :: q in w.files && q != chosen && q != t.candidate ==> q in r.files && r.files[q] == w.files[q])
      && var shown := DisplayName(working, finalPath, t.fileName);
      r.editor.fileNameText == (if shown.Some? then shown.value else w.editor.fileNameText)
      && r.editor.fileLoaded && !r.editor.newFile && !r.editor.modified && r.editor.modifiedText == ""
      && r.editor.buffer == w.editor.buffer
    ensures var t := SaveTarget(chosen);
      var r := SaveAsStep(w, Some(chosen), answer, working, true, renameOk);
      && (!(t.rename && renameOk) ==> r.files == w.files[chosen := w.editor.buffer])
      && r.files.Keys == if t.rename && renameOk then w.files.Keys - {chosen} + {t.candidate} else w.files.Keys + {chosen}
  {
    var adopted := w.editor.(path := Some(chosen));
    var written := w.files[chosen := w.editor.buffer];
    assert SaveAsStep(w, Some(chosen), answer, working, true, renameOk) ==
      SaveAsCommit(adopted, written, chosen, SaveTarget(chosen), working, renameOk);
    assert written[chosen] == w.editor.buffer;
    assert forall q :: q in w.files && q != chosen ==> q in written && written[q] == w.files[q];
  }

  /** A chosen name without an editable extension ends up, when the rename succeeds, as name + ".txt". */
  lemma SaveAsAddsTxt(w: World, chosen: string, answer: Answer, working: string)
    requires Enablement(w.editor.fileLoaded, w.editor.newFile).saveAs
    requires !HasEditableExtension(FileName(chosen))
    requires chosen + TxtExtension !in w.files || Proceeds(answer)
    ensures var r := SaveAsStep(w, Some(chosen), answer, working, true, true);
      && r.editor.path == Some(chosen + TxtExtension)
      && Read(r.files, chosen + TxtExtension, true) == Some(w.editor.buffer)
      && chosen !in r.files
  {
    SaveAsOutcome(w, chosen, answer, working, true);
  }

  /** Save: success writes the buffer to the path and clears only the modified flag and indicator. */
  lemma SaveOutcome(w: World, writeOk: bool)
    requires w.editor.path.Some?
    ensures !writeOk ==> SaveStep(w, writeOk) == w
    ensures writeOk ==>
      SaveStep(w, writeOk) == World(w.editor.(modified := false, modifiedText := ""), w.files[w.editor.path.value := w.editor.buffer])
  {
  }

  /**
    Key-release tracking: a loaded document is modified iff its file differs from the buffer, and a
    failed read leaves it as it was; a new one iff the buffer is not empty; otherwise nothing
    changes. Only the flag and its indicator ever change, and the indicator shows the marker iff
    the flag is set.
   */
  lemma KeyReleaseOutcome(s: EditorState, files: Files, readOk: bool)
    requires Inv(s)
    ensures var r := KeyReleaseStep(s, files, readOk);
      && r == s.(modified := r.modified, modifiedText := r.modifiedText)
      && (r.modifiedText == ModifiedMarker <==> r.modified)
      && (r.modifiedText == "" <==> !r.modified)
    ensures s.fileLoaded && readOk && s.path.value in files ==>
      (KeyReleaseStep(s, files, readOk).modified <==> files[s.path.value] != s.buffer)
    ensures s.fileLoaded && !(readOk && s.path.value in files) ==> KeyReleaseStep(s, files, readOk) == s
    ensures !s.fileLoaded && s.newFile ==> (KeyReleaseStep(s, files, readOk).modified <==> s.buffer != "")
    ensures !s.fileLoaded && !s.newFile ==> KeyReleaseStep(s, files, readOk) == s
  {
  }

  /** Right after a successful Save, the next key release finds the document unmodified. */
  lemma SavedIsUnmodified(w: World)
    requires Inv(w.editor) && w.editor.fileLoaded
    ensures var r := SaveStep(w, true);
      !KeyReleaseStep(r.editor, r.files, true).modified
  {
    var r := SaveStep(w, true);
    SaveOutcome(w, true);
    assert Read(r.files, r.editor.path.value, true) == Some(w.editor.buffer);
  }

  /** Right after a successful Save As, the next key release finds the document unmodified. */
  lemma SavedAsIsUnmodified(w: World, chosen: string, answer: Answer, working: string, renameOk: bool)
    requires Inv(w.editor) && Enablement(w.editor.fileLoaded, w.editor.newFile).saveAs
    requires SaveTarget(chosen).candidate !in w.files || Proceeds(answer)
    ensures var r := SaveAsStep(w, Some(chosen), answer, working, true, renameOk);
      !KeyReleaseStep(r.editor, r.files, true).modified
  {
    SaveAsOutcome(w, chosen, answer, working, renameOk);
  }

  /** Right after a successful Open, a key release on the unchanged file finds the document unmodified. */
  lemma OpenedIsUnmodified(s: EditorState, answer: Answer, chosen: string, files: Files)
    requires Inv(s) && (!s.modified || Proceeds(answer)) && chosen in files
    ensures !KeyReleaseStep(OpenStep(s, answer, Some(chosen), files, true), files, true).modified
  {
  }

  /** Typing the file's content back into a loaded document makes it unmodified again. */
  lemma RevertedEditIsUnmodified(s: EditorState, files: Files)
    requires Inv(s) && s.fileLoaded && s.path.value in files
    ensures var r := KeyReleaseStep(EditStep(s, files[s.path.value]), files, true);
      !r.modified && r.modifiedText == ""
  {
  }

  /** A new document: typing "abc" marks it modified, clearing it again unmarks it. */
  lemma NewDocumentScenario(s: EditorState, files: Files)
    requires Inv(s)
    ensures var n := NewStep(s, Yes);
      var typed := KeyReleaseStep(EditStep(n, "abc"), files, true);
      var cleared := KeyReleaseStep(EditStep(typed, ""), files, true);
      && n.editable && n.modifiedText == "" && n.newFile
      && typed.modified && typed.modifiedText == ModifiedMarker
      && !cleared.modified && cleared.modifiedText == ""
  {
  }

  /**
    Save As of "/work/foo" from "/work" in a new document: the file ends up as "/work/foo.txt",
    which becomes the path and is shown as "foo.txt".
   */
  lemma ScenarioSaveAsWithoutExtension(s: EditorState, buffer: string)
    requires s.newFile && !s.fileLoaded && s.buffer == buffer
    ensures var r := SaveAsStep(World(s, map[]), Some("/work/foo"), No, "/work", true, true);
      && r.files == map["/work/foo.txt" := buffer]
      && r.editor.path == Some("/work/foo.txt")
      && r.editor.fileNameText == "foo.txt"
  {
    FooSaveAsCommits(s);
    var written := map["/work/foo" := buffer];
    assert (written - {"/work/foo"})["/work/foo.txt" := buffer] == map["/work/foo.txt" := buffer];
    assert DisplayName("/work", "/work/foo.txt", "foo.txt") == Some("foo.txt");
  }

  /** Nothing exists yet, so Save As of "/work/foo" writes the buffer there and commits. */
  lemma FooSaveAsCommits(s: EditorState)
    requires s.newFile && !s.fileLoaded
    ensures SaveAsStep(World(s, map[]), Some("/work/foo"), No, "/work", true, true) ==
      SaveAsCommit(s.(path := Some("/work/foo")), map["/work/foo" := s.buffer], "/work/foo",
                   Target("/work/foo.txt", "foo.txt", true), "/work", true)
  {
    assert "/work/" + "foo" == "/work/foo";
    FileNameInDirectory("/work/", "foo");
    DotlessNameIsNotEditable("foo");
    assert SaveTarget("/work/foo") == Target("/work/foo.txt", "foo.txt", true);
    assert Write(map[], "/work/foo", s.buffer, true) == Some(map["/work/foo" := s.buffer]);
  }

  /**
    A ".txt" file saved in a subdirectory dir of the working directory is shown by its path
    relative to the working directory, dir + "/" + name, and becomes the path.
   */
  lemma SaveAsInSubdirectoryShowsRelative(s: EditorState, working: string, dir: string, stem: string, answer: Answer)
    requires s.newFile && !s.fileLoaded
    requires Separator !in stem
    ensures var rel := dir + [Separator] + stem + TxtExtension;
      var r := SaveAsStep(World(s, map[]), Some(working + [Separator] + rel), answer, working, true, true);
      && r.editor.path == Some(working + [Separator] + rel)
      && r.editor.fileNameText == rel
  {
    var rel := dir + [Separator] + stem + TxtExtension;
    var p := working + [Separator] + rel;
    var d := working + [Separator] + dir + [Separator];
    assert d + stem + TxtExtension == p;
    TxtTargetInDirectory(d, stem);
    assert Write(map[], p, s.buffer, true) == Some(map[p := s.buffer]);
    assert SaveAsStep(World(s, map[]), Some(p), answer, working, true, true) ==
      SaveAsCommit(s.(path := Some(p)), map[p := s.buffer], p, Target(p, stem + TxtExtension, false), working, true);
    DisplayNameUnderWorking(working, rel, stem + TxtExtension);
  }

}
