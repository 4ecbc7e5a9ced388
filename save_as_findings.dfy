/**
  Two consequences of the order of the Save As handler, and the handler corrected. That a declined
  overwrite should leave the path alone follows from the purpose of the overwrite prompt; that no
  existing file is replaced unconfirmed is the aim the handler's comments state. The handler
  (Document.SaveAsStep, which the Editor class follows) adopts the chosen path before the
  overwrite prompt and writes to the chosen path rather than to the candidate whose existence it
  checked. IntendedSaveAsStep corrects both.
 */
module SaveAsFindings {
  import opened Wrappers
  import opened FilePaths
  import opened FileSystem
  import opened Document

  /**
    Save As writing straight to the candidate, and adopting a path only once the file is written.
    The rename step disappears: the candidate already carries the extension.
   */
  function IntendedSaveAsStep(w: World, chosen: Option<string>, answer: Answer, working: string, writeOk: bool): (r: World)
    requires Enablement(w.editor.fileLoaded, w.editor.newFile).saveAs
    ensures Inv(w.editor) ==> Inv(r.editor)
  {
    if chosen.None? then w
    else
      var t := SaveTarget(chosen.value);
      if Exists(w.files, t.candidate) && !Proceeds(answer) then w
      else match Write(w.files, t.candidate, w.editor.buffer, writeOk)
        case None => w
        case Some(written) =>
          var saved := w.editor.(path := Some(t.candidate), fileLoaded := true, newFile := false,
                                 modified := false, modifiedText := "");
          match DisplayName(working, t.candidate, t.fileName)
          case None => World(saved, written)
          case Some(name) => World(saved.(fileNameText := name), written)
  }

  /** The loaded document and the two files of the first counterexample. */
  const Mine: string := "mine"
  const Loaded: EditorState :=
    EditorState(true, false, false, Some("/w/a.txt"), Mine, true, "a.txt", "", Menu(true, true))
  const BothFiles: Files := map["/w/a.txt" := Mine, "/w/b.txt" := "theirs"]

  /**
    As written: the user declines to overwrite "/w/b.txt", yet the path already points there, so the
    next Save replaces "/w/b.txt" with the buffer without asking.
   */
  lemma DeclinedOverwriteRetargetsSave()
    ensures Inv(Loaded)
    ensures var declined := SaveAsStep(World(Loaded, BothFiles), Some("/w/b.txt"), No, "/w", true, true);
      && declined.files == BothFiles
      && declined.editor.path == Some("/w/b.txt")
      && declined.editor.fileNameText == "a.txt"
      && SaveStep(declined, true).files["/w/b.txt"] == Mine
  {
    assert "/w/" + "b" + TxtExtension == "/w/b.txt";
    TxtTargetInDirectory("/w/", "b");
  }

  /**
    As intended: declining the overwrite (or cancelling the chooser, or a failed write) leaves the
    editor and the files exactly as they were, so a later Save still writes the old path.
   */
  lemma IntendedDeclineChangesNothing(w: World, chosen: Option<string>, answer: Answer, working: string, writeOk: bool)
    requires Enablement(w.editor.fileLoaded, w.editor.newFile).saveAs
    requires chosen.None? || !writeOk || (SaveTarget(chosen.value).candidate in w.files && !Proceeds(answer))
    ensures IntendedSaveAsStep(w, chosen, answer, working, writeOk) == w
    ensures w.editor.path.Some? ==>
      SaveStep(IntendedSaveAsStep(w, chosen, answer, working, writeOk), true) == SaveStep(w, true)
  {
  }

  const Draft: EditorState :=
    EditorState(false, true, false, None, "draft", true, NewFileLabel, "", Menu(false, true))
  const Notes: Files := map["/w/notes" := "keep"]

  /** The chosen "/w/notes" has no extension, so its candidate is "/w/notes.txt" and it is renamed. */
  lemma NotesTarget()
    ensures SaveTarget("/w/notes") == Target("/w/notes.txt", "notes.txt", true)
  {
    assert "/w/" + "notes" == "/w/notes";
    FileNameInDirectory("/w/", "notes");
    DotlessNameIsNotEditable("notes");
  }

  /**
    As written: "/w/notes" exists and the user picks it; the existence check looks at
    "/w/notes.txt", finds nothing, asks nothing, and the write destroys the content of "/w/notes"
    whether or not the rename then succeeds.
   */
  lemma UnpromptedOverwrite(answer: Answer, renameOk: bool)
    ensures Inv(Draft)
    ensures var r := SaveAsStep(World(Draft, Notes), Some("/w/notes"), answer, "/w", true, renameOk);
      ("/w/notes" !in r.files || r.files["/w/notes"] != "keep") && (forall q :: q in r.files ==> r.files[q] != "keep")
  {
    NotesSaveAsCommits(answer, renameOk);
    NotesCommitFiles(Draft.(path := Some("/w/notes")), renameOk);
  }

  /** No prompt: Save As on "/w/notes" writes the draft there and goes straight to the commit. */
  lemma NotesSaveAsCommits(answer: Answer, renameOk: bool)
    ensures SaveAsStep(World(Draft, Notes), Some("/w/notes"), answer, "/w", true, renameOk) ==
      SaveAsCommit(Draft.(path := Some("/w/notes")), map["/w/notes" := "draft"], "/w/notes",
                   Target("/w/notes.txt", "notes.txt", true), "/w", renameOk)
  {
    NotesTarget();
    var written := map["/w/notes" := "draft"];
    assert Notes["/w/notes" := "draft"] == written;
    assert !Exists(Notes, "/w/notes.txt");
    assert Write(Notes, "/w/notes", "draft", true) == Some(written);
  }

  /** The files the commit leaves behind: the draft, under the candidate name iff the rename succeeded. */
  lemma NotesCommitFiles(s: EditorState, renameOk: bool)
    ensures var r := SaveAsCommit(s, map["/w/notes" := "draft"], "/w/notes", Target("/w/notes.txt", "notes.txt", true), "/w", renameOk);
      r.files == if renameOk then map["/w/notes.txt" := "draft"] else map["/w/notes" := "draft"]
  {
    var written := map["/w/notes" := "draft"];
    if renameOk {
      assert Rename(written, "/w/notes", "/w/notes.txt", true) == map["/w/notes.txt" := "draft"];
    }
  }

  /**
    As intended: an existing file keeps its content unless it is the candidate and the user did not
    answer NO or CANCEL (closing the dialog counts as agreeing, as in the Java handler); on success
    the buffer is in the candidate, which becomes the path.
   */
  lemma IntendedNoUnconfirmedOverwrite(w: World, chosen: string, answer: Answer, working: string, writeOk: bool)
    requires Enablement(w.editor.fileLoaded, w.editor.newFile).saveAs
    ensures var r := IntendedSaveAsStep(w, Some(chosen), answer, working, writeOk);
      forall q :: q in w.files ==>
        q in r.files && (r.files[q] == w.files[q] || (q == SaveTarget(chosen).candidate && Proceeds(answer)))
    ensures var r := IntendedSaveAsStep(w, Some(chosen), answer, working, writeOk);
      r != w ==> r.editor.path == Some(SaveTarget(chosen).candidate) &&
                 Read(r.files, SaveTarget(chosen).candidate, true) == Some(w.editor.buffer)
  {
  }
}
