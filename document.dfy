/**
  The document lifecycle of the text editor as values: the state the handlers read and write, one
  pure step function per handler, the invariant every step keeps, and runs of events from start-up.
  The lifecycle is NONE (neither flag), LOADED (fileLoaded) or NEW (newFile).
 */
module Document {
  import opened Wrappers
  import opened FilePaths
  import opened FileSystem

  /** Text of the filename indicator for a document that was never saved. */
  const NewFileLabel: string := "<NEW FILE>"
  /** Text of the modified indicator while the buffer has unsaved edits. */
  const ModifiedMarker: string := "  *  "

  /** What JOptionPane.showConfirmDialog returns for a YES_NO_CANCEL prompt; Closed is CLOSED_OPTION. */
  datatype Answer = Yes | No | Cancel | Closed

  /** The discard and overwrite prompts abort only on NO or CANCEL; anything else goes ahead. */
  predicate Proceeds(a: Answer) {
    a != No && a != Cancel
  }

  /** Enabled state of the Save and Save As menu items. */
  datatype Menu = Menu(save: bool, saveAs: bool)

  /** menuSelected: Save only for a loaded file, Save As for a loaded or a new one. */
  function Enablement(fileLoaded: bool, newFile: bool): (m: Menu)
    ensures m.save <==> fileLoaded
    ensures m.saveAs <==> fileLoaded || newFile
    ensures m.save ==> m.saveAs
  {
    if fileLoaded then Menu(true, true)
    else if newFile then Menu(false, true)
    else Menu(false, false)
  }

  function Marker(modified: bool): string {
    if modified then ModifiedMarker else ""
  }

  /**
    Everything a handler reads or writes: the three flags, the backing path (the Java fields file
    and path, always assigned together), the text area's contents and editability, the two
    indicators and the two menu items.
   */
  datatype EditorState = EditorState(
    fileLoaded: bool,
    newFile: bool,
    modified: bool,
    path: Option<string>,
    buffer: string,
    editable: bool,
    fileNameText: string,
    modifiedText: string,
    menu: Menu)

  /** The constructor: all flags false, no path, an empty read-only text area. */
  const Initial: EditorState :=
    EditorState(false, false, false, None, "", false, "", "", Menu(true, true))

  /**
    The invariant of every reachable state: never both loaded and new; a loaded document has a path;
    the text area is editable exactly in LOADED and NEW; in NONE nothing is modified and the buffer
    is empty; a new document is labelled as such; the modified indicator mirrors the flag.
   */
  predicate Inv(s: EditorState) {
    && !(s.fileLoaded && s.newFile)
    && (s.fileLoaded ==> s.path.Some?)
    && (s.editable <==> s.fileLoaded || s.newFile)
    && (!s.editable ==> !s.modified && s.buffer == "")
    && (s.newFile ==> s.fileNameText == NewFileLabel)
    && s.modifiedText == Marker(s.modified)
  }

  /** The editor's state together with the files it works on. */
  datatype World = World(editor: EditorState, files: Files)

  /**
    Open: a modified buffer needs a proceeding answer, a cancelled chooser ends the handler, then
    the chosen path is adopted before the read; only a successful read loads the file.
   */
  function OpenStep(s: EditorState, answer: Answer, chosen: Option<string>, files: Files, readOk: bool): (r: EditorState)
    ensures Inv(s) ==> Inv(r)
    ensures r.menu == s.menu
  {
    if s.modified && !Proceeds(answer) then s
    else if chosen.None? then s
    else
      var adopted := s.(path := chosen);
      match Read(files, chosen.value, readOk)
      case None => adopted
      case Some(content) =>
        adopted.(buffer := content, editable := true, fileNameText := FileName(chosen.value),
                 modifiedText := "", fileLoaded := true, newFile := false, modified := false)
  }

  /** New: a modified buffer needs a proceeding answer; then an empty, editable, unsaved document. */
  function NewStep(s: EditorState, answer: Answer): (r: EditorState)
    ensures Inv(s) ==> Inv(r)
    ensures r.path == s.path && r.menu == s.menu
  {
    if s.modified && !Proceeds(answer) then s
    else
      s.(fileNameText := NewFileLabel, modifiedText := "", buffer := "", editable := true,
         newFile := true, fileLoaded := false, modified := false)
  }

  /**
    Save As after a successful write of the buffer to the chosen path, whose normalised target t
    Save As has already computed: rename to the candidate when ".txt" was added (the path follows
    only if the rename succeeds), mark the document loaded and unmodified, and show the display name
    unless computing it throws.
   */
  function SaveAsCommit(s: EditorState, written: Files, chosen: string, t: Target, working: string, renameOk: bool): (r: World)
    requires chosen in written && (t.rename ==> t.candidate != chosen)
    ensures var finalPath := if t.rename && renameOk then t.candidate else chosen;
      && r.editor.path == Some(finalPath)
      && Read(r.files, finalPath, true) == Some(written[chosen])
      && (t.rename && renameOk ==> chosen !in r.files)
      && (forall q :: q in written && q != chosen && q != t.candidate ==> q in r.files && r.files[q] == written[q])
      && var shown := DisplayName(working, finalPath, t.fileName);
      r.editor.fileNameText == (if shown.Some? then shown.value else s.fileNameText)
    ensures !(t.rename && renameOk) ==> r.files == written
    ensures r.files.Keys == if t.rename && renameOk then written.Keys - {chosen} + {t.candidate} else written.Keys
    ensures r.editor == s.(path := r.editor.path, fileLoaded := true, newFile := false, modified := false,
                           modifiedText := "", fileNameText := r.editor.fileNameText)
    ensures s.editable && Inv(s.(fileLoaded := true, newFile := false, modified := false, modifiedText := "")) ==> Inv(r.editor)
  {
    var finalPath := if t.rename && Renamed(written, chosen, renameOk) then t.candidate else chosen;
    var files := if t.rename then Rename(written, chosen, t.candidate, renameOk) else written;
    var saved := s.(path := Some(finalPath), fileLoaded := true, newFile := false,
                    modified := false, modifiedText := "");
    match DisplayName(working, finalPath, t.fileName)
    case None => World(saved, files)
    case Some(name) => World(saved.(fileNameText := name), files)
  }

  /**
    Save As as the code does it: adopt the chosen path, normalise it, ask before overwriting an
    existing candidate, write the buffer to the chosen path, then commit.
   */
  function SaveAsStep(w: World, chosen: Option<string>, answer: Answer, working: string, writeOk: bool, renameOk: bool): (r: World)
    requires Enablement(w.editor.fileLoaded, w.editor.newFile).saveAs
    ensures Inv(w.editor) ==> Inv(r.editor)
    ensures r.editor.buffer == w.editor.buffer && r.editor.menu == w.editor.menu
  {
    if chosen.None? then w
    else
      var adopted := w.editor.(path := chosen);
      if Exists(w.files, SaveTarget(chosen.value).candidate) && !Proceeds(answer) then World(adopted, w.files)
      else match Write(w.files, chosen.value, w.editor.buffer, writeOk)
        case None => World(adopted, w.files)
        case Some(written) => SaveAsCommit(adopted, written, chosen.value, SaveTarget(chosen.value), working, renameOk)
  }

  /** Save: write the buffer to the backing path; success clears only the modified flag and marker. */
  function SaveStep(w: World, writeOk: bool): (r: World)
    requires w.editor.path.Some?
    ensures Inv(w.editor) ==> Inv(r.editor)
  {
    match Write(w.files, w.editor.path.value, w.editor.buffer, writeOk)
    case None => w
    case Some(written) => World(w.editor.(modified := false, modifiedText := ""), written)
  }

  /** The text area takes the user's edit only while it is editable. */
  function EditStep(s: EditorState, text: string): (r: EditorState)
    ensures Inv(s) ==> Inv(r)
  {
    if s.editable then s.(buffer := text) else s
  }

  /**
    keyReleased: a loaded document is modified iff the file on disk differs from the buffer (a failed
    read changes nothing); a new document is modified iff the buffer is not empty.
   */
  function KeyReleaseStep(s: EditorState, files: Files, readOk: bool): (r: EditorState)
    requires s.fileLoaded ==> s.path.Some?
    ensures Inv(s) ==> Inv(r)
  {
    if s.fileLoaded then
      match Read(files, s.path.value, readOk)
      case None => s
      case Some(content) =>
        if content == s.buffer then s.(modifiedText := "", modified := false)
        else s.(modifiedText := ModifiedMarker, modified := true)
    else if s.newFile then
      if s.buffer != "" then s.(modifiedText := ModifiedMarker, modified := true)
      else s.(modifiedText := "", modified := false)
    else s
  }

  function MenuSelectStep(s: EditorState): (r: EditorState)
    ensures Inv(s) ==> Inv(r)
  {
    s.(menu := Enablement(s.fileLoaded, s.newFile))
  }

  /**
    What the outside world delivers, one handler at a time. Save and Save As are only clickable when
    menuSelected, which runs as the menu opens, has enabled them. ExternalChange is another program
    changing the files.
   */
  datatype Event =
    | OpenEvent(answer: Answer, chosen: Option<string>, readOk: bool)
    | NewEvent(answer: Answer)
    | SaveAsEvent(chosen: Option<string>, overwrite: Answer, working: string, writeOk: bool, renameOk: bool)
    | SaveEvent(writeOk: bool)
    | EditEvent(text: string)
    | KeyReleaseEvent(readOk: bool)
    | MenuSelectEvent
    | ExternalChange(files: Files)

  function Step(w: World, e: Event): (r: World)
    requires Inv(w.editor)
    ensures Inv(r.editor)
  {
    var s := w.editor;
    match e
    case OpenEvent(a, c, ok) => World(OpenStep(s, a, c, w.files, ok), w.files)
    case NewEvent(a) => World(NewStep(s, a), w.files)
    case SaveAsEvent(c, a, dir, wok, rok) =>
      if Enablement(s.fileLoaded, s.newFile).saveAs then SaveAsStep(w, c, a, dir, wok, rok) else w
    case SaveEvent(ok) =>
      if Enablement(s.fileLoaded, s.newFile).save then SaveStep(w, ok) else w
    case EditEvent(t) => World(EditStep(s, t), w.files)
    case KeyReleaseEvent(ok) => World(KeyReleaseStep(s, w.files, ok), w.files)
    case MenuSelectEvent => World(MenuSelectStep(s), w.files)
    case ExternalChange(f) => World(s, f)
  }

  /** The state after a sequence of events; every state reached keeps the invariant. */
  function Run(w: World, events: seq<Event>): (r: World)
    requires Inv(w.editor)
    ensures Inv(r.editor)
    decreases |events|
  {
    if events == [] then w else Run(Step(w, events[0]), events[1..])
  }

  lemma InitialIsValid()
    ensures Inv(Initial)
    ensures Enablement(Initial.fileLoaded, Initial.newFile) == Menu(false, false)
    ensures !Initial.editable
  {
  }

  /**
    From start-up, whatever happens: never both loaded and new, Save is offered only with a path to
    write to, and Save As is offered exactly when the text area is editable.
   */
  lemma ReachableStates(files: Files, events: seq<Event>)
    ensures !(Run(World(Initial, files), events).editor.fileLoaded && Run(World(Initial, files), events).editor.newFile)
    ensures var s := Run(World(Initial, files), events).editor;
      (Enablement(s.fileLoaded, s.newFile).save ==> s.path.Some?) &&
      (Enablement(s.fileLoaded, s.newFile).saveAs <==> s.editable)
  {
    InitialIsValid();
  }
}
