# Text editor document lifecycle, in Dafny

This project models the document-lifecycle core of a small Swing text editor (`TextEditor.java`).
The editor holds one text buffer and three flags:

- `fileLoaded`: the buffer came from, or was saved to, an existing file.
- `newFile`: the document was created with New and has never been saved.
- `modified`: the buffer has unsaved edits.

It also holds the backing path (the Java fields `file` and `path`), the text area's editability,
a filename indicator, a modified indicator (`"  *  "` or empty) and the Save / Save As menu items.
The event handlers are transitions on this state: Open, New, Save As, Save, the menu's
`menuSelected`, the text area's `keyReleased` and the window's `windowClosing`.

Layout:

- `file_paths.dfy` (module `FilePaths`): the pure string logic. It gives the file name of a path,
  the case-insensitive `.txt`/`.java` test, the Save As candidate name, `pathDifference` and the
  name shown in the filename indicator.
- `file_system.dfy` (module `FileSystem`): the files as a `map<string, string>`. Read, write
  and rename each take a success flag from outside; exists is plain membership and takes none.
- `document.dfy` (module `Document`): the state as a value (`EditorState`) and one pure step
  function per handler. It also holds the invariant `Inv` that every step keeps, and `Run`, which
  plays any sequence of events from start-up.
- `document_facts.dfy` (module `DocumentFacts`): what each handler promises, and properties that
  link one handler to the next (for example, right after a save the next key release finds the
  document unmodified).
- `text_editor.dfy` (module `TextEditor`): class `Editor`, with the handlers as methods that update
  its fields in the order the Java handlers do. Each handler that changes state is proved to reach
  exactly the state its step function gives, and to keep `Valid()`. `WindowClosing` changes no
  field; its contract says when the process exits. `Commit`, the tail of the Save As try block, is
  proved equal to `Document.SaveAsCommit`, and `SaveAs` re-establishes `Valid()` after it.
- `save_as_findings.dfy` (module `SaveAsFindings`): two consequences of how Save As orders its
  steps, and Save As as intended, with its properties proved.

Answers to the confirm dialog are `Yes | No | Cancel | Closed`. `Closed` is `CLOSED_OPTION`: the
dialog was dismissed. Open, New and the overwrite prompt abort only on NO or CANCEL, so `Closed`
goes ahead. Window close exits only on YES, so `Closed` keeps the editor running.

Some consequences of the order in which the handlers do things, which the model keeps:

- Open assigns `file`/`path` before the read (lines 91-92), so a failed read still changes the
  path. Save As assigns them before the overwrite prompt and before the write (lines 151-152), so
  a declined overwrite or a failed write still changes the path.
- New does not touch `file`/`path` (lines 126-134), so a new document keeps the old path. A failed
  Open in the state where no flag is set leaves a path behind as well.
- Whenever the working directory and the final path have the same length, `pathDifference` throws
  `StringIndexOutOfBoundsException` (lines 336-341): the path cannot then be the working directory
  followed by the file name, so line 202 always calls it. The handler does not catch the exception. The flags have already been updated, and the filename indicator keeps its old
  text. `DisplayName` returns `None` in exactly these cases.

## Model

| member | source | states |
|---|---|---|
| `FilePaths.FileName` | src/texteditor/TextEditor.java:160-160 | `File.getName`: the last name of the path; its meaning is stated by the lemmas `FileNameIsLastName`, `FileNameAppend` and `FileNameInDirectory` |
| `FilePaths.EndsWith` | src/texteditor/TextEditor.java:164-164 | `String.endsWith`: the suffix is at most as long as the string and equals its last characters |
| `FilePaths.LowerChar` | src/texteditor/TextEditor.java:164-164 | the per-character lowering under `toLowerCase`, ASCII letters only; its use is stated by `ToLowerAt` |
| `FilePaths.ToLower` | src/texteditor/TextEditor.java:164-164 | the lowering of the file name at line 164, ASCII letters only; this ASCII lowering keeps the length, and `ToLowerAt` states that each character is lowered on its own |
| `FilePaths.HasEditableExtension` | src/texteditor/TextEditor.java:164-164 | the lower-cased name ends in ".txt" or ".java"; its meaning is stated by `EditableExtensionOfSuffix`, `ExtensionTestIgnoresCase`, `TxtNameIsEditable` and `DotlessNameIsNotEditable` |
| `FilePaths.SaveTarget` | src/texteditor/TextEditor.java:160-171 | the candidate path, its file name and whether `modName` is set; its meaning is stated by `SaveTargetMeaning` and `SaveTargetIdempotent` |
| `FilePaths.DisplayName` | src/texteditor/TextEditor.java:200-211 | the text the filename indicator gets after Save As, or `None` where `pathDifference` throws; its meaning is stated by `DisplayNameUnderWorking` and `DisplayNameFailsOnlyOnEqualLength` |
| `FileSystem.Renamed` | src/texteditor/TextEditor.java:190-190 | the boolean `renameTo` returns: true iff the flag allows it and the file to rename exists; `FileSystem.Rename` states what it does to the files |
| `FileSystem.Exists` | src/texteditor/TextEditor.java:173-173 | `File.exists`: the candidate is one of the files |
| `Document.Proceeds` | src/texteditor/TextEditor.java:77-78 | the guard shared by Open (77-78), New (122-123) and the overwrite prompt (177-178): the handler goes on unless the answer is NO or CANCEL; its use is stated by `DocumentFacts.DiscardGuard` and `DocumentFacts.SaveAsDeclined` |
| `Document.Marker` | src/texteditor/TextEditor.java:279-300 | the modified indicator's text: "  *  " when modified, empty otherwise; `Document.Inv` keeps the indicator equal to it |
| `Document.Inv` | src/texteditor/TextEditor.java:31-33 | the meaning of the three flags: never loaded and new at once; a loaded document has a path; the text is editable iff loaded or new; with no flag set the text is empty and unmodified; a new document is labelled "<NEW FILE>"; the modified indicator mirrors the flag. `Document.Run` and `Document.ReachableStates` prove it of every reachable state |
| `FilePaths.FileNameIsLastName` | src/texteditor/TextEditor.java:160-160 | the file name is a suffix of the path, contains no separator, and is either the whole path or starts right after a separator |
| `FilePaths.FileNameAppend` | src/texteditor/TextEditor.java:168-170 | appending ".txt" to the path appends ".txt" to its file name |
| `FilePaths.FileNameInDirectory` | src/texteditor/TextEditor.java:160-160 | the file name of dir + "/" + name is name, when name has no separator |
| `FilePaths.TxtNameIsEditable` | src/texteditor/TextEditor.java:164-170 | any name ending in ".txt" passes the extension test, so an appended ".txt" is never appended again |
| `FilePaths.DotlessNameIsNotEditable` | src/texteditor/TextEditor.java:164-170 | a name without a dot fails the extension test, so Save As always appends ".txt" to it |
| `FilePaths.TxtTargetInDirectory` | src/texteditor/TextEditor.java:160-166 | a ".txt" file chosen inside a directory is its own candidate, needs no rename and is remembered by its file name |
| `FilePaths.ToLowerAt` | src/texteditor/TextEditor.java:164-164 | lower-casing maps each character on its own |
| `FilePaths.ToLowerAppend` | src/texteditor/TextEditor.java:164-164 | lower-casing distributes over concatenation |
| `FilePaths.EditableExtensionOfSuffix` | src/texteditor/TextEditor.java:164-164 | for a four-character extension, or a five-character one with no second dot, the extension test depends only on that extension lower-cased |
| `FilePaths.ExtensionTestIgnoresCase` | src/texteditor/TextEditor.java:164-164 | ".TXT" and ".Java" names are kept as they are, a ".text" name is not |
| `FilePaths.SaveTargetMeaning` | src/texteditor/TextEditor.java:160-171 | rename is needed iff the file name lacks a case-insensitive .txt/.java extension; the candidate is the chosen path, or the chosen path + ".txt"; the remembered name is the candidate's file name and always has an editable extension |
| `FilePaths.SaveTargetIdempotent` | src/texteditor/TextEditor.java:160-171 | normalising the candidate again keeps it unchanged and needs no rename |
| `FilePaths.PathDifference` | src/texteditor/TextEditor.java:336-341 | requires different lengths, since equal lengths throw; the result is the suffix of the longer string that is shorter by (shorter length + 1) |
| `FilePaths.PathDifferenceUnderWorking` | src/texteditor/TextEditor.java:336-341 | for working + "/" + rel, pathDifference gives rel |
| `FilePaths.DisplayNameUnderWorking` | src/texteditor/TextEditor.java:200-211 | a file anywhere under the working directory is shown by its path relative to that directory |
| `FilePaths.DisplayNameFailsOnlyOnEqualLength` | src/texteditor/TextEditor.java:200-211 | no name is shown iff the working directory and the final path have the same length; then the file is not under the working directory |
| `FileSystem.Read` | src/texteditor/TextEditor.java:95-95 | the read succeeds iff the flag allows it and the file exists, and it returns the file's content |
| `FileSystem.Write` | src/texteditor/TextEditor.java:185-185 | the write succeeds iff the flag allows it; the file then holds the content and no other file changes |
| `FileSystem.Rename` | src/texteditor/TextEditor.java:189-191 | on success the content moves from the old name to the new one and nothing else changes; on failure nothing changes |
| `Document.Enablement` | src/texteditor/TextEditor.java:240-251 | Save is enabled iff fileLoaded; Save As iff fileLoaded or newFile; so Save enabled implies Save As enabled |
| `Document.OpenStep` | src/texteditor/TextEditor.java:69-111 | Open keeps the invariant and leaves the menu alone |
| `Document.NewStep` | src/texteditor/TextEditor.java:114-136 | New keeps the invariant, the path and the menu |
| `Document.SaveAsCommit` | src/texteditor/TextEditor.java:185-211 | after the write: the path is the candidate iff ".txt" was added and the rename succeeded, and that file holds the written content; the chosen name is gone after a rename; other files are untouched; without a successful rename the files are exactly those written, so a failed rename leaves the candidate as it was; the set of file names is the written one, with the chosen name replaced by the candidate after a rename; the filename indicator shows `DisplayName` of the final path, or keeps its text where `pathDifference` throws; the document is loaded, not new and unmodified, and nothing else changes |
| `Document.SaveAsStep` | src/texteditor/TextEditor.java:138-218 | Save As, when enabled, keeps the invariant, the buffer and the menu |
| `Document.SaveStep` | src/texteditor/TextEditor.java:220-235 | Save keeps the invariant |
| `Document.EditStep` | src/texteditor/TextEditor.java:130-130 | an edit keeps the invariant |
| `Document.KeyReleaseStep` | src/texteditor/TextEditor.java:263-305 | key-release tracking keeps the invariant |
| `Document.MenuSelectStep` | src/texteditor/TextEditor.java:237-252 | menuSelected keeps the invariant |
| `Document.Step` | src/texteditor/TextEditor.java:69-324 | every event keeps the invariant; Save and Save As act only when enabled |
| `Document.Run` | src/texteditor/TextEditor.java:69-324 | every state reached by a sequence of events satisfies the invariant |
| `Document.InitialIsValid` | src/texteditor/TextEditor.java:57-65 | the initial state satisfies the invariant and is read-only, and `menuSelected` would disable both Save items |
| `Document.ReachableStates` | src/texteditor/TextEditor.java:31-33 | from start-up, a document is never both loaded and new, Save is offered only with a path, and Save As is offered iff the text is editable |
| `DocumentFacts.MenuTracksEditability` | src/texteditor/TextEditor.java:240-251 | in any valid state, Save As is enabled iff the text area is editable; Save is enabled only with a path and not for a new file; with no flag set, both are disabled |
| `DocumentFacts.DiscardGuard` | src/texteditor/TextEditor.java:73-78 | with unsaved edits, a NO or CANCEL answer makes Open and New change nothing |
| `DocumentFacts.NewOutcome` | src/texteditor/TextEditor.java:126-134 | past the guard, New gives an empty, editable, unmodified new document labelled "<NEW FILE>", with the path kept |
| `DocumentFacts.OpenOutcome` | src/texteditor/TextEditor.java:84-109 | past the guard: a cancelled chooser changes nothing; a failed read changes only the path; a successful read shows the content, names the file and marks it loaded and unmodified |
| `DocumentFacts.SaveAsDeclined` | src/texteditor/TextEditor.java:173-179 | when the candidate exists and the answer is NO or CANCEL, no file changes and only the path changes in the editor |
| `DocumentFacts.SaveAsWriteFails` | src/texteditor/TextEditor.java:151-152 | a failed write changes only the path |
| `DocumentFacts.SaveAsOutcome` | src/texteditor/TextEditor.java:185-197 | a successful write puts the buffer in the final file, which is the candidate iff ".txt" was added and the rename succeeded; the path follows it; other files are untouched; without a successful rename the files are the old ones with the buffer written to the chosen path; the set of file names gains the chosen name, or the candidate in its place after a rename, and nothing else; the filename indicator shows `DisplayName` of the final path, or keeps its text where `pathDifference` throws; the document is loaded and unmodified |
| `DocumentFacts.SaveAsAddsTxt` | src/texteditor/TextEditor.java:187-193 | a name without an editable extension ends up, after a successful rename, as name + ".txt", and the path points there |
| `DocumentFacts.SaveOutcome` | src/texteditor/TextEditor.java:223-233 | success writes the buffer to the path and clears only the modified flag and indicator; failure changes nothing |
| `DocumentFacts.KeyReleaseOutcome` | src/texteditor/TextEditor.java:266-303 | loaded: modified iff the disk content differs from the buffer, and a failed read changes nothing; new: modified iff the buffer is not empty; otherwise no change; only the flag and its indicator change, and the indicator shows the marker iff the flag is set |
| `DocumentFacts.SavedIsUnmodified` | src/texteditor/TextEditor.java:225-228 | right after a successful Save, the next key release reports no modification |
| `DocumentFacts.SavedAsIsUnmodified` | src/texteditor/TextEditor.java:185-197 | right after a successful Save As, the next key release reports no modification |
| `DocumentFacts.OpenedIsUnmodified` | src/texteditor/TextEditor.java:95-105 | right after a successful Open, a key release on the unchanged file reports no modification |
| `DocumentFacts.RevertedEditIsUnmodified` | src/texteditor/TextEditor.java:274-281 | typing the file's content back into a loaded document clears the flag and the indicator |
| `DocumentFacts.NewDocumentScenario` | src/texteditor/TextEditor.java:291-302 | New, then typing "abc", sets the marker; clearing the text removes it |
| `DocumentFacts.ScenarioSaveAsWithoutExtension` | src/texteditor/TextEditor.java:160-211 | saving "/work/foo" from "/work" leaves only "/work/foo.txt", adopts it as the path and shows "foo.txt" |
| `DocumentFacts.FooSaveAsCommits` | src/texteditor/TextEditor.java:160-185 | with no file yet, Save As of "/work/foo" gets the candidate "/work/foo.txt" without a prompt, writes the buffer to "/work/foo" and commits with a rename |
| `DocumentFacts.SaveAsInSubdirectoryShowsRelative` | src/texteditor/TextEditor.java:200-211 | a ".txt" file saved as working + "/" + dir + "/" + name becomes the path and is shown as dir + "/" + name, relative to the working directory |
| `TextEditor.Editor.constructor` | src/texteditor/TextEditor.java:52-66 | starts in the initial state: all flags false, no path, empty read-only text |
| `TextEditor.Editor.Open` | src/texteditor/TextEditor.java:69-111 | the new state is the Open step of the old one, and the invariant holds |
| `TextEditor.Editor.New` | src/texteditor/TextEditor.java:114-136 | the new state is the New step of the old one, and the invariant holds |
| `TextEditor.Editor.SaveAs` | src/texteditor/TextEditor.java:138-218 | when Save As is enabled, the new state and files are the Save As step of the old ones, and the invariant holds |
| `TextEditor.Editor.Commit` | src/texteditor/TextEditor.java:185-211 | the rest of the try block after a successful write, equal to the commit step |
| `TextEditor.Editor.Save` | src/texteditor/TextEditor.java:220-235 | when Save is enabled, only the modified flag and its indicator may change; the new state and files are the Save step |
| `TextEditor.Editor.EditText` | src/texteditor/TextEditor.java:130-130 | only the buffer may change, and only while the text is editable |
| `TextEditor.Editor.KeyReleased` | src/texteditor/TextEditor.java:263-305 | only the modified flag and its indicator may change; the new state is the key-release step |
| `TextEditor.Editor.MenuSelected` | src/texteditor/TextEditor.java:237-252 | only the two menu items change, and they are set to the enablement of the current flags |
| `TextEditor.Editor.WindowClosing` | src/texteditor/TextEditor.java:309-324 | the process exits iff there are no unsaved edits or the answer is YES |
| `SaveAsFindings.DeclinedOverwriteRetargetsSave` | src/texteditor/TextEditor.java:151-179 | as written: after declining to overwrite "/w/b.txt", the path points there anyway, and the next Save replaces that file |
| `SaveAsFindings.UnpromptedOverwrite` | src/texteditor/TextEditor.java:164-185 | as written: an existing extension-less "/w/notes" loses its content with no prompt, since only "/w/notes.txt" was checked; no file holds the old content afterwards, so it was not moved either |
| `SaveAsFindings.NotesSaveAsCommits` | src/texteditor/TextEditor.java:164-185 | as written: with "/w/notes.txt" absent nothing is asked, and Save As writes the draft to "/w/notes" and commits |
| `SaveAsFindings.NotesCommitFiles` | src/texteditor/TextEditor.java:187-193 | after that write, the only file is the draft, under "/w/notes.txt" iff the rename succeeded |
| `SaveAsFindings.IntendedSaveAsStep` | src/texteditor/TextEditor.java:138-218 | the corrected Save As keeps the invariant |
| `SaveAsFindings.IntendedDeclineChangesNothing` | src/texteditor/TextEditor.java:173-179 | corrected: declining, cancelling or a failed write leaves editor and files as they were, and a later Save writes the old path |
| `SaveAsFindings.IntendedNoUnconfirmedOverwrite` | src/texteditor/TextEditor.java:154-179 | corrected: an existing file keeps its content unless it is the candidate and the answer was not NO or CANCEL (closing the dialog counts as agreeing, as in the code); on success the candidate holds the buffer and is the path |

## Findings

| source | as written | input that shows it | evidently intended | confidence | as-written member | corrected member |
|---|---|---|---|---|---|---|
| src/texteditor/TextEditor.java:151-179 | `path` is reassigned to the chosen file before the overwrite prompt, and NO/CANCEL returns without restoring it | a file is loaded from "/w/a.txt"; Save As picks the existing "/w/b.txt"; the answer is NO; then Save | declining leaves the document bound to "/w/a.txt", so Save does not touch "/w/b.txt" | high, not executed | `SaveAsFindings.DeclinedOverwriteRetargetsSave` | `SaveAsFindings.IntendedDeclineChangesNothing` |
| src/texteditor/TextEditor.java:164-185 | the existence check looks at chosen + ".txt", but the write goes to the chosen path itself | "/w/notes" exists with content "keep", "/w/notes.txt" does not; Save As picks "/w/notes" | no existing file is replaced without confirmation, which is the aim the comment at lines 154-159 states | high, not executed | `SaveAsFindings.UnpromptedOverwrite` | `SaveAsFindings.IntendedNoUnconfirmedOverwrite` |

The `Editor` class and `Document.SaveAsStep` model the code as written. `SaveAsFindings.IntendedSaveAsStep`
writes straight to the confirmed candidate and adopts the path only after the write succeeds.

## Left out

- Swing construction and layout (frame title, size, split pane) are not modelled. `views.TheFrame` is not part of this model. Its text fields are taken to start empty, and its menu items to start enabled, as Swing items do. `menuSelected` recomputes both items before either can be clicked.
- The rendering of `JFileChooser` and `JOptionPane` is not modelled, nor is the "Editable Files" filter (lines 35-50), which only limits what the chooser lists. The chooser's result and the dialog's answer are method arguments.
- File I/O (`Files.readAllBytes`, `Files.write`, `File.exists`, `File.renameTo`) is replaced by operations on a map of files. A success flag from the caller decides whether a read, a write or a rename succeeds; `File.exists` is membership in the map and takes no flag. The byte/charset conversion (`new String(bytes)`, `getBytes()`) is modelled as the identity.
- `System.getProperty("user.dir")` becomes the `working` argument. `System.exit` becomes the boolean that `WindowClosing` returns.
- `printStackTrace` and the error message dialogs are output only and are not modelled. A failed operation shows up only as the state it leaves behind.
- The caret reset after Open (line 97) is not modelled. It has no effect on the lifecycle.
- Paths are plain strings with '/' as the separator. Neither `java.io.File`'s normalisation (duplicate or trailing separators) nor Windows separators are modelled. The chooser is assumed to return normalised paths.
- FileSystem.Write: a failed write is modelled as changing no file. `Files.write` with no options opens the file with CREATE and TRUNCATE_EXISTING before writing (lines 185 and 225), so a write that fails part-way, on a full disk for instance, can leave the file empty or partly written, or leave a new empty file. `Document.SaveStep`, `Document.SaveAsStep`, `DocumentFacts.SaveOutcome` and `DocumentFacts.SaveAsWriteFails` inherit this: their "failure changes nothing" holds only for a write that fails before opening the file.
- FilePaths.PathDifference and FilePaths.DisplayName: count lengths in characters (Unicode scalar values), while Java's `length()` and `substring` count UTF-16 code units. The two agree for paths without characters outside the Basic Multilingual Plane, and for any path under the working directory. Otherwise the model can show a name where Java throws: with working "/abcdef" and final path "/😀.txt", both Java lengths are 7, but the two lengths differ in the model. It can also cut a path outside the working directory at a different point.
- FilePaths.ToLower: lower-cases only the ASCII letters. `String.toLowerCase` maps all of Unicode by the default locale. The two extensions the code looks for are ASCII.
- Save and Save As require that `menuSelected` would enable them. A disabled menu item cannot be clicked. Calling Save without a path would otherwise throw a `NullPointerException`, and that is not modelled.
- Event dispatch, listener registration and the empty `menuDeselected`/`menuCanceled` handlers are not modelled. Handlers run one at a time and do not re-enter, so there is no concurrency. The text area's own editing is modelled as `EditText`. Another program changing the files is modelled as `Document.Event.ExternalChange`.
