/**
  The TextEditor object: its fields, and one method per event handler, each written in the order of
  the Java handler and proved to produce the state that the matching step function of Document
  describes. Dialog answers, chooser results, I/O outcomes and the working directory are arguments;
  the files are a value passed in and, where a handler writes, passed back out.
 */
module TextEditor {
  import opened Wrappers
  import opened FilePaths
  import opened FileSystem
  import opened Document

  class Editor {
    var fileLoaded: bool
    var newFile: bool
    var modified: bool
    /** The Java fields file and path, which every handler assigns together. */
    var path: Option<string>
    /** The text area: its contents and whether the user may edit them. */
    var buffer: string
    var editable: bool
    /** The filename and modified indicators. */
    var fileNameText: string
    var modifiedText: string
    /** The Save and Save As menu items. */
    var saveEnabled: bool
    var saveAsEnabled: bool

    ghost function State(): EditorState
      reads this
    {
      EditorState(fileLoaded, newFile, modified, path, buffer, editable, fileNameText, modifiedText,
                  Menu(saveEnabled, saveAsEnabled))
    }

    ghost predicate Valid()
      reads this
    {
      Inv(State())
    }

    /** All flags false and the text area read-only, so only New and Open are of use. */
    constructor ()
      ensures State() == Initial && Valid()
    {
      fileLoaded := false;
      newFile := false;
      modified := false;
      path := None;
      buffer := "";
      editable := false;
      fileNameText := "";
      modifiedText := "";
      saveEnabled := true;
      saveAsEnabled := true;
    }

    method Open(answer: Answer, chosen: Option<string>, files: Files, readOk: bool)
      requires Valid()
      modifies this
      ensures Valid()
      ensures State() == OpenStep(old(State()), answer, chosen, files, readOk)
    {
      if modified {
        if answer == No || answer == Cancel {
          return;
        }
      }
      if chosen.None? {
        return;
      }
      path := chosen;
      var content := Read(files, chosen.value, readOk);
      if content.Some? {
        buffer := content.value;
        editable := true;
        fileNameText := FileName(chosen.value);
        modifiedText := "";
        fileLoaded := true;
        newFile := false;
        modified := false;
      }
    }

    method New(answer: Answer)
      requires Valid()
      modifies this
      ensures Valid()
      ensures State() == NewStep(old(State()), answer)
    {
      if modified {
        if answer == No || answer == Cancel {
          return;
        }
      }
      fileNameText := NewFileLabel;
      modifiedText := "";
      buffer := "";
      editable := true;
      newFile := true;
      fileLoaded := false;
      modified := false;
    }

    /** Reachable only when menuSelected has enabled Save As. */
    method SaveAs(chosen: Option<string>, answer: Answer, files: Files, working: string, writeOk: bool, renameOk: bool)
      returns (files': Files)
      requires Valid() && Enablement(fileLoaded, newFile).saveAs
      modifies this
      ensures Valid()
      ensures World(State(), files') == SaveAsStep(World(old(State()), files), chosen, answer, working, writeOk, renameOk)
    {
      files' := files;
      if chosen.None? {
        return;
      }
      var chosenPath := chosen.value;
      path := chosen;
      var target := SaveTarget(chosenPath);
      if Exists(files, target.candidate) {
        if answer == No || answer == Cancel {
          return;
        }
      }
      var written := Write(files, chosenPath, buffer, writeOk);
      if written.None? {
        return;
      }
      files' := Commit(written.value, chosenPath, target, working, renameOk);
    }

    /** The rest of the Save As try block, after the write to the chosen path succeeded. */
    method Commit(written: Files, chosenPath: string, target: Target, working: string, renameOk: bool)
      returns (files': Files)
      requires chosenPath in written && path == Some(chosenPath)
      requires target.rename ==> target.candidate != chosenPath
      modifies this
      ensures World(State(), files') == SaveAsCommit(old(State()), written, chosenPath, target, working, renameOk)
    {
      ghost var r := SaveAsCommit(State(), written, chosenPath, target, working, renameOk);
      files' := written;
      var finalPath := chosenPath;
      if target.rename {
        if Renamed(files', chosenPath, renameOk) {
          finalPath := target.candidate;
        }
        files' := Rename(files', chosenPath, target.candidate, renameOk);
        path := Some(finalPath);
      }
      fileLoaded := true;
      newFile := false;
      modified := false;
      modifiedText := "";
      var shown := DisplayName(working, finalPath, target.fileName);
      if shown.Some? {
        fileNameText := shown.value;
      }
      assert files' == r.files && path == r.editor.path;
      assert fileNameText == r.editor.fileNameText;
    }

    /** Reachable only when menuSelected has enabled Save, that is, for a loaded file. */
    method Save(files: Files, writeOk: bool) returns (files': Files)
      requires Valid() && Enablement(fileLoaded, newFile).save
      modifies this`modified, this`modifiedText
      ensures Valid()
      ensures World(State(), files') == SaveStep(World(old(State()), files), writeOk)
    {
      files' := files;
      var written := Write(files, path.value, buffer, writeOk);
      if written.Some? {
        files' := written.value;
        modified := false;
        modifiedText := "";
      }
    }

    /** The text area itself: it takes the user's edit only while it is editable. */
    method EditText(text: string)
      requires Valid()
      modifies this`buffer
      ensures Valid()
      ensures State() == EditStep(old(State()), text)
    {
      if editable {
        buffer := text;
      }
    }

    method KeyReleased(files: Files, readOk: bool)
      requires Valid()
      modifies this`modified, this`modifiedText
      ensures Valid()
      ensures State() == KeyReleaseStep(old(State()), files, readOk)
    {
      if fileLoaded {
        var content := Read(files, path.value, readOk);
        if content.Some? {
          if content.value == buffer {
            modifiedText := "";
            modified := false;
          } else {
            modifiedText := ModifiedMarker;
            modified := true;
          }
        }
      } else if newFile {
        if buffer != "" {
          modifiedText := ModifiedMarker;
          modified := true;
        } else {
          modifiedText := "";
          modified := false;
        }
      }
    }

    method MenuSelected()
      requires Valid()
      modifies this`saveEnabled, this`saveAsEnabled
      ensures Valid()
      ensures State() == MenuSelectStep(old(State()))
    {
      if fileLoaded {
        saveAsEnabled := true;
        saveEnabled := true;
      } else if newFile {
        saveAsEnabled := true;
        saveEnabled := false;
      } else {
        saveAsEnabled := false;
        saveEnabled := false;
      }
    }

    /** windowClosing: returns whether the process exits; with unsaved edits only YES lets it exit. */
    method WindowClosing(answer: Answer) returns (exits: bool)
      ensures exits <==> !modified || answer == Yes
    {
      if modified {
        exits := answer == Yes;
      } else {
        exits := true;
      }
    }
  }
}
