/** `FileManagerBase`: the document life cycle behind the layout file, with
    a modified flag, the current file name, and the confirm-on-close rule.

    The message box and the open/save dialogs are inputs: the user's answer
    and the file name chosen (`None` when a dialog is cancelled).  The hooks
    the concrete manager implements (`OnClose`, `OnLoad`, `OnSave`) and the
    events raised are recorded, in order, in `trace`. */
module Documents {
  import opened Wrappers

  datatype Effect =
    | IsModifiedChanged | FilenameChanged
    | OnClose | OnLoad(file: string) | OnSave(file: string)
    | Closed | Opened | Saved

  /** The answer to "save changes?": Yes, No or Cancel. */
  datatype Answer = Yes | No | Cancel

  /** The `IsModifiedChanged` event a property set raises, if any. */
  function ModifiedChange(before: bool, after: bool): seq<Effect>
  {
    if before != after then [IsModifiedChanged] else []
  }

  /** The `FilenameChanged` event a property set raises, if any. */
  function FilenameChange(before: Option<string>, after: Option<string>): seq<Effect>
  {
    if before != after then [FilenameChanged] else []
  }

  /** What a successful `SaveAs` to `file` records. */
  function SaveAsEffects(modified: bool, filename: Option<string>, file: string): seq<Effect>
  {
    [OnSave(file)] + FilenameChange(filename, Some(file)) + ModifiedChange(modified, false) + [Saved]
  }

  /** Whether closing goes ahead: an unmodified document always closes; a
      modified one closes on No, and on Yes only if it got saved. */
  predicate CloseSucceeds(modified: bool, filename: Option<string>, answer: Answer, saveAs: Option<string>)
  {
    !modified || answer == No || (answer == Yes && (filename.Some? || saveAs.Some?))
  }

  /** What a successful close records: the save a Yes needed, `OnClose`,
      the two property changes and `Closed`. */
  function CloseEffects(modified: bool, filename: Option<string>, answer: Answer, saveAs: Option<string>): seq<Effect>
    requires CloseSucceeds(modified, filename, answer, saveAs)
  {
    var saving := modified && answer == Yes;
    var saveEffects := if !saving then []
                       else if filename.Some? then [OnSave(filename.value), IsModifiedChanged, Saved]
                       else SaveAsEffects(true, None, saveAs.value);
    var nameAfterSave := if saving && filename.None? then saveAs else filename;
    saveEffects + [OnClose] + ModifiedChange(modified && !saving, false) + FilenameChange(nameAfterSave, None) + [Closed]
  }

  /** What the open path records before loading: the close a modified
      document needs, and nothing otherwise. */
  function CloseFirstEffects(modified: bool, filename: Option<string>, answer: Answer, saveAs: Option<string>): seq<Effect>
    requires CloseSucceeds(modified, filename, answer, saveAs)
  {
    if modified then CloseEffects(modified, filename, answer, saveAs) else []
  }

  /** What loading `file` records on an unmodified document named
      `filename`. */
  function OpenEffects(filename: Option<string>, file: string): seq<Effect>
  {
    [OnLoad(file)] + FilenameChange(filename, Some(file)) + [Opened]
  }

  class FileManager {
    var isModified: bool
    var filename: Option<string>
    var trace: seq<Effect>

    constructor ()
      ensures !isModified && filename == None && trace == []
    {
      isModified := false;
      filename := None;
      trace := [];
    }

    /** The `IsModified` setter: the event only on a change. */
    method SetIsModified(value: bool)
      modifies this
      ensures isModified == value && filename == old(filename)
      ensures trace == old(trace) + ModifiedChange(old(isModified), value)
    {
      if isModified == value {
        return;
      }

      isModified := value;
      trace := trace + [IsModifiedChanged];
    }

    /** The private `Filename` setter: the event only on a change. */
    method SetFilename(value: Option<string>)
      modifies this
      ensures filename == value && isModified == old(isModified)
      ensures trace == old(trace) + FilenameChange(old(filename), value)
    {
      if filename != value {
        filename := value;
        trace := trace + [FilenameChanged];
      }
    }

    /** Asks for a file name; a cancelled dialog saves nothing. */
    method InternalSaveAs(saveAs: Option<string>) returns (ok: bool)
      modifies this
      ensures ok <==> saveAs.Some?
      ensures !ok ==> unchanged(this)
      ensures ok ==> && !isModified && filename == saveAs
                     && trace == old(trace) + SaveAsEffects(old(isModified), old(filename), saveAs.value)
    {
      if saveAs.None? {
        return false;
      }

      trace := trace + [OnSave(saveAs.value)];

      SetFilename(saveAs);
      SetIsModified(false);

      trace := trace + [Saved];

      return true;
    }

    /** Saves to the current file, asks for one if there is none, and does
        nothing when there is nothing to save. */
    method InternalSave(saveAs: Option<string>) returns (ok: bool)
      modifies this
      ensures !old(isModified) ==> ok && unchanged(this)
      ensures old(isModified) && old(filename).Some? ==>
                && ok && !isModified && filename == old(filename)
                && trace == old(trace) + [OnSave(old(filename).value), IsModifiedChanged, Saved]
      ensures old(isModified) && old(filename).None? ==>
                && (ok <==> saveAs.Some?)
                && (!ok ==> unchanged(this))
                && (ok ==> && !isModified && filename == saveAs
                           && trace == old(trace) + SaveAsEffects(true, None, saveAs.value))
    {
      if isModified == false {
        return true;
      }

      if filename.None? {
        ok := InternalSaveAs(saveAs);
        return;
      }

      trace := trace + [OnSave(filename.value)];

      SetIsModified(false);

      trace := trace + [Saved];

      return true;
    }

    /** Closes the document, asking first when it is modified: Cancel keeps
        it, Yes saves it first (and a failed save keeps it), No discards the
        changes. */
    method InternalClose(answer: Answer, saveAs: Option<string>) returns (ok: bool)
      modifies this
      ensures ok == CloseSucceeds(old(isModified), old(filename), answer, saveAs)
      ensures !ok ==> unchanged(this)
      ensures ok ==> !isModified && filename == None
      ensures ok ==> trace == old(trace) + CloseEffects(old(isModified), old(filename), answer, saveAs)
    {
      var result := true;

      if isModified {
        if answer == Cancel {
          return false;
        }

        if answer == Yes {
          if filename.Some? {
            result := InternalSave(saveAs);
          } else {
            result := InternalSaveAs(saveAs);
          }
        }
      }

      if result {
        trace := trace + [OnClose];
        SetIsModified(false);
        SetFilename(None);

        trace := trace + [Closed];
      }

      return result;
    }

    /** Loads `fileName` with no questions asked. */
    method InternalOpenWithoutConfirm(fileName: string)
      modifies this
      ensures !isModified && filename == Some(fileName)
      ensures trace == old(trace) + [OnLoad(fileName)] + FilenameChange(old(filename), Some(fileName))
                       + ModifiedChange(old(isModified), false) + [Opened]
    {
      trace := trace + [OnLoad(fileName)];

      SetFilename(Some(fileName));
      SetIsModified(false);

      trace := trace + [Opened];
    }

    /** `Open()`: a modified document must close first; then the open
        dialog picks the file (`None` when cancelled, after any close). */
    method InternalOpen(answer: Answer, saveAs: Option<string>, chosen: Option<string>) returns (ok: bool)
      modifies this
      ensures ok <==> CloseSucceeds(old(isModified), old(filename), answer, saveAs) && chosen.Some?
      ensures !CloseSucceeds(old(isModified), old(filename), answer, saveAs) ==> unchanged(this)
      ensures !old(isModified) && chosen.None? ==> unchanged(this)
      ensures ok ==> !isModified && filename == chosen
      ensures ok ==>
                trace == old(trace) + CloseFirstEffects(old(isModified), old(filename), answer, saveAs)
                         + OpenEffects(if old(isModified) then None else old(filename), chosen.value)
      ensures CloseSucceeds(old(isModified), old(filename), answer, saveAs) && old(isModified) && chosen.None? ==>
                && !isModified && filename == None
                && trace == old(trace) + CloseEffects(old(isModified), old(filename), answer, saveAs)
    {
      if isModified {
        var closed := InternalClose(answer, saveAs);
        if closed == false {
          return false;
        }
      }

      if chosen.None? {
        return false;
      }

      InternalOpenWithoutConfirm(chosen.value);

      return true;
    }

    /** `Open(fileName)`: the same without the open dialog. */
    method InternalOpenFile(fileName: string, answer: Answer, saveAs: Option<string>) returns (ok: bool)
      modifies this
      ensures ok == CloseSucceeds(old(isModified), old(filename), answer, saveAs)
      ensures !ok ==> unchanged(this)
      ensures ok ==> !isModified && filename == Some(fileName)
      ensures ok ==>
                trace == old(trace) + CloseFirstEffects(old(isModified), old(filename), answer, saveAs)
                         + OpenEffects(if old(isModified) then None else old(filename), fileName)
    {
      if isModified {
        var closed := InternalClose(answer, saveAs);
        if closed == false {
          return false;
        }
      }

      InternalOpenWithoutConfirm(fileName);

      return true;
    }

    /** The application may exit only if the document closed. */
    method ApplicationClose(answer: Answer, saveAs: Option<string>) returns (cancel: bool)
      modifies this
      ensures cancel == !CloseSucceeds(old(isModified), old(filename), answer, saveAs)
      ensures cancel ==> unchanged(this)
      ensures !cancel ==> !isModified && filename == None
      ensures !cancel ==> trace == old(trace) + CloseEffects(old(isModified), old(filename), answer, saveAs)
    {
      cancel := true;
      var closed := InternalClose(answer, saveAs);
      if closed {
        cancel := false;
      }
    }
  }
}
