/** `AppLauncher` of program_launcher2.py: the operations of the first
    version, plus editing, deleting and the numbered list the modify and
    delete dialogs show. Dialog answers and the outcome of reading or writing the
    file are parameters; the methods return what was written. */
module LauncherV2 {
  import opened Wrappers
  import opened Text
  import opened Icons
  import opened Entries
  import opened Store
  import opened Display

  class AppLauncher {
    /** `buttons_data` */
    var buttons: seq<Button>
    /** `current_config_file` */
    var currentConfigFile: Option<string>

    /** Every entry holds a handle only when it has an icon path, and the
        current file, when set, is a path a dialog returned (never `""`). */
    ghost predicate Valid()
      reads this
    {
      (forall i :: 0 <= i < |buttons| ==> IconNeedsPath(buttons[i]))
      && (currentConfigFile.Some? ==> currentConfigFile.value != "")
    }

    /** The window starts with no buttons and no file. */
    constructor ()
      ensures Valid() && buttons == [] && currentConfigFile == None
    {
      buttons := [];
      currentConfigFile := None;
    }

    /** `add_button_dialog`: a cancelled name dialog (`None`) or program
        dialog (`""`) changes nothing; otherwise exactly one entry is
        appended and the earlier ones are kept. */
    method AddButtonDialog(name: Option<string>, programPath: string, iconPath: string, store: IconStore)
      requires Valid()
      modifies this
      ensures Valid() && currentConfigFile == old(currentConfigFile)
      ensures if name.None? || programPath == "" then buttons == old(buttons)
              else buttons == old(buttons) + [NewEntry(name.value, programPath, iconPath, store)]
    {
      if name.None? {
        return;
      }
      if programPath == "" {
        return;
      }
      var icon := ResolveIcon(Some(iconPath), store);
      var entry := Button(if name.value != "" then name.value else Stem(programPath), programPath, iconPath, icon);
      buttons := buttons + [entry];
    }

    /** `_load_config_from_file`: a file that cannot be opened or parsed
        leaves the entries as they were and reports failure; otherwise the
        list is replaced, all at once, by the accepted records, with one
        warning per skipped item. The current file is not touched here. */
    method LoadConfigFromFile(read: ReadOutcome, store: IconStore) returns (ok: bool, warnings: nat)
      requires Valid()
      modifies this
      ensures Valid() && currentConfigFile == old(currentConfigFile)
      ensures ok <==> read.Parsed?
      ensures buttons == if ok then Loaded(read.items, store) else old(buttons)
      ensures warnings == if ok then |read.items| - |buttons| else 0
    {
      if !read.Parsed? {
        return false, 0;
      }
      var temp;
      temp, warnings := BuildEntries(read.items, store);
      buttons := temp;
      ok := true;
    }

    /** `save_config_as`: nothing happens when the dialog is cancelled; the
        records are written to the chosen path, and only when the write
        succeeds does that path become the current file. */
    method SaveConfigAs(filepath: string, writeOk: bool) returns (written: Option<FileWrite>)
      requires Valid()
      modifies this`currentConfigFile
      ensures Valid()
      ensures written == if filepath != "" && writeOk then Some(FileWrite(filepath, PrepareForSaving(buttons))) else None
      ensures currentConfigFile == if written.Some? then Some(filepath) else old(currentConfigFile)
    {
      written := None;
      if filepath == "" {
        return;
      }
      if writeOk {
        written := Some(FileWrite(filepath, PrepareForSaving(buttons)));
        currentConfigFile := Some(filepath);
      }
    }

    /** `save_config`: with a current file, write there (a failure is only
        reported); without one, behave as save-as. Either way the current
        file changes only to the path of a write that succeeded. */
    method SaveConfig(saveAsPath: string, writeOk: bool) returns (written: Option<FileWrite>)
      requires Valid()
      modifies this`currentConfigFile
      ensures Valid()
      ensures var target := SaveTarget(old(currentConfigFile), saveAsPath);
        written == if target.Some? && writeOk then Some(FileWrite(target.value, PrepareForSaving(buttons))) else None
      ensures currentConfigFile == if written.Some? then Some(written.value.path) else old(currentConfigFile)
    {
      if !Falsy(currentConfigFile) {
        written := if writeOk then Some(FileWrite(currentConfigFile.value, PrepareForSaving(buttons))) else None;
      } else {
        written := SaveConfigAs(saveAsPath, writeOk);
      }
    }

    /** The question `new_config` and `open_config` ask first: when there are
        entries and the user answers yes, save (to the current file, or
        through save-as). */
    method OfferToSave(wantSave: bool, saveAsPath: string, writeOk: bool) returns (written: Option<FileWrite>)
      requires Valid()
      modifies this`currentConfigFile
      ensures Valid()
      ensures var target := SaveTarget(old(currentConfigFile), saveAsPath);
        written == if buttons != [] && wantSave && target.Some? && writeOk
                   then Some(FileWrite(target.value, PrepareForSaving(buttons))) else None
      ensures currentConfigFile == if written.Some? then Some(written.value.path) else old(currentConfigFile)
    {
      written := None;
      if buttons != [] && wantSave {
        if !Falsy(currentConfigFile) {
          written := SaveConfig(saveAsPath, writeOk);
        } else {
          written := SaveConfigAs(saveAsPath, writeOk);
        }
      }
    }

    /** `new_config`: after the optional save, the list is empty and there is
        no current file. */
    method NewConfig(wantSave: bool, saveAsPath: string, writeOk: bool) returns (written: Option<FileWrite>)
      requires Valid()
      modifies this
      ensures Valid() && buttons == [] && currentConfigFile == None
      ensures var target := SaveTarget(old(currentConfigFile), saveAsPath);
        written == if old(buttons) != [] && wantSave && target.Some? && writeOk
                   then Some(FileWrite(target.value, PrepareForSaving(old(buttons)))) else None
    {
      written := OfferToSave(wantSave, saveAsPath, writeOk);
      buttons := [];
      currentConfigFile := None;
    }

    /** `open_config`: after the optional save, a cancelled file dialog
        (`""`) or a failed load leaves the entries alone; a successful load
        replaces them and makes the opened path the current file. */
    method OpenConfig(wantSave: bool, saveAsPath: string, writeOk: bool,
                      filepath: string, read: ReadOutcome, store: IconStore)
      returns (written: Option<FileWrite>, loaded: bool)
      requires Valid()
      modifies this
      ensures Valid()
      ensures var target := SaveTarget(old(currentConfigFile), saveAsPath);
        written == if old(buttons) != [] && wantSave && target.Some? && writeOk
                   then Some(FileWrite(target.value, PrepareForSaving(old(buttons)))) else None
      ensures loaded <==> filepath != "" && read.Parsed?
      ensures buttons == if loaded then Loaded(read.items, store) else old(buttons)
      ensures currentConfigFile == if loaded then Some(filepath)
                                   else if written.Some? then Some(written.value.path)
                                   else old(currentConfigFile)
    {
      written := OfferToSave(wantSave, saveAsPath, writeOk);
      loaded := false;
      if filepath == "" {
        return;
      }
      var warnings;
      loaded, warnings := LoadConfigFromFile(read, store);
      if loaded {
        currentConfigFile := Some(filepath);
      }
    }

    /** `update_buttons_display`: the cells drawn for the current entries and
        the rows given weight; an empty list draws and weights nothing. */
    method UpdateButtonsDisplay() returns (cells: seq<Cell>, weightedRows: seq<nat>)
      ensures |cells| == |buttons|
      ensures forall i :: 0 <= i < |buttons| ==>
        cells[i] == Cell(Row(i), Col(i), FaceOf(buttons[i]), buttons[i].programPath)
      ensures buttons == [] ==> weightedRows == []
      ensures buttons != [] ==> |weightedRows| == |buttons| / MaxColumns + 1
      ensures forall k :: 0 <= k < |weightedRows| ==> weightedRows[k] == k
    {
      cells, weightedRows := Layout(buttons);
    }

    /** `on_save` of the edit dialog for entry `index`: blank (after
        stripping) name or program path is rejected and nothing changes;
        otherwise the fields are assigned in place, the icon path and
        handle only when the re-resolve rule asks for it. The other entries
        and the list length stay as they were. */
    method OnSave(index: nat, form: EditForm, store: IconStore) returns (saved: bool)
      requires Valid() && index < |buttons|
      modifies this
      ensures Valid() && currentConfigFile == old(currentConfigFile)
      ensures saved <==> EditAt(old(buttons), index, form, store).Some?
      ensures buttons == if saved then EditAt(old(buttons), index, form, store).value else old(buttons)
    {
      ghost var before := buttons[index];
      ghost var edit := ApplyEdit(before, form, store);
      var newName, newProg, newIcon := Strip(form.name), Strip(form.programPath), Strip(form.iconPath);
      if newName == "" || newProg == "" {
        assert edit.None?;
        return false;
      }
      assert edit.Some? && edit.value.name == newName && edit.value.programPath == newProg;
      // the dictionary at `index` is updated field by field
      var b := buttons[index];
      b := b.(name := newName);
      b := b.(programPath := newProg);
      if b.iconPath != newIcon || (newIcon != "" && b.icon.None?) || (newIcon == "" && b.icon.Some?) {
        b := b.(iconPath := newIcon);
        b := b.(icon := ResolveIcon(Some(newIcon), store));
      }
      assert b == edit.value && IconNeedsPath(b);
      buttons := buttons[index := b];
      assert buttons == EditAt(old(buttons), index, form, store).value;
      saved := true;
    }

    /** `modify_button_dialog` followed by the edit dialog: nothing happens
        on an empty list, when the number dialog is cancelled (`None`), or
        when the edit dialog is closed without saving (`None`). The number
        dialog only returns values in `[1, |buttons|]`, so entry `num - 1`
        exists. */
    method ModifyButtonDialog(num: Option<int>, form: Option<EditForm>, store: IconStore) returns (saved: bool)
      requires Valid()
      requires num.Some? ==> 1 <= num.value <= |buttons|
      modifies this
      ensures Valid() && currentConfigFile == old(currentConfigFile)
      ensures saved ==> old(buttons) != [] && num.Some? && form.Some?
      ensures old(buttons) != [] && num.Some? && form.Some? ==>
        (saved <==> EditAt(old(buttons), num.value - 1, form.value, store).Some?)
      ensures saved ==> buttons == EditAt(old(buttons), num.value - 1, form.value, store).value
      ensures !saved ==> buttons == old(buttons)
    {
      if buttons == [] {
        return false;
      }
      if num.None? {
        return false;
      }
      if form.None? {
        return false;
      }
      saved := OnSave(num.value - 1, form.value, store);
    }

    /** `delete_button_dialog`: nothing happens on an empty list, when the
        number dialog is cancelled or when the confirmation is declined;
        otherwise exactly entry `num - 1` is removed and the others keep
        their order. */
    method DeleteButtonDialog(num: Option<int>, confirm: bool) returns (deleted: bool)
      requires Valid()
      requires num.Some? ==> 1 <= num.value <= |buttons|
      modifies this`buttons
      ensures Valid()
      ensures deleted <==> old(buttons) != [] && num.Some? && confirm
      ensures buttons == if deleted then RemoveAt(old(buttons), num.value - 1) else old(buttons)
    {
      if buttons == [] {
        return false;
      }
      if num.None? {
        return false;
      }
      var idx := num.value - 1;
      if confirm {
        buttons := buttons[..idx] + buttons[idx + 1..];
        deleted := true;
      } else {
        deleted := false;
      }
    }
  }
}
