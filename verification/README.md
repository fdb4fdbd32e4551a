# Application launcher: button list and configuration file

A Dafny model of the core of a small Tkinter application launcher. The
window shows a grid of buttons. Each button has a name, the path of a
program it starts, and an optional icon. The list of buttons is saved to and
loaded from a JSON file. The repository has two near-identical versions:

- `program_launcher.py` can add buttons and create, open and save
  configurations.
- `program_launcher2.py` does the same and can also edit and delete
  buttons.

Each version has an `AppLauncher` class. Its state is `buttons_data`, an
ordered list of `{name, program_path, icon_path, tk_icon_ref}` records, and
`current_config_file`. The model has one Dafny class per version,
`LauncherV1.AppLauncher` and `LauncherV2.AppLauncher`. Both hold that state as
`buttons: seq<Button>` and `currentConfigFile: Option<string>`. Their
methods update the state and say exactly what the new state is. They rely on
shared modules that define each rule once:

- `Icons`: the icon resolver `_load_and_prepare_icon`. Its guard is modelled
  exactly. Decoding is a lookup in an `IconStore`, which says which files
  exist and which of them decode.
- `Entries`: the button record. This module holds the add default, the edit
  rule (`on_save`, with its three-way re-resolve condition) and deletion.
- `Store`: the parsed JSON items, the loader's filter and defaults (with the
  loop that builds the new list), the save projection, and the save/load
  round trip.
- `Display`: grid placement, the one-letter label and the numbered button
  list.
- `Text`: `str.strip`, `os.path.basename`/`splitext`, one-character
  `upper`, decimal numbers, and `join`/`split`.

Dialog answers are method parameters. A cancelled string dialog is `None`,
and a cancelled file dialog is `""`. Reading a file becomes a `ReadOutcome`:
either the parsed array, or a not-found, invalid-JSON or other read failure.
Writing a file becomes a `writeOk` flag. The save methods return the
`FileWrite` they performed, if any.

Points where the code's behaviour is easy to misread:

- The loader accepts any mapping that has a `program_path` key, even when
  the value is `""`. Only the key's presence is checked.
- A `name` stored in the file is kept as it is, even when it is empty. Only
  the add dialog replaces an empty name with the program's file stem
  (`Store.LoadMatchesAdd`).
- There is no dirty flag. New and open offer to save whenever the list is
  non-empty, whether or not it changed.
- `new_config` may set `current_config_file` while saving through save-as.
  It then resets the field to `None` straight away.
- An empty list draws nothing and weights no row. Otherwise the rows
  weighted are `0` to `len // 10`, in order: each row as it fills up, then
  the row the loop ends on. When the length is a multiple of ten, that last
  weighted row is empty (`Display.Layout`).

## Model

| member | source | states |
|---|---|---|
| Icons.ResolveIcon | program_launcher.py:50-64 | returns no handle for a `None`/empty path or a missing file; otherwise returns the decoded handle, or none when decoding fails; a handle implies an existing, decodable, non-empty path |
| Icons.GuardIgnoresDecoder | program_launcher2.py:66-68 | for a path the guard rejects, the result is `None` whatever the decoder would do, so no decode is attempted |
| Entries.NewEntry | program_launcher.py:131-138 | the added record keeps the program and icon paths; an empty name becomes the stem of the program path; the handle is the resolution of the icon path |
| LauncherV1.AppLauncher.AddButtonDialog | program_launcher.py:110-140 | a cancelled name or program dialog changes nothing; otherwise exactly one record is appended at the end and earlier records are unchanged; the current file is untouched |
| LauncherV2.AppLauncher.AddButtonDialog | program_launcher2.py:114-137 | same as the first version |
| Store.LoadEntry | program_launcher.py:178-185 | an accepted item's entry keeps a stored `name` as it is, or else takes the program's file stem; keeps `program_path`; keeps a stored `icon_path`, or else has `""` and no handle; its handle is the one resolved from its final icon path, so a handle implies a non-empty path |
| Store.Loaded | program_launcher.py:172-187 | the loaded list is no longer than the array, and each of its entries holds a handle only with an icon path |
| Store.BuildEntries | program_launcher.py:172-186 | the loader loop builds exactly `Loaded(items)` and issues one warning per skipped item, `|items| - |entries|` in all |
| Store.LoadedMapsKept | program_launcher.py:172-186 | the loaded list is, position by position, the entry built from each accepted item, in order |
| Store.KeptAtIndices | program_launcher.py:173-176 | the accepted items are exactly the items at the accepted positions, as many as there are |
| Store.AcceptedIndicesIncrease | program_launcher.py:172-176 | the accepted positions strictly increase, so the file's order is kept |
| Store.AcceptedIndicesCover | program_launcher.py:173-176 | every item that is a mapping with `program_path` has its position among the accepted ones |
| Store.LoadedSelects | program_launcher.py:173-176 | the loader keeps exactly the items that are mappings with `program_path`, in their original order (strictly increasing source indices, each accepted item present) |
| LauncherV1.AppLauncher.LoadConfigFromFile | program_launcher.py:157-188 | an open or parse failure returns false and leaves the list unchanged; on success the list is replaced as a whole by `Loaded(items)`; the current file is not changed |
| LauncherV2.AppLauncher.LoadConfigFromFile | program_launcher2.py:150-173 | same filter, defaults and replace-on-success as the first version |
| Store.PrepareForSaving | program_launcher.py:213-222 | one record per entry, in order, with exactly the keys `name`, `program_path`, `icon_path` holding the entry's values; the handle is never written |
| Store.LoadSaveRoundTrip | program_launcher.py:213-222 | loading the saved records gives back the same number of entries, in order, with identical name, program path and icon path; only the handle is resolved afresh |
| Store.SaveLoadSaveStable | program_launcher.py:215-221 | saving what a load of a save produced writes the same records again |
| Store.LoadMatchesAdd | program_launcher.py:180-185 | for any record with `program_path`, whatever other keys it has: loading it gives the add dialog's entry for the same answers (no name typed when `name` is missing, a cancelled icon dialog when `icon_path` is missing); the one exception is an empty stored name, which stays empty |
| Store.SaveTarget | program_launcher.py:224-235 | a save goes to the current file when there is one, else to the save-as path when one was chosen; there is no target exactly when both are missing; a target is never empty |
| LauncherV1.AppLauncher.SaveConfigAs | program_launcher.py:237-257 | a cancelled dialog or failed write writes nothing and keeps the current file; a successful write stores the projection at the path and only then makes it current |
| LauncherV2.AppLauncher.SaveConfigAs | program_launcher2.py:202-214 | same as the first version |
| LauncherV1.AppLauncher.SaveConfig | program_launcher.py:224-235 | writes the projection to `SaveTarget` when the write succeeds; the current file changes only to the path of a successful write; the list is unchanged |
| LauncherV2.AppLauncher.SaveConfig | program_launcher2.py:193-200 | same as the first version |
| LauncherV1.AppLauncher.OfferToSave | program_launcher.py:144-149 | saves only when the list is non-empty and the user agrees, through the current file or save-as |
| LauncherV2.AppLauncher.OfferToSave | program_launcher2.py:140-143 | same as the first version |
| LauncherV1.AppLauncher.NewConfig | program_launcher.py:142-154 | after the optional save, the list is empty and there is no current file |
| LauncherV2.AppLauncher.NewConfig | program_launcher2.py:139-148 | same as the first version |
| LauncherV1.AppLauncher.OpenConfig | program_launcher.py:190-211 | a cancelled dialog or failed load leaves the list unchanged; a successful load replaces it with `Loaded(items)` and makes the opened path current; otherwise the current file changes only through the optional save |
| LauncherV2.AppLauncher.OpenConfig | program_launcher2.py:175-188 | same as the first version |
| LauncherV1.AppLauncher.constructor | program_launcher.py:13-14 | starts with no buttons and no current file |
| LauncherV2.AppLauncher.constructor | program_launcher2.py:16-17 | starts with no buttons and no current file |
| LauncherV1.AppLauncher.UpdateButtonsDisplay | program_launcher.py:66-107 | draws one cell per entry (row `i / 10`, column `i % 10`, its face and its program); weights no row for an empty list, else rows `0` to `len / 10` in order |
| LauncherV2.AppLauncher.UpdateButtonsDisplay | program_launcher2.py:79-112 | same grid and weights as the first version |
| Display.Layout | program_launcher.py:71-105 | an empty list returns before the loop with no cells and no weighted row; otherwise the row/column loop puts button `i` at row `i / 10`, column `i % 10` (the column it weights), with the icon face when it has a handle and the label face otherwise, and the weighted rows are `0` to `len / 10`, in order |
| Display.PlacementIsRowMajor | program_launcher.py:96-103 | columns stay below ten, the index is recovered as `row * 10 + col`, no two buttons share a cell, and earlier buttons come first in row-major order |
| Display.Label | program_launcher.py:91 | a one-character text: `?` for an empty name, else the upper-cased first character (never a lower-case ASCII letter) |
| Display.FaceOf | program_launcher.py:83-94 | the icon face is shown exactly when the entry has a handle, and it shows that handle; otherwise the label of its name is shown |
| Text.UpperChar | program_launcher.py:91 | maps `a`-`z` to `A`-`Z` and leaves every other character alone |
| Text.LastIndexOf | program_launcher.py:134 | the index of the last occurrence, or -1; no later character is that one |
| Text.Basename | program_launcher.py:134 | the base name is a suffix of the path without `/`, preceded by a `/` unless it is the whole path |
| Text.Stem | program_launcher.py:134 | the default name is a prefix of the base name with no separator; it is shorter than the base name exactly when the base name has a dot with a non-dot before it, and then it stops at the last dot |
| Text.SplitStemSplits | program_launcher.py:181 | the stem is a prefix of the base name; the rest is empty or one dot-led extension without further dots, after a stem that is not only dots; and an extension is split off exactly when some dot has a non-dot before it |
| Text.StemSplitsBasename | program_launcher.py:134 | stem plus extension is the base name, the stem holds no separator, the extension is the part from the last dot, and it is non-empty exactly when some dot of the base name has a non-dot before it |
| Text.StemOfProgram | program_launcher.py:134 | a program at `/a/b/tool.bin` gets the default name `tool` |
| Text.StemOfDotFile | program_launcher.py:181 | a leading-dot name such as `.bashrc` has no extension and keeps its whole name |
| Text.SkipSpace | program_launcher2.py:252 | the leading-whitespace cut: everything before it is whitespace, and it is the end of the text or a non-whitespace character |
| Text.TrimSpace | program_launcher2.py:252 | the trailing-whitespace cut: everything after it is whitespace, and it follows a non-whitespace character or the start cut |
| Text.Strip | program_launcher2.py:252 | the result is no longer than the field and neither starts nor ends with whitespace |
| Text.StripIsTrimmedSlice | program_launcher2.py:252 | `strip()` is the slice between two whitespace-only ends, with no whitespace at either end of the result |
| Text.StripEmptyIffAllSpace | program_launcher2.py:252-253 | a stripped field is empty exactly when the field is all whitespace |
| Text.StripIdempotent | program_launcher2.py:252 | stripping twice is the same as stripping once |
| Entries.ApplyEdit | program_launcher2.py:252-262 | rejected exactly when the name or program path is all whitespace; otherwise sets the stripped name and program path, always ends with the stripped icon path, re-resolves the handle only under the three-way rule, and keeps "handle implies path" |
| Entries.NeedsReresolve | program_launcher2.py:258-260 | the re-resolve rule leaves an entry alone exactly when its icon path is the new one and it has a handle exactly when that path is non-empty |
| Entries.EmptyIconDropsHandle | program_launcher2.py:258-262 | a saved edit with a blank icon path leaves the entry without a handle |
| Entries.EditTwice | program_launcher2.py:251-262 | saving the same form again keeps the strings and changes nothing, unless a non-empty path still has no handle, in which case resolution is retried |
| Entries.EditAt | program_launcher2.py:256-262 | a rejected edit gives no list; a saved edit gives a list of the same length whose entry `index` is `ApplyEdit`'s result and whose other entries are unchanged |
| LauncherV2.AppLauncher.OnSave | program_launcher2.py:251-263 | a rejected edit changes nothing; a saved edit replaces only entry `index` with `ApplyEdit`'s result; length, other entries and current file are unchanged |
| LauncherV2.AppLauncher.ModifyButtonDialog | program_launcher2.py:273-277 | does nothing on an empty list, on a cancelled number or on a cancelled edit; otherwise edits entry `num - 1`, which exists because the number is in `[1, len]` |
| LauncherV2.AppLauncher.DeleteButtonDialog | program_launcher2.py:279-287 | removes exactly entry `num - 1` when the list is non-empty, a number was given and the deletion confirmed; otherwise nothing changes |
| Entries.RemoveAt | program_launcher2.py:287 | `del` drops exactly one element: earlier ones stay in place, later ones shift down by one, and the multiset loses only the removed element |
| Entries.DeleteMiddle | program_launcher2.py:284-287 | deleting B from [A, B, C] leaves [A, C] |
| Display.ListLines | program_launcher2.py:217 | the list has one line per button |
| Display.ButtonList | program_launcher2.py:216-217 | the prompt text is empty exactly when there are no buttons |
| Display.ListLinesAreNumbered | program_launcher2.py:217 | line `i` is the number `i + 1` (its digits read back to `i + 1`), ". " and the name, for every list |
| Display.ButtonListHasOneLinePerButton | program_launcher2.py:216-217 | the prompt is empty for no buttons; when no name contains a newline, splitting it at newlines gives back exactly the numbered lines, one per button |
| Text.Decimal | program_launcher2.py:217 | a number is written as a non-empty string of digits with no leading zero (except `0`) |
| Text.DecimalRoundTrip | program_launcher2.py:217 | reading back the written digits gives the number |
| Text.Join | program_launcher2.py:217 | no lines give `""`; otherwise the text starts with the first line, followed by the separator when more lines follow; `SplitJoin` is its inverse |
| Text.SplitJoin | program_launcher2.py:217 | splitting newline-joined lines that contain no newline gives the lines back |

## Left out

- Tkinter: widgets, menus, window titles, geometry, `minsize`, the text of
  message boxes, and the edit dialog's layout and centring. These are
  presentation only.
- `toggle_always_on_top` (program_launcher2.py). It only sets a window
  attribute.
- `_select_file_for_entry` (program_launcher2.py). It only copies a chosen
  file path into a text field; the model passes the field contents to
  `OnSave`.
- `_launch_program`: starting a process is operating-system I/O. Every
  failure is caught and shown, and the button list is never touched.
- Pillow decoding, first-frame selection and the 32x32 LANCZOS resize. These
  are foreign library calls, modelled as the `IconStore` lookup.
- `check_and_install_pillow` and the `__main__` block. They run the package
  installer and start the GUI.
- File I/O and JSON text. Reads and writes are abstract outcomes. A failed
  write is modelled as writing nothing; the truncation that `open(path, 'w')`
  may already have done is not modelled.
- A JSON root that is not an array is modelled only through what the
  loader's loop sees. A string root is iterated character by character and
  an object root key by key. Every item is then skipped with a warning, so
  the load succeeds with an empty list and, when opening, the path becomes
  current. The model expresses this as `Parsed` of one `JString` per
  character or key. A number, boolean or null root raises a TypeError that
  the loader does not catch; that case is not modelled.
- Record values that are not strings are not modelled. A number under
  `name` would be kept and fail later when the label is drawn. A
  non-string `program_path` (such as `null`) raises a TypeError in
  `os.path.basename`, because the stem default is computed even when
  `name` is present. That aborts the whole load and leaves the list as it
  was, instead of skipping the record. The model's objects map keys to
  strings.
- Windows path rules: `Text.Basename` splits at `/` only, and a drive
  prefix has no meaning.
- Text.UpperChar: only ASCII letters are upper-cased. Python's `upper()`
  also maps other letters, some of them to more than one character.
- The records are Dafny values, not shared dictionaries. No dictionary
  appears twice in the list, so assigning a field in place is modelled as
  replacing that list element.
- Re-prompting by the number dialog: `askinteger(minvalue=1, maxvalue=len)`
  only returns a number in range. This is the precondition of
  `ModifyButtonDialog` and `DeleteButtonDialog`.
- A file dialog that returns `()` on cancel is modelled as returning `""`.
  Both are false in Python.
- Repeated presses of the edit dialog's save button are not modelled
  together: each press is its own `OnSave` call.
- `update_buttons_display` also sets the window geometry and minimum size,
  and each column weight is set once per button in that button's cell
  column. These are presentation only; the model returns the cells and the
  rows weighted.
