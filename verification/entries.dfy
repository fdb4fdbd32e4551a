/** One launcher button: the record `buttons_data` holds, and the rules by
    which the add dialog creates it, the edit dialog changes it and the
    delete dialog removes it. */
module Entries {
  import opened Wrappers
  import opened Text
  import opened Icons

  /** `{name, program_path, icon_path, tk_icon_ref}`; `icon` is the handle
      resolved from `iconPath`, never written to a file. */
  datatype Button = Button(name: string, programPath: string, iconPath: string, icon: Option<IconHandle>)

  /** Every entry the launcher builds holds a handle only when it has an
      icon path: the resolver never gives one for an empty path, and the
      edit rule re-resolves whenever an empty path meets a handle. */
  predicate IconNeedsPath(b: Button) {
    b.icon.Some? ==> b.iconPath != ""
  }

  // ---------------------------------------------------------------------------
  // Add
  // ---------------------------------------------------------------------------

  /** The record `add_button_dialog` appends, from the dialog answers: the
      typed name, the chosen program and the chosen icon (`""` when the icon
      dialog is cancelled). An empty name becomes the program's file stem;
      the handle is the resolution of the icon path. */
  function NewEntry(name: string, programPath: string, iconPath: string, store: IconStore): (b: Button)
    ensures b.programPath == programPath && b.iconPath == iconPath
    ensures name != "" ==> b.name == name
    ensures name == "" ==> b.name == Stem(programPath)
    ensures b.icon == ResolveIcon(Some(iconPath), store) && IconNeedsPath(b)
  {
    Button(if name != "" then name else Stem(programPath), programPath, iconPath,
           ResolveIcon(Some(iconPath), store))
  }

  // ---------------------------------------------------------------------------
  // Edit (on_save of the edit dialog)
  // ---------------------------------------------------------------------------

  /** The three text fields of the edit dialog, as typed. */
  datatype EditForm = EditForm(name: string, programPath: string, iconPath: string)

  /** The re-resolve rule of the edit dialog: the path changed, or a
      non-empty path has no handle (an earlier resolution failed and is
      retried), or an empty path still has a handle. The rule leaves an
      entry alone exactly when its path is the new one and it has a handle
      exactly when that path is non-empty. */
  function NeedsReresolve(b: Button, newIcon: string): (r: bool)
    ensures !r <==> b.iconPath == newIcon && (b.icon.Some? <==> newIcon != "")
  {
    b.iconPath != newIcon || (newIcon != "" && b.icon.None?) || (newIcon == "" && b.icon.Some?)
  }

  /** What saving the edit dialog does to the entry: nothing (`None`) when
      the name or the program path is blank after stripping; otherwise the
      stripped name and program path, and the stripped icon path, with the
      handle re-resolved only when `NeedsReresolve` says so. */
  function ApplyEdit(b: Button, form: EditForm, store: IconStore): (r: Option<Button>)
    ensures r.None? <==> AllSpace(form.name) || AllSpace(form.programPath)
    ensures r.Some? ==> r.value.name == Strip(form.name) && r.value.name != ""
    ensures r.Some? ==> r.value.programPath == Strip(form.programPath) && r.value.programPath != ""
    ensures r.Some? ==> r.value.iconPath == Strip(form.iconPath)
    ensures r.Some? && NeedsReresolve(b, Strip(form.iconPath)) ==> r.value.icon == ResolveIcon(Some(Strip(form.iconPath)), store)
    ensures r.Some? && !NeedsReresolve(b, Strip(form.iconPath)) ==> r.value.icon == b.icon
    ensures r.Some? && IconNeedsPath(b) ==> IconNeedsPath(r.value)
  {
    StripEmptyIffAllSpace(form.name);
    StripEmptyIffAllSpace(form.programPath);
    var newName, newProg, newIcon := Strip(form.name), Strip(form.programPath), Strip(form.iconPath);
    if newName == "" || newProg == "" then None
    else
      var renamed := b.(name := newName, programPath := newProg);
      if NeedsReresolve(renamed, newIcon)
      then Some(renamed.(iconPath := newIcon, icon := ResolveIcon(Some(newIcon), store)))
      else Some(renamed)
  }

  /** The list after saving the edit dialog for entry `index`: `None` when
      the edit is rejected, otherwise the list with only that entry
      replaced, the same length, and "handle implies path" kept. */
  function EditAt(bs: seq<Button>, index: nat, form: EditForm, store: IconStore): (r: Option<seq<Button>>)
    requires index < |bs|
    ensures r.None? <==> ApplyEdit(bs[index], form, store).None?
    ensures r.Some? ==> |r.value| == |bs| && r.value[index] == ApplyEdit(bs[index], form, store).value
    ensures r.Some? ==> forall k :: 0 <= k < |bs| && k != index ==> r.value[k] == bs[k]
  {
    match ApplyEdit(bs[index], form, store)
    case None => None
    case Some(b) => Some(bs[index := b])
  }

  /** After a saved edit with an empty icon path the entry shows no icon,
      whatever handle it had before. */
  lemma EmptyIconDropsHandle(b: Button, form: EditForm, store: IconStore)
    requires ApplyEdit(b, form, store).Some? && AllSpace(form.iconPath)
    ensures ApplyEdit(b, form, store).value.icon.None?
  {
    StripEmptyIffAllSpace(form.iconPath);
  }

  /** Saving the same form a second time changes nothing more, except that
      a path whose resolution failed is tried again. */
  lemma {:induction false} EditTwice(b: Button, form: EditForm, store: IconStore)
    requires ApplyEdit(b, form, store).Some?
    ensures var once := ApplyEdit(b, form, store).value;
      var twice := ApplyEdit(once, form, store);
      twice.Some? && twice.value.name == once.name && twice.value.programPath == once.programPath
      && twice.value.iconPath == once.iconPath
      && (once.icon.Some? || once.iconPath == "" ==> twice.value == once)
  {
    StripEmptyIffAllSpace(form.name);
    StripEmptyIffAllSpace(form.programPath);
  }

  // ---------------------------------------------------------------------------
  // Delete
  // ---------------------------------------------------------------------------

  /** `del s[i]`: the element at `i` is gone, those before it stay where they
      were, those after it move down by one, and nothing else is lost. */
  function RemoveAt<T>(s: seq<T>, i: nat): (r: seq<T>)
    requires i < |s|
    ensures |r| == |s| - 1
    ensures forall k :: 0 <= k < i ==> r[k] == s[k]
    ensures forall k :: i <= k < |r| ==> r[k] == s[k + 1]
    ensures multiset(r) + multiset{s[i]} == multiset(s)
  {
    assert s == s[..i] + [s[i]] + s[i + 1..];
    s[..i] + s[i + 1..]
  }

  /** Deleting the middle one of three entries leaves the outer two, in order. */
  lemma DeleteMiddle<T>(a: T, b: T, c: T)
    ensures RemoveAt([a, b, c], 1) == [a, c]
  {
  }
}
