/** What `update_buttons_display` draws, and the numbered list the modify
    and delete dialogs show: the arithmetic and text of the presentation,
    without the widgets. */
module Display {
  import opened Wrappers
  import opened Text
  import opened Icons
  import opened Entries

  /** `max_cols_buttons`: buttons per row before the grid wraps. */
  const MaxColumns: nat := 10

  // ---------------------------------------------------------------------------
  // Button faces
  // ---------------------------------------------------------------------------

  /** The text of a button without an icon: the first character of the name
      in upper case, or `?` for an empty name. It is always one character
      and never a lower-case ASCII letter. */
  function Label(name: string): (r: string)
    ensures |r| == 1 && !IsAsciiLower(r[0])
    ensures name == "" ==> r == "?"
    ensures name != "" ==> r[0] == UpperChar(name[0])
  {
    if name != "" then [UpperChar(name[0])] else "?"
  }

  /** A button shows its icon when it has a handle, its label otherwise. */
  datatype Face = IconFace(handle: IconHandle) | TextFace(text: string)

  function FaceOf(b: Button): (f: Face)
    ensures f.IconFace? <==> b.icon.Some?
    ensures f.IconFace? ==> f.handle == b.icon.value
    ensures f.TextFace? ==> f.text == Label(b.name)
  {
    if b.icon.Some? then IconFace(b.icon.value) else TextFace(Label(b.name))
  }

  // ---------------------------------------------------------------------------
  // The grid
  // ---------------------------------------------------------------------------

  /** One drawn button: its grid cell, its face and the program it launches. */
  datatype Cell = Cell(row: nat, col: nat, face: Face, program: string)

  /** Where the button at position `i` of the list goes: rows of
      `MaxColumns`, filled left to right. */
  function Row(i: nat): nat { i / MaxColumns }
  function Col(i: nat): nat { i % MaxColumns }

  /** Placement is a bijection onto the cells of rows of ten: the column is
      below ten, the position can be read back from the cell, and two
      positions never share a cell. Earlier positions come first in
      row-major order. */
  lemma PlacementIsRowMajor(i: nat, j: nat)
    ensures Col(i) < MaxColumns && Row(i) * MaxColumns + Col(i) == i
    ensures i != j ==> (Row(i), Col(i)) != (Row(j), Col(j))
    ensures i < j ==> Row(i) < Row(j) || (Row(i) == Row(j) && Col(i) < Col(j))
  {
  }

  /** `update_buttons_display`: an empty list draws nothing and weights no
      row. Otherwise the loop steps `row` and `col` along the list, `col`
      wrapping to 0 and `row` moving down after ten buttons: button `i` lands
      in row `i / 10`, column `i % 10` (the column it also weights), with its
      face and its program. `weightedRows` lists the rows given weight, in
      order: each row as it fills up, then the row the loop ends on, which
      is empty when the length is a multiple of ten. */
  method Layout(bs: seq<Button>) returns (cells: seq<Cell>, weightedRows: seq<nat>)
    ensures |cells| == |bs|
    ensures forall i :: 0 <= i < |bs| ==>
      cells[i] == Cell(Row(i), Col(i), FaceOf(bs[i]), bs[i].programPath)
    ensures bs == [] ==> weightedRows == []
    ensures bs != [] ==> |weightedRows| == |bs| / MaxColumns + 1
    ensures forall k :: 0 <= k < |weightedRows| ==> weightedRows[k] == k
  {
    if bs == [] {
      return [], [];
    }
    cells, weightedRows := [], [];
    var row, col := 0, 0;
    for i := 0 to |bs|
      invariant |cells| == i
      invariant row == Row(i) && col == Col(i)
      invariant forall k :: 0 <= k < i ==> cells[k] == Cell(Row(k), Col(k), FaceOf(bs[k]), bs[k].programPath)
      invariant |weightedRows| == row
      invariant forall k :: 0 <= k < |weightedRows| ==> weightedRows[k] == k
    {
      var b := bs[i];
      var face := if b.icon.Some? then IconFace(b.icon.value) else TextFace(Label(b.name));
      cells := cells + [Cell(row, col, face, b.programPath)];
      col := col + 1;
      if col >= MaxColumns {
        weightedRows := weightedRows + [row];
        col := 0;
        row := row + 1;
      }
    }
    weightedRows := weightedRows + [row];
  }

  // ---------------------------------------------------------------------------
  // The numbered list of `_get_button_list_for_dialog`
  // ---------------------------------------------------------------------------

  /** Line `i` of the list: the 1-based number, a dot, a space, the name. */
  function ListLine(i: nat, name: string): string {
    Decimal(i + 1) + ". " + name
  }

  function ListLines(bs: seq<Button>): (r: seq<string>)
    ensures |r| == |bs|
  {
    seq(|bs|, i requires 0 <= i < |bs| => ListLine(i, bs[i].name))
  }

  /** The prompt text listing the buttons, one line each, joined by newlines. */
  function ButtonList(bs: seq<Button>): (r: string)
    ensures r == "" <==> bs == []
  {
    Join(ListLines(bs), '\n')
  }

  /** Line `i` of the list is the number `i + 1`, written in digits that
      read back to `i + 1`, followed by ". " and the name. */
  lemma {:induction false} ListLinesAreNumbered(bs: seq<Button>)
    ensures forall i :: 0 <= i < |bs| ==>
      ListLines(bs)[i] == Decimal(i + 1) + ". " + bs[i].name
      && AllDigits(Decimal(i + 1)) && DecimalValue(Decimal(i + 1)) == i + 1
  {
    forall i | 0 <= i < |bs|
      ensures ListLines(bs)[i] == Decimal(i + 1) + ". " + bs[i].name
      ensures DecimalValue(Decimal(i + 1)) == i + 1
    {
      DecimalRoundTrip(i + 1);
    }
  }

  /** The list text is empty for no buttons; when no name contains a
      newline, it has exactly one line per button, the numbered lines of
      `ListLinesAreNumbered`. */
  lemma ButtonListHasOneLinePerButton(bs: seq<Button>)
    ensures bs == [] ==> ButtonList(bs) == ""
    ensures bs != [] && (forall k :: 0 <= k < |bs| ==> '\n' !in bs[k].name) ==>
      Split(ButtonList(bs), '\n') == ListLines(bs)
  {
    var lines := ListLines(bs);
    if bs != [] && (forall k :: 0 <= k < |bs| ==> '\n' !in bs[k].name) {
      forall k | 0 <= k < |lines| ensures '\n' !in lines[k] {
        var d := Decimal(k + 1);
        assert '\n' !in d && '\n' !in ". " && '\n' !in bs[k].name;
        assert lines[k] == d + ". " + bs[k].name;
      }
      SplitJoin(lines, '\n');
    }
  }
}
