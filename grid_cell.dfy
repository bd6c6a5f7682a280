/**
 * A grid cell's interaction state: its value, its focused and selected flags,
 * and keyboard navigation to a neighbouring cell. The grid service, change
 * detection and the DOM are collaborators whose calls the cell records in a
 * log; the grid's cell lookup is an oracle passed to the key handler.
 */
module GridCell {

  import opened Wrappers

  /** The data type of a column; only `Number` changes the cell's behaviour. */
  datatype DataType = String | Number | Boolean | Date

  /** The parts of the column definition the cell reads. */
  datatype Column = Column(field: string, index: int, editable: bool, dataType: DataType)

  /** The parts of the row the cell reads. */
  datatype Row = Row(gridID: string, index: int)

  /** A cell handed back by the grid's lookup. */
  datatype CellRef = CellRef(id: nat)

  /** One call the cell makes to a collaborator. */
  datatype Call =
    | GridUpdate(gridID: string)                        // the grid service's update(gridID, cell)
    | MarkForCheck                                      // a redraw request to change detection
    | SelectionEmitted(gridID: string)                  // the grid's onSelection event, carrying the cell
    | CellLookup(gridID: string, row: int, column: int) // the grid service's get_cell_by_index
    | FocusRequested(target: CellRef)                   // focus() on the found cell's element

  predicate EndsWith(s: string, suffix: string) {
    |suffix| <= |s| && s[|s| - |suffix|..] == suffix
  }

  /** The four navigation keys, each known by the suffix its key name must end with. */
  datatype Arrow = Up | Down | Right | Left

  function Suffix(a: Arrow): string {
    match a
    case Up => "ArrowUp"
    case Down => "ArrowDown"
    case Right => "Right"
    case Left => "Left"
  }

  /** A string ending with two suffixes ends, on the longer one, with the shorter. */
  lemma SuffixOfSuffix(s: string, x: string, y: string)
    requires EndsWith(s, x) && EndsWith(s, y) && |x| <= |y|
    ensures EndsWith(y, x)
  {
  }

  /** No key name ends with two of the suffixes, so the order of the tests is immaterial. */
  lemma SuffixesExclusive(key: string, a: Arrow, b: Arrow)
    requires EndsWith(key, Suffix(a)) && EndsWith(key, Suffix(b))
    ensures a == b
  {
    if |Suffix(a)| <= |Suffix(b)| {
      SuffixOfSuffix(key, Suffix(a), Suffix(b));
    } else {
      SuffixOfSuffix(key, Suffix(b), Suffix(a));
    }
  }

  lemma AllSuffixesExclusive(key: string)
    ensures forall a, b :: EndsWith(key, Suffix(a)) && EndsWith(key, Suffix(b)) ==> a == b
  {
    forall a, b | EndsWith(key, Suffix(a)) && EndsWith(key, Suffix(b)) ensures a == b {
      SuffixesExclusive(key, a, b);
    }
  }

  /**
   * The navigation key a key name denotes: the suffixes are tried in the
   * order up, down, right, left, and the first match wins.
   */
  function ArrowOf(key: string): (r: Option<Arrow>)
    ensures forall a :: r == Some(a) <==> EndsWith(key, Suffix(a))
  {
    AllSuffixesExclusive(key);
    if EndsWith(key, "ArrowUp") then
      Some(Up)
    else if EndsWith(key, "ArrowDown") then
      Some(Down)
    else if EndsWith(key, "Right") then
      Some(Right)
    else if EndsWith(key, "Left") then
      Some(Left)
    else
      None
  }

  function Abs(x: int): nat {
    if x < 0 then -x else x
  }

  /**
   * The (row, column) the key handler looks up from the cell at (row, column):
   * a vertical or horizontal neighbour for a navigation key, none otherwise.
   */
  function KeyTarget(key: string, row: int, column: int): Option<(int, int)> {
    match ArrowOf(key)
    case None => None
    case Some(Up) => Some((row - 1, column))
    case Some(Down) => Some((row + 1, column))
    case Some(Right) => Some((row, column + 1))
    case Some(Left) => Some((row, column - 1))
  }

  /**
   * The key handler looks up nothing for a key that is not a navigation key,
   * and otherwise the neighbour one step up, down, right or left, exactly as
   * the key name ends.
   */
  lemma KeyTargetIsNeighbour(key: string, row: int, column: int)
    ensures var t := KeyTarget(key, row, column);
      && (t.None? <==> forall a :: !EndsWith(key, Suffix(a)))
      && (t.Some? ==> Abs(t.value.0 - row) + Abs(t.value.1 - column) == 1)
      && (t.Some? ==> (t.value.0 < row <==> EndsWith(key, Suffix(Up))))
      && (t.Some? ==> (t.value.0 > row <==> EndsWith(key, Suffix(Down))))
      && (t.Some? ==> (t.value.1 > column <==> EndsWith(key, Suffix(Right))))
      && (t.Some? ==> (t.value.1 < column <==> EndsWith(key, Suffix(Left))))
  {
  }

  function Step(row: int, column: int, a: Arrow): (int, int) {
    match a
    case Up => (row - 1, column)
    case Down => (row + 1, column)
    case Right => (row, column + 1)
    case Left => (row, column - 1)
  }

  lemma TargetOf(key: string, a: Arrow)
    requires EndsWith(key, Suffix(a))
    ensures forall row, column :: KeyTarget(key, row, column) == Some(Step(row, column, a))
  {
  }

  /** The calls the key handler makes: one lookup of the target, then focus on what it finds. */
  function NavigationCalls(gridID: string, target: Option<(int, int)>,
                           resolve: (string, int, int) -> Option<CellRef>): (calls: seq<Call>)
    ensures target.None? ==> calls == []
    ensures target.Some? ==> |calls| >= 1 && calls[0] == CellLookup(gridID, target.value.0, target.value.1)
    ensures target.Some? ==> (|calls| == 2 <==> resolve(gridID, target.value.0, target.value.1).Some?)
    ensures |calls| == 2 ==> calls[1] == FocusRequested(resolve(gridID, target.value.0, target.value.1).value)
    ensures |calls| <= 2
  {
    match target
    case None => []
    case Some((r, c)) =>
      [CellLookup(gridID, r, c)] + match resolve(gridID, r, c) {
        case None => []
        case Some(cell) => [FocusRequested(cell)]
      }
  }

  /** The `aria-describedby` of a cell: the grid's id, a dash, the column's field. */
  function DescribedById(gridID: string, field: string): (r: string)
    ensures |r| == |gridID| + 1 + |field|
    ensures r[..|gridID|] == gridID && r[|gridID|] == '-' && r[|gridID| + 1..] == field
  {
    gridID + "-" + field
  }

  /** For grid ids without a dash, the description names one grid and one field. */
  lemma DescribedByInjective(g1: string, f1: string, g2: string, f2: string)
    requires '-' !in g1 && '-' !in g2
    requires DescribedById(g1, f1) == DescribedById(g2, f2)
    ensures g1 == g2 && f1 == f2
  {
  }

  class Cell<V> {
    const column: Column
    const row: Row
    var value: V
    var isFocused: bool
    var isSelected: bool
    /** Every call made to a collaborator so far, oldest first. */
    var calls: seq<Call>

    constructor (column: Column, row: Row, value: V)
      ensures this.column == column && this.row == row && this.value == value
      ensures !isFocused && !isSelected && calls == []
    {
      this.column := column;
      this.row := row;
      this.value := value;
      isFocused := false;
      isSelected := false;
      calls := [];
    }

    function GridID(): string {
      row.gridID
    }

    function RowIndex(): int {
      row.index
    }

    function ColumnIndex(): int {
      column.index
    }

    /** `aria-readonly`: the column is not editable. */
    function Readonly(): bool {
      !column.editable
    }

    function DescribedBy(): string {
      DescribedById(row.gridID, column.field)
    }

    /** The numeric-cell style applies to number columns. */
    function ApplyNumberCSSClass(): bool {
      column.dataType == Number
    }

    /** The combined state shown as `aria-selected` and the selected style. */
    function Focused(): bool
      reads this
    {
      isFocused || isSelected
    }

    function Selected(): bool
      reads this
    {
      isSelected
    }

    /** The `value` setter: stores the value, asks the grid to update, requests a redraw. */
    method SetValue(val: V)
      modifies this`value, this`calls
      ensures value == val
      ensures calls == old(calls) + [GridUpdate(GridID()), MarkForCheck]
    {
      value := val;
      calls := calls + [GridUpdate(GridID())];
      calls := calls + [MarkForCheck];
    }

    /** The `focused` setter: changes only the focus flag, then requests a redraw. */
    method SetFocused(val: bool)
      modifies this`isFocused, this`calls
      ensures isFocused == val && Focused() == (val || isSelected)
      ensures calls == old(calls) + [MarkForCheck]
    {
      isFocused := val;
      calls := calls + [MarkForCheck];
    }

    /** The `selected` setter: changes only the selection flag, then requests a redraw. */
    method SetSelected(val: bool)
      modifies this`isSelected, this`calls
      ensures isSelected == val && Selected() == val && Focused() == (isFocused || val)
      ensures calls == old(calls) + [MarkForCheck]
    {
      isSelected := val;
      calls := calls + [MarkForCheck];
    }

    /** Focus: the cell becomes focused and selected, and tells its grid once. */
    method OnFocus()
      modifies this`isFocused, this`isSelected, this`calls
      ensures isFocused && isSelected && Focused()
      ensures calls == old(calls) + [SelectionEmitted(GridID())]
    {
      isFocused := true;
      isSelected := true;
      calls := calls + [SelectionEmitted(GridID())];
    }

    /** Blur: both flags are cleared and no one is told. */
    method OnBlur()
      modifies this`isFocused, this`isSelected
      ensures !isFocused && !isSelected && !Focused()
    {
      isFocused := false;
      isSelected := false;
    }

    /**
     * A key press: a navigation key looks up the neighbouring cell through
     * `resolve` and moves the focus to it when there is one; any other key
     * does nothing. The cell's own flags do not change.
     */
    method OnKeyDown(key: string, resolve: (string, int, int) -> Option<CellRef>)
      modifies this`calls
      ensures calls == old(calls) + NavigationCalls(GridID(), KeyTarget(key, RowIndex(), ColumnIndex()), resolve)
    {
      ghost var target := KeyTarget(key, RowIndex(), ColumnIndex());
      if EndsWith(key, "ArrowUp") {
        assert target == Some((RowIndex() - 1, ColumnIndex())) by { TargetOf(key, Up); }
        HandleKeyboardNavigation(RowIndex() - 1, ColumnIndex(), resolve);
      } else if EndsWith(key, "ArrowDown") {
        assert target == Some((RowIndex() + 1, ColumnIndex())) by { TargetOf(key, Down); }
        HandleKeyboardNavigation(RowIndex() + 1, ColumnIndex(), resolve);
      } else if EndsWith(key, "Right") {
        assert target == Some((RowIndex(), ColumnIndex() + 1)) by { TargetOf(key, Right); }
        HandleKeyboardNavigation(RowIndex(), ColumnIndex() + 1, resolve);
      } else if EndsWith(key, "Left") {
        assert target == Some((RowIndex(), ColumnIndex() - 1)) by { TargetOf(key, Left); }
        HandleKeyboardNavigation(RowIndex(), ColumnIndex() - 1, resolve);
      } else {
        assert target == None by { assert ArrowOf(key) == None; }
      }
    }

    /** Looks up the cell at (rowIndex, columnIndex) and focuses it when found. */
    method HandleKeyboardNavigation(rowIndex: int, columnIndex: int, resolve: (string, int, int) -> Option<CellRef>)
      modifies this`calls
      ensures calls == old(calls) + NavigationCalls(GridID(), Some((rowIndex, columnIndex)), resolve)
    {
      calls := calls + [CellLookup(GridID(), rowIndex, columnIndex)];
      var target := resolve(GridID(), rowIndex, columnIndex);
      if target.Some? {
        calls := calls + [FocusRequested(target.value)];
      }
    }
  }
}
