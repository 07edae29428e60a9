/**
 * `parse_notebook_cells` of `ingestion/notebook_parser.py`: the first non-blank code cells
 * of a Jupyter notebook, joined with a separator. The notebook arrives already decoded:
 * `None` stands for text `json.loads` rejects.
 */
module NotebookParser {
  import opened Wrappers
  import opened Text

  /** A decoded JSON value (numbers are integers here). */
  datatype Json =
    | JNull
    | JBool(b: bool)
    | JNum(n: int)
    | JStr(s: string)
    | JArr(items: seq<Json>)
    | JObj(fields: map<string, Json>)

  const Separator := "\n\n# --- Next Cell ---\n\n"
  const DefaultMaxCells := 5

  /** The cell list iterated over. Only an object whose `"cells"` is a list gets this far:
      any other notebook or `"cells"` value either raises (a `TypeError` or
      `AttributeError` the handler turns into `None`) or yields no code cell, and so ends
      in `None` as well. */
  function CellList(notebook: Json): (r: Option<seq<Json>>)
    ensures r.Some? <==> notebook.JObj? && "cells" in notebook.fields && notebook.fields["cells"].JArr?
    ensures r.Some? ==> r.value == notebook.fields["cells"].items
  {
    if notebook.JObj? && "cells" in notebook.fields && notebook.fields["cells"].JArr?
    then Some(notebook.fields["cells"].items)
    else None
  }

  /** What the loop body makes of one cell. */
  datatype CellKind =
    | Raises        // not an object, or a source that is neither a string nor a list of strings
    | Other         // `cell_type` is not `"code"`
    | Code(source: string)

  /** `''.join(source)` for a list: `None` when an item is not a string (a `TypeError`). */
  function JoinedSource(items: seq<Json>): (r: Option<string>)
    ensures r.Some? <==> forall k :: 0 <= k < |items| ==> items[k].JStr?
  {
    if items == [] then Some("")
    else if !items[0].JStr? then None
    else match JoinedSource(items[1..])
      case None => None
      case Some(rest) => Some(items[0].s + rest)
  }

  /** `cell.get('cell_type') == 'code'`, then `cell.get('source', '')`, joined when a list. */
  function Classify(cell: Json): CellKind {
    if !cell.JObj? then Raises
    else if !("cell_type" in cell.fields && cell.fields["cell_type"] == JStr("code")) then Other
    else if "source" !in cell.fields then Code("")
    else match cell.fields["source"]
      case JStr(s) => Code(s)
      case JArr(items) => (match JoinedSource(items) case Some(s) => Code(s) case None => Raises)
      case _ => Raises
  }

  /** The loop from `acc` on: `None` when a cell raises, otherwise the kept sources. A code
      cell's source is kept when not blank, and the count is checked after every code cell. */
  function Scan(cells: seq<Json>, maxCells: int, acc: seq<string>): Option<seq<string>>
    decreases |cells|
  {
    if cells == [] then Some(acc)
    else match Classify(cells[0])
      case Raises => None
      case Other => Scan(cells[1..], maxCells, acc)
      case Code(s) =>
        var acc' := if Blank(s) then acc else acc + [s];
        if |acc'| >= maxCells then Some(acc') else Scan(cells[1..], maxCells, acc')
  }

  /** No kept cell gives `None`; otherwise the kept cells joined by the separator. */
  function Output(selected: seq<string>): Option<string> {
    if selected == [] then None else Some(Join(Separator, selected))
  }

  /** What `parse_notebook_cells(content, max_cells)` returns. */
  function NotebookCode(parsed: Option<Json>, maxCells: int): Option<string> {
    if parsed.None? then None
    else match CellList(parsed.value)
      case None => None
      case Some(cells) =>
        match Scan(cells, maxCells, [])
          case None => None
          case Some(selected) => Output(selected)
  }

  /** `parse_notebook_cells`, with its loop and early exits. */
  method ParseNotebookCells(parsed: Option<Json>, maxCells: int) returns (r: Option<string>)
    ensures r == NotebookCode(parsed, maxCells)
  {
    if parsed.None? {
      return None;
    }
    var cellList := CellList(parsed.value);
    if cellList.None? {
      return None;
    }
    var cells := cellList.value;
    var codeCells: seq<string> := [];
    var i := 0;
    while i < |cells|
      invariant 0 <= i <= |cells|
      invariant Scan(cells, maxCells, []) == Scan(cells[i..], maxCells, codeCells)
    {
      assert cells[i..][0] == cells[i] && cells[i..][1..] == cells[i + 1..];
      match Classify(cells[i]) {
        case Raises =>
          return None;
        case Other =>
        case Code(source) =>
          if !Blank(source) {
            codeCells := codeCells + [source];
          }
          if |codeCells| >= maxCells {
            return Output(codeCells);
          }
      }
      i := i + 1;
    }
    return Output(codeCells);
  }

  /** The sources of the non-blank code cells, in notebook order. */
  function Qualifying(cells: seq<Json>): seq<string>
    decreases |cells|
  {
    if cells == [] then []
    else
      var here := match Classify(cells[0]) case Code(s) => if Blank(s) then [] else [s] case _ => [];
      here + Qualifying(cells[1..])
  }

  /** No cell raises. */
  predicate NoRaise(cells: seq<Json>) {
    forall k :: 0 <= k < |cells| ==> !Classify(cells[k]).Raises?
  }

  /** Every entry of `Qualifying` is a non-blank source. */
  lemma {:induction false} QualifyingNonBlank(cells: seq<Json>)
    ensures forall k :: 0 <= k < |Qualifying(cells)| ==> !Blank(Qualifying(cells)[k])
    decreases |cells|
  {
    if cells != [] {
      QualifyingNonBlank(cells[1..]);
    }
  }

  /** With a positive limit the selection continues `acc` with the first qualifying sources:
      a prefix of them of at most `maxCells` entries, all of them when fewer. */
  lemma {:induction false} ScanSelects(cells: seq<Json>, maxCells: int, acc: seq<string>)
    requires |acc| < maxCells
    ensures var r := Scan(cells, maxCells, acc);
      r.Some? ==>
        && |acc| <= |r.value| <= maxCells
        && r.value <= acc + Qualifying(cells)
        && (|r.value| < maxCells ==> r.value == acc + Qualifying(cells))
    decreases |cells|
  {
    if cells != [] {
      var rest := cells[1..];
      match Classify(cells[0]) {
        case Raises =>
        case Other =>
          ScanSelects(rest, maxCells, acc);
        case Code(s) =>
          if Blank(s) {
            ScanSelects(rest, maxCells, acc);
          } else {
            ScanKeeps(cells, maxCells, acc, s);
          }
      }
    }
  }

  lemma {:induction false} ScanKeeps(cells: seq<Json>, maxCells: int, acc: seq<string>, s: string)
    requires |acc| < maxCells && cells != [] && Classify(cells[0]) == Code(s) && !Blank(s)
    ensures var r := Scan(cells, maxCells, acc);
      r.Some? ==>
        && |acc| <= |r.value| <= maxCells
        && r.value <= acc + Qualifying(cells)
        && (|r.value| < maxCells ==> r.value == acc + Qualifying(cells))
    decreases |cells|, 0
  {
    var rest := cells[1..];
    var acc' := acc + [s];
    assert Scan(cells, maxCells, acc) == if |acc'| >= maxCells then Some(acc') else Scan(rest, maxCells, acc');
    assert Qualifying(cells) == [s] + Qualifying(rest);
    assert acc + Qualifying(cells) == acc' + Qualifying(rest);
    if |acc'| < maxCells {
      ScanSelects(rest, maxCells, acc');
    } else {
      assert acc' <= acc' + Qualifying(rest);
    }
  }

  /** When no cell raises the loop always finishes. */
  lemma {:induction false} ScanTotal(cells: seq<Json>, maxCells: int, acc: seq<string>)
    requires NoRaise(cells)
    ensures Scan(cells, maxCells, acc).Some?
    decreases |cells|
  {
    if cells != [] {
      assert !Classify(cells[0]).Raises?;
      assert NoRaise(cells[1..]) by {
        forall k | 0 <= k < |cells[1..]|
          ensures !Classify(cells[1..][k]).Raises?
        {
          assert cells[1..][k] == cells[k + 1];
        }
      }
      match Classify(cells[0]) {
        case Other =>
          ScanTotal(cells[1..], maxCells, acc);
        case Code(s) =>
          ScanTotal(cells[1..], maxCells, if Blank(s) then acc else acc + [s]);
      }
    }
  }

  /** Every cell that would raise lies past the point where `maxCells` sources are kept, so
      the loop breaks before it reaches one. */
  predicate NoRaiseBeforeLimit(cells: seq<Json>, maxCells: int) {
    forall k :: 0 <= k < |cells| && Classify(cells[k]).Raises? ==> |Qualifying(cells[..k])| >= maxCells
  }

  /** The qualifying sources of a prefix of `k + 1` cells are those of the first cell, then
      those of the next `k`. */
  lemma QualifyingPrefix(cells: seq<Json>, k: nat)
    requires k < |cells|
    ensures Qualifying(cells[..k + 1]) == Qualifying([cells[0]]) + Qualifying(cells[1..][..k])
  {
    assert cells[..k + 1][0] == cells[0] && cells[..k + 1][1..] == cells[1..][..k];
  }

  /** When every cell that would raise lies past the limit, the loop finishes: it breaks
      before it reaches one. */
  lemma {:induction false} ScanTotalBeforeLimit(cells: seq<Json>, maxCells: int, acc: seq<string>)
    requires |acc| < maxCells
    requires forall k :: 0 <= k < |cells| && Classify(cells[k]).Raises? ==>
      |acc| + |Qualifying(cells[..k])| >= maxCells
    ensures Scan(cells, maxCells, acc).Some?
    decreases |cells|
  {
    if cells != [] {
      assert cells[..0] == [];
      var rest := cells[1..];
      match Classify(cells[0]) {
        case Other =>
          ScanRestBefore(cells, maxCells, acc, acc);
          ScanTotalBeforeLimit(rest, maxCells, acc);
        case Code(s) =>
          var acc' := if Blank(s) then acc else acc + [s];
          if |acc'| < maxCells {
            ScanRestBefore(cells, maxCells, acc, acc');
            ScanTotalBeforeLimit(rest, maxCells, acc');
          }
      }
    }
  }

  /** The condition of `ScanTotalBeforeLimit` carries over to the cells after the first. */
  lemma ScanRestBefore(cells: seq<Json>, maxCells: int, acc: seq<string>, acc': seq<string>)
    requires cells != [] && |acc'| == |acc| + |Qualifying([cells[0]])|
    requires forall k :: 0 <= k < |cells| && Classify(cells[k]).Raises? ==>
      |acc| + |Qualifying(cells[..k])| >= maxCells
    ensures forall k :: 0 <= k < |cells[1..]| && Classify(cells[1..][k]).Raises? ==>
      |acc'| + |Qualifying(cells[1..][..k])| >= maxCells
  {
    forall k | 0 <= k < |cells[1..]| && Classify(cells[1..][k]).Raises?
      ensures |acc'| + |Qualifying(cells[1..][..k])| >= maxCells
    {
      assert cells[1..][k] == cells[k + 1];
      QualifyingPrefix(cells, k);
    }
  }

  /** A cell that raises and is reached, the limit not yet met, makes the whole call fail. */
  lemma {:induction false} ScanRaises(cells: seq<Json>, maxCells: int, acc: seq<string>, k: nat)
    requires k < |cells| && Classify(cells[k]).Raises?
    requires |acc| + |Qualifying(cells[..k])| < maxCells
    ensures Scan(cells, maxCells, acc).None?
    decreases k
  {
    if k > 0 {
      var rest := cells[1..];
      assert cells[..k][0] == cells[0] && cells[..k][1..] == rest[..k - 1];
      assert rest[k - 1] == cells[k];
      assert Qualifying(cells[..k]) == Qualifying([cells[0]]) + Qualifying(rest[..k - 1]);
      match Classify(cells[0]) {
        case Raises =>
        case Other =>
          ScanRaises(rest, maxCells, acc, k - 1);
        case Code(s) =>
          var acc' := if Blank(s) then acc else acc + [s];
          assert |acc'| == |acc| + |Qualifying([cells[0]])|;
          ScanRaises(rest, maxCells, acc', k - 1);
      }
    }
  }

  /** With a limit of zero or less the loop stops at the first code cell, so at most one
      source is returned: the first qualifying one, or none when that cell is blank. */
  lemma {:induction false} ScanNonPositive(cells: seq<Json>, maxCells: int)
    requires maxCells <= 0
    ensures var r := Scan(cells, maxCells, []);
      r.Some? ==> |r.value| <= 1 && r.value <= Qualifying(cells)
    decreases |cells|
  {
    if cells != [] {
      match Classify(cells[0]) {
        case Raises =>
        case Other =>
          ScanNonPositive(cells[1..], maxCells);
        case Code(s) =>
          assert [] <= Qualifying(cells);
          if !Blank(s) {
            assert Qualifying(cells) == [s] + Qualifying(cells[1..]);
          }
      }
    }
  }

  /** Text that is not JSON, a notebook without a `"cells"` list and a notebook without a
      non-blank code cell all give `None`. */
  lemma Rejected(parsed: Option<Json>, maxCells: int)
    ensures parsed.None? ==> NotebookCode(parsed, maxCells).None?
    ensures parsed.Some? && CellList(parsed.value).None? ==> NotebookCode(parsed, maxCells).None?
    ensures parsed.Some? && CellList(parsed.value).Some? && Qualifying(CellList(parsed.value).value) == [] ==>
      NotebookCode(parsed, maxCells).None?
  {
    if parsed.Some? && CellList(parsed.value).Some? {
      var cells := CellList(parsed.value).value;
      if Qualifying(cells) == [] && maxCells >= 1 {
        ScanSelects(cells, maxCells, []);
      } else if Qualifying(cells) == [] {
        ScanNonPositive(cells, maxCells);
      }
    }
  }

  /** For a notebook with a cell list and a positive limit, where no cell reached before the
      limit raises, the result is the first `maxCells` non-blank code sources (all of them
      when fewer) joined by the separator. Cells past the limit may be anything. */
  lemma FirstQualifying(parsed: Option<Json>, maxCells: int)
    requires parsed.Some? && CellList(parsed.value).Some? && maxCells >= 1
    requires NoRaiseBeforeLimit(CellList(parsed.value).value, maxCells)
    ensures var q := Qualifying(CellList(parsed.value).value);
      var n := if |q| < maxCells then |q| else maxCells;
      NotebookCode(parsed, maxCells) == Output(q[..n])
  {
    var cells := CellList(parsed.value).value;
    ScanTotalBeforeLimit(cells, maxCells, []);
    ScanSelects(cells, maxCells, []);
    var q := Qualifying(cells);
    assert [] + q == q;
    var sel := Scan(cells, maxCells, []).value;
    var n := if |q| < maxCells then |q| else maxCells;
    assert sel == q[..n];
  }

  /** With the default limit, the first five non-blank code sources are kept. */
  lemma DefaultFirstFive(parsed: Option<Json>)
    requires parsed.Some? && CellList(parsed.value).Some? && NoRaiseBeforeLimit(CellList(parsed.value).value, DefaultMaxCells)
    ensures var q := Qualifying(CellList(parsed.value).value);
      NotebookCode(parsed, DefaultMaxCells) == Output(if |q| < 5 then q else q[..5])
  {
    FirstQualifying(parsed, DefaultMaxCells);
    var q := Qualifying(CellList(parsed.value).value);
    assert |q| < 5 ==> q[..|q|] == q;
  }

  /** A notebook whose second cell is not an object still gives its first code source when
      the limit is one: the loop breaks before it reaches that cell. */
  lemma JunkPastLimit()
    ensures var code := JObj(map["cell_type" := JStr("code"), "source" := JStr("x")]);
      NotebookCode(Some(JObj(map["cells" := JArr([code, JNum(7)])])), 1) == Some("x")
  {
    var code := JObj(map["cell_type" := JStr("code"), "source" := JStr("x")]);
    assert Classify(code) == Code("x");
    var cells := [code, JNum(7)];
    assert cells[0] == code && !IsSpace("x"[0]);
    assert [] + ["x"] == ["x"];
    assert Scan(cells, 1, []) == Some(["x"]);
  }

  /** The output starts with the first kept source and ends with the last one. */
  lemma OutputEnds(selected: seq<string>)
    requires selected != []
    ensures Output(selected).Some?
    ensures StartsWith(Output(selected).value, selected[0])
    ensures EndsWith(Output(selected).value, selected[|selected| - 1])
  {
    JoinEnds(Separator, selected);
  }

  /** A list source is its items concatenated. */
  lemma ListSource(cell: Json, parts: seq<string>)
    requires cell.JObj? && cell.fields.Keys == {"cell_type", "source"}
    requires cell.fields["cell_type"] == JStr("code")
    requires cell.fields["source"] == JArr(seq(|parts|, k requires 0 <= k < |parts| => JStr(parts[k])))
    ensures Classify(cell) == Code(Concat(parts))
  {
    SourceOfStrings(parts);
  }

  /** The strings of `parts` one after the other. */
  function Concat(parts: seq<string>): string {
    if parts == [] then "" else parts[0] + Concat(parts[1..])
  }

  lemma {:induction false} SourceOfStrings(parts: seq<string>)
    ensures JoinedSource(seq(|parts|, k requires 0 <= k < |parts| => JStr(parts[k]))) == Some(Concat(parts))
    decreases |parts|
  {
    var items := seq(|parts|, k requires 0 <= k < |parts| => JStr(parts[k]));
    if parts != [] {
      assert items[1..] == seq(|parts[1..]|, k requires 0 <= k < |parts[1..]| => JStr(parts[1..][k]));
      SourceOfStrings(parts[1..]);
    }
  }
}
