/**
 * Bootstrap grid layouts, after xplore/layouts.py.
 *
 * A row is a `Div` of class `row` whose children are columns: a `Div` of
 * class `col-lg-<width>` holding one slot, an empty `Div` whose id is
 * `content-<k>`.  Slots are numbered consecutively across the rows of a
 * page, and content is put into the layout by replacing slots by id.
 */
module Layouts {
  import opened Base
  import opened Errors
  import opened Tree
  import opened Format

  // ---------------------------------------------------------------------
  // Column widths
  // ---------------------------------------------------------------------

  /** `col in VALID_COLS`, where `VALID_COLS = set(range(1, 13))`. */
  predicate ValidCol(w: int) {
    1 <= w <= 12
  }

  /** `[col for col in cols if col not in VALID_COLS]`: the offending widths, in order. */
  function BadCols(cols: seq<int>): seq<int> {
    if cols == [] then []
    else (if ValidCol(cols[0]) then [] else [cols[0]]) + BadCols(cols[1..])
  }

  /** The offending widths are exactly the invalid widths of `cols`; none means all are valid. */
  lemma {:induction false} BadColsSpec(cols: seq<int>)
    ensures |BadCols(cols)| <= |cols|
    ensures forall w :: w in BadCols(cols) <==> w in cols && !ValidCol(w)
    ensures BadCols(cols) == [] <==> forall i :: 0 <= i < |cols| ==> ValidCol(cols[i])
  {
    if cols != [] {
      BadColsSpec(cols[1..]);
      assert forall w :: w in cols <==> w == cols[0] || w in cols[1..];
      assert forall i :: 1 <= i < |cols| ==> cols[i] == cols[1..][i - 1];
    }
  }

  function Sum(cols: seq<int>): int {
    if cols == [] then 0 else cols[0] + Sum(cols[1..])
  }

  /** Python's `[size] * n`. */
  function Repeat(size: int, n: nat): seq<int> {
    seq(n, _ => size)
  }

  lemma {:induction false} SumRepeat(size: int, n: nat)
    ensures Sum(Repeat(size, n)) == size * n
  {
    if n > 0 {
      assert Repeat(size, n)[1..] == Repeat(size, n - 1);
      SumRepeat(size, n - 1);
    }
  }

  /** `n` equal columns of width `12 / n` fill the twelve-column grid exactly, with valid widths. */
  lemma EvenColumns(n: nat)
    requires n > 0 && 12 % n == 0
    ensures Sum(Repeat(12 / n, n)) == 12
    ensures BadCols(Repeat(12 / n, n)) == []
  {
    BadColsSpec(Repeat(12 / n, n));
    SumRepeat(12 / n, n);
  }

  // ---------------------------------------------------------------------
  // Slots, columns and rows
  // ---------------------------------------------------------------------

  /** `'content-{}'.format(k)`. */
  function SlotId(k: int): string {
    "content-" + IntToString(k)
  }

  /** Whether an id belongs to the slot namespace. */
  predicate IsSlotKey(key: string) {
    StartsWith(key, "content-")
  }

  lemma SlotIdIsSlotKey(k: int)
    ensures IsSlotKey(SlotId(k))
  {
    assert SlotId(k)[..8] == "content-";
  }

  lemma SlotIdsDiffer(a: int, b: int)
    requires a != b
    ensures SlotId(a) != SlotId(b)
  {
    if SlotId(a) == SlotId(b) {
      assert SlotId(a)[8..] == IntToString(a);
      assert SlotId(b)[8..] == IntToString(b);
      IntToStringInjective(a, b);
    }
  }

  lemma FirstSlotId()
    ensures SlotId(1) == "content-1"
  {
    assert NatToString(1) == "1";
  }

  /** The empty `Div(id='content-{k}')` a column is built around. */
  function Slot(k: int): Node {
    Element("Div", Some(SlotId(k)), None, NoChildren)
  }

  /** Slots `content-start` .. `content-(start+n-1)`. */
  function Slots(start: int, n: nat): seq<Node> {
    seq(n, i => Slot(start + i))
  }

  function SlotIds(start: int, n: nat): seq<string> {
    seq(n, i => SlotId(start + i))
  }

  /** `'col-lg-{}'.format(w)`. */
  function ColClass(w: int): string {
    "col-lg-" + IntToString(w)
  }

  /** The width of a valid column can be read back from its class. */
  lemma ColClassWidth(w: int)
    requires ValidCol(w)
    ensures StartsWith(ColClass(w), "col-lg-")
    ensures ParseDigits(ColClass(w)[7..]) == w
  {
    assert ColClass(w)[7..] == NatToString(w);
    ParseNatToString(w);
  }

  function Column(w: int, cell: Node): Node {
    Element("Div", None, Some(ColClass(w)), One(cell))
  }

  function Columns(cols: seq<int>, cells: seq<Node>): seq<Node>
    requires |cols| == |cells|
  {
    seq(|cols|, i requires 0 <= i < |cols| => Column(cols[i], cells[i]))
  }

  /** `Div(className='row')`, before its columns are added. */
  const ROW: Node := Element("Div", None, Some("row"), NoChildren)

  /** The component `shell` with one column of width `cols[i]` around each `cells[i]`. */
  function RowOf(shell: Node, cols: seq<int>, cells: seq<Node>): Node
    requires |cols| == |cells|
  {
    shell.(children := Many(Columns(cols, cells)))
  }

  /** The row `_make_row(cols, start_id=start)` builds before content is added. */
  function GridRow(cols: seq<int>, start: int): (r: Node)
    ensures r.className == Some("row") && r.id == None
    ensures r.children.Many? && |r.children.items| == |cols|
    ensures forall i :: 0 <= i < |cols| ==>
      r.children.items[i].className == Some("col-lg-" + IntToString(cols[i])) &&
      r.children.items[i].children == One(Element("Div", Some("content-" + IntToString(start + i)), None, NoChildren))
  {
    var r := RowOf(ROW, cols, Slots(start, |cols|));
    assert forall i :: 0 <= i < |cols| ==> r.children.items[i] == Column(cols[i], Slot(start + i));
    r
  }

  // ---------------------------------------------------------------------
  // Content
  // ---------------------------------------------------------------------

  /**
   * What `_add_content` accepts: a single component, a mapping from ids
   * to components (its items in order), a sequence of components, or a
   * value of any other type.
   */
  datatype Content =
    | Component(node: Node)
    | Mapping(entries: seq<(string, Node)>)
    | Sequence(items: seq<Node>)
    | Opaque

  /** `layout[key] = v`, raising KeyError when no descendant has id `key`. */
  function SetId(layout: Node, key: string, v: Node): (r: Result<Node>)
    ensures r.Ok? <==> Contains(layout, key)
    ensures r.Err? ==> r.error == MissingId(key)
  {
    match Replace(layout, key, v)
    case Some(n) => Ok(n)
    case None => Err(MissingId(key))
  }

  /** `layout[key] = v` for each entry in turn; the first missing key raises. */
  function SetAll(layout: Node, entries: seq<(string, Node)>): Result<Node>
    decreases |entries|
  {
    if entries == [] then Ok(layout)
    else
      match SetId(layout, entries[0].0, entries[0].1)
      case Ok(next) => SetAll(next, entries[1..])
      case Err(e) => Err(e)
  }

  /** The only error setting entries raises is KeyError for one of their keys. */
  lemma {:induction false} SetAllMissing(layout: Node, entries: seq<(string, Node)>)
    ensures SetAll(layout, entries).Err? ==>
      exists k :: 0 <= k < |entries| && SetAll(layout, entries).error == MissingId(entries[k].0)
    decreases |entries|
  {
    if entries != [] {
      match SetId(layout, entries[0].0, entries[0].1)
      case Ok(next) =>
        SetAllMissing(next, entries[1..]);
        if SetAll(next, entries[1..]).Err? {
          var k :| 0 <= k < |entries[1..]| && SetAll(next, entries[1..]).error == MissingId(entries[1..][k].0);
          assert entries[1..][k] == entries[k + 1];
        }
      case Err(e) =>
    }
  }

  /** Setting a list of entries is setting its first part, then the rest. */
  lemma {:induction false} SetAllAppend(layout: Node, a: seq<(string, Node)>, b: seq<(string, Node)>)
    ensures SetAll(layout, a + b) ==
      (match SetAll(layout, a)
        case Ok(l) => SetAll(l, b)
        case Err(e) => Err(e))
    decreases |a|
  {
    if a == [] {
      assert a + b == b;
    } else {
      assert (a + b)[0] == a[0] && (a + b)[1..] == a[1..] + b;
      match SetId(layout, a[0].0, a[0].1)
      case Ok(next) => SetAllAppend(next, a[1..], b);
      case Err(e) =>
    }
  }

  /** The entries `content-js[k]: vs[k]`. */
  function SlotEntries(js: seq<int>, vs: seq<Node>): seq<(string, Node)>
    requires |js| == |vs|
  {
    seq(|js|, k requires 0 <= k < |js| => (SlotId(js[k]), vs[k]))
  }

  /** The `n` consecutive positions `a`, `a + 1`, ... */
  function Span(a: int, n: nat): seq<int> {
    seq(n, k => a + k)
  }

  /** The positions `1 .. n`, as `enumerate(..., 1)` numbers them. */
  function Range(n: nat): seq<int> {
    Span(1, n)
  }

  /** `enumerate(content)` as the entries `content-1: items[0]`, `content-2: items[1]`, ... */
  function Numbered(items: seq<Node>): seq<(string, Node)> {
    SlotEntries(Range(|items|), items)
  }

  /**
   * `_add_content(layout, content)`: the layout with `content` in place, or
   * the exception it raises.  (The source's error branch formats an
   * undefined name; the intended ValidationException is modelled.)
   */
  function Fill(layout: Node, content: Content): Result<Node> {
    match content
    case Component(c) => SetId(layout, "content-1", c)
    case Mapping(entries) => SetAll(layout, entries)
    case Sequence(items) => SetAll(layout, Numbered(items))
    case Opaque => Err(Validation(BadContent))
  }

  /** `if content is not None: _add_content(layout, content)`. */
  function FillIfAny(layout: Node, content: Option<Content>): Result<Node> {
    if content.None? then Ok(layout) else Fill(layout, content.value)
  }

  method AddContent(layout: Node, content: Content) returns (r: Result<Node>)
    ensures r == Fill(layout, content)
  {
    match content {
      case Component(c) =>
        r := SetId(layout, "content-1", c);
      case Mapping(entries) =>
        var cur := layout;
        var i := 0;
        while i < |entries|
          invariant 0 <= i <= |entries|
          invariant SetAll(cur, entries[i..]) == SetAll(layout, entries)
        {
          assert entries[i..][0] == entries[i] && entries[i..][1..] == entries[i + 1..];
          var (key, value) := entries[i];
          match Replace(cur, key, value) {
            case None => return Err(MissingId(key));
            case Some(next) => cur := next;
          }
          i := i + 1;
        }
        r := Ok(cur);
      case Sequence(items) =>
        ghost var entries := Numbered(items);
        var cur := layout;
        var i := 0;
        while i < |items|
          invariant 0 <= i <= |items|
          invariant SetAll(cur, entries[i..]) == SetAll(layout, entries)
        {
          assert entries[i..][0] == (SlotId(i + 1), items[i]) && entries[i..][1..] == entries[i + 1..];
          var key := SlotId(i + 1);
          match Replace(cur, key, items[i]) {
            case None => return Err(MissingId(key));
            case Some(next) => cur := next;
          }
          i := i + 1;
        }
        r := Ok(cur);
      case Opaque =>
        r := Err(Validation(BadContent));
    }
  }

  // ---------------------------------------------------------------------
  // _make_row and the fixed-width row helpers
  // ---------------------------------------------------------------------

  /** `_make_row(cols, content, start_id)`: `cols=None` means one full-width column. */
  function RowLayout(cols: Option<seq<int>>, content: Option<Content>, start: int): Result<Node> {
    var cs := cols.GetOr([12]);
    if BadCols(cs) != [] then Err(Validation(InvalidColumns(BadCols(cs))))
    else FillIfAny(GridRow(cs, start), content)
  }

  method MakeRow(cols: Option<seq<int>>, content: Option<Content>, start: int) returns (r: Result<Node>)
    ensures r == RowLayout(cols, content, start)
  {
    var cs := if cols.None? then [12] else cols.value;
    var bad := BadCols(cs);
    if bad != [] {
      return Err(Validation(InvalidColumns(bad)));
    }
    var colList: seq<Node> := [];
    for i := 0 to |cs|
      invariant colList == Columns(cs[..i], Slots(start, i))
    {
      ColumnsNext(cs, start, i);
      colList := colList + [Column(cs[i], Slot(start + i))];
    }
    assert cs[..|cs|] == cs;
    var row := ROW.(children := Many(colList));
    if content.Some? {
      r := AddContent(row, content.value);
    } else {
      r := Ok(row);
    }
  }

  lemma ColumnsNext(cs: seq<int>, start: int, i: nat)
    requires i < |cs|
    ensures Columns(cs[..i + 1], Slots(start, i + 1)) == Columns(cs[..i], Slots(start, i)) + [Column(cs[i], Slot(start + i))]
  {
  }

  /** `_make_row` with `n` equal columns, as the fixed-width helpers below call it. */
  function EvenRow(n: nat, content: Content): Result<Node>
    requires 1 <= n <= 12
  {
    RowLayout(Some(Repeat(12 / n, n)), Some(content), 1)
  }

  /** `one_col_row(content)`: columns `[12]`. */
  function OneColRow(content: Content): Result<Node> {
    EvenRow(1, content)
  }

  /** `two_col_row(content)`: columns `[6, 6]`. */
  function TwoColRow(content: Content): Result<Node> {
    EvenRow(2, content)
  }

  /** `three_col_row(content)`: columns `[4, 4, 4]`. */
  function ThreeColRow(content: Content): Result<Node> {
    EvenRow(3, content)
  }

  /** `four_col_row(content)`: columns `[3, 3, 3, 3]`. */
  function FourColRow(content: Content): Result<Node> {
    EvenRow(4, content)
  }

  /** `six_col_row(content)`: six columns of width 2. */
  function SixColRow(content: Content): Result<Node> {
    EvenRow(6, content)
  }

  /** `twelve_col_row(content)`: twelve columns of width 1. */
  function TwelveColRow(content: Content): Result<Node> {
    EvenRow(12, content)
  }

  /**
   * Each fixed-width helper (`n` in 1, 2, 3, 4, 6, 12) splits the grid into
   * `n` equal columns whose widths sum to 12, and given `n` slot-free
   * components puts the i-th in the i-th column.
   */
  lemma EvenRowFill(n: nat, items: seq<Node>)
    requires 1 <= n <= 12 && 12 % n == 0 && |items| == n
    requires forall i :: 0 <= i < |items| ==> SlotFree(items[i])
    ensures Sum(Repeat(12 / n, n)) == 12
    ensures EvenRow(n, Sequence(items)) == Ok(RowOf(ROW, Repeat(12 / n, n), items))
  {
    var cols := Repeat(12 / n, n);
    EvenColumns(n);
    var f := RowFrame(ROW, cols);
    assert EvenRow(n, Sequence(items)) == Fill(f.Build(Slots(1, f.Width())), Sequence(items));
    SequenceFillFits(f, items);
    assert items + Slots(n + 1, 0) == items;
  }

  // ---------------------------------------------------------------------
  // Pages: make_block_layout
  // ---------------------------------------------------------------------

  /** The number of columns, hence of slots, in a shape. */
  function TotalCols(shape: seq<seq<int>>): nat {
    if shape == [] then 0 else |shape[0]| + TotalCols(shape[1..])
  }

  lemma {:induction false} TotalColsAppend(a: seq<seq<int>>, b: seq<seq<int>>)
    ensures TotalCols(a + b) == TotalCols(a) + TotalCols(b)
  {
    if a == [] {
      assert a + b == b;
    } else {
      assert (a + b)[0] == a[0] && (a + b)[1..] == a[1..] + b;
      TotalColsAppend(a[1..], b);
    }
  }

  /** `H1(id='title')`. */
  const TITLE: Node := Element("H1", Some("title"), None, NoChildren)

  /** `P('Next', id='next-page')`. */
  const NEXT: Node := Element("P", Some("next-page"), None, Text("Next"))

  function HeaderRows(header: bool): seq<Node> {
    if header then [RowOf(ROW, [12], [TITLE])] else []
  }

  const NEXT_ROW: Node := RowOf(ROW, [12], [NEXT])

  /** One row per entry of `shape`, the cells handed out left to right, top to bottom. */
  function GridRows(shape: seq<seq<int>>, cells: seq<Node>): (r: seq<Node>)
    requires |cells| == TotalCols(shape)
    ensures |r| == |shape|
    decreases |shape|
  {
    if shape == [] then []
    else [RowOf(ROW, shape[0], cells[..|shape[0]|])] + GridRows(shape[1..], cells[|shape[0]|..])
  }

  lemma {:induction false} GridRowsAppend(a: seq<seq<int>>, b: seq<seq<int>>, ca: seq<Node>, cb: seq<Node>)
    requires |ca| == TotalCols(a) && |cb| == TotalCols(b)
    ensures |ca + cb| == TotalCols(a + b)
    ensures GridRows(a + b, ca + cb) == GridRows(a, ca) + GridRows(b, cb)
    decreases |a|
  {
    TotalColsAppend(a, b);
    if a == [] {
      assert a + b == b && ca + cb == cb;
    } else {
      var w := |a[0]|;
      TotalColsAppend(a[1..], b);
      GridRowsAppend(a[1..], b, ca[w..], cb);
      GridRowsAppendStep(a, b, ca, cb);
    }
  }

  lemma GridRowsAppendStep(a: seq<seq<int>>, b: seq<seq<int>>, ca: seq<Node>, cb: seq<Node>)
    requires a != [] && |ca| == TotalCols(a) && |cb| == TotalCols(b)
    requires |ca + cb| == TotalCols(a + b)
    requires |ca[|a[0]|..] + cb| == TotalCols(a[1..] + b)
    requires GridRows(a[1..] + b, ca[|a[0]|..] + cb) == GridRows(a[1..], ca[|a[0]|..]) + GridRows(b, cb)
    ensures GridRows(a + b, ca + cb) == GridRows(a, ca) + GridRows(b, cb)
  {
    var w := |a[0]|;
    var head := RowOf(ROW, a[0], ca[..w]);
    GridRowsConsAppend(a, b, ca, cb);
    GridRowsCons(a, ca);
    ConsAppend(head, GridRows(a[1..], ca[w..]), GridRows(b, cb));
  }

  /** The first row of `a + b` is the first row of `a`. */
  lemma GridRowsConsAppend(a: seq<seq<int>>, b: seq<seq<int>>, ca: seq<Node>, cb: seq<Node>)
    requires a != [] && |ca| == TotalCols(a) && |cb| == TotalCols(b)
    requires |ca + cb| == TotalCols(a + b)
    requires |ca[|a[0]|..] + cb| == TotalCols(a[1..] + b)
    ensures GridRows(a + b, ca + cb) ==
      [RowOf(ROW, a[0], ca[..|a[0]|])] + GridRows(a[1..] + b, ca[|a[0]|..] + cb)
  {
    var w := |a[0]|;
    var ab, cc := a + b, ca + cb;
    assert ab[0] == a[0] && ab[1..] == a[1..] + b;
    assert cc[..w] == ca[..w] && cc[w..] == ca[w..] + cb;
    GridRowsCons(ab, cc);
  }

  lemma GridRowsCons(shape: seq<seq<int>>, cells: seq<Node>)
    requires shape != [] && |cells| == TotalCols(shape)
    ensures GridRows(shape, cells) ==
      [RowOf(ROW, shape[0], cells[..|shape[0]|])] + GridRows(shape[1..], cells[|shape[0]|..])
  {
  }

  lemma ConsAppend<T>(x: T, ys: seq<T>, zs: seq<T>)
    ensures [x] + (ys + zs) == ([x] + ys) + zs
  {
  }

  /** The page: the optional header row, the grid rows, and the row linking to the next page. */
  function PageOf(header: bool, shape: seq<seq<int>>, cells: seq<Node>): Node
    requires |cells| == TotalCols(shape)
  {
    Element("Div", None, None, Many(HeaderRows(header) + GridRows(shape, cells) + [NEXT_ROW]))
  }

  /** The bad widths of the first row of `shape` that has any. */
  function ShapeError(shape: seq<seq<int>>): Option<seq<int>> {
    if shape == [] then None
    else if BadCols(shape[0]) != [] then Some(BadCols(shape[0]))
    else ShapeError(shape[1..])
  }

  /** A shape is accepted exactly when every width in every row is valid. */
  lemma {:induction false} ShapeErrorNone(shape: seq<seq<int>>)
    ensures ShapeError(shape).None? <==>
      forall k, i :: 0 <= k < |shape| && 0 <= i < |shape[k]| ==> ValidCol(shape[k][i])
  {
    if shape != [] {
      ShapeErrorNone(shape[1..]);
      BadColsSpec(shape[0]);
      if BadCols(shape[0]) != [] {
        assert BadCols(shape[0])[0] in BadCols(shape[0]);
      } else {
        forall k, i | 0 <= k < |shape| && 0 <= i < |shape[k]| && ShapeError(shape[1..]).None?
          ensures ValidCol(shape[k][i])
        {
          if k > 0 {
            assert shape[1..][k - 1] == shape[k];
          }
        }
        if ShapeError(shape[1..]).Some? {
          var k, i :| 0 <= k < |shape[1..]| && 0 <= i < |shape[1..][k]| && !ValidCol(shape[1..][k][i]);
          assert shape[1..][k] == shape[k + 1];
        }
      }
    }
  }

  /** A rejected shape is rejected for the bad widths of its first row that has any. */
  lemma {:induction false} ShapeErrorFirst(shape: seq<seq<int>>)
    requires ShapeError(shape).Some?
    ensures exists k :: (0 <= k < |shape| && ShapeError(shape).value == BadCols(shape[k]) != [] &&
      forall j :: 0 <= j < k ==> BadCols(shape[j]) == [])
  {
    if BadCols(shape[0]) != [] {
      assert ShapeError(shape).value == BadCols(shape[0]);
    } else {
      ShapeErrorFirst(shape[1..]);
      var k :| 0 <= k < |shape[1..]| && ShapeError(shape[1..]).value == BadCols(shape[1..][k]) != [] &&
        forall j :: 0 <= j < k ==> BadCols(shape[1..][j]) == [];
      assert shape[1..][k] == shape[k + 1];
      forall j | 0 <= j < k + 1 ensures BadCols(shape[j]) == [] {
        if j > 0 {
          assert shape[1..][j - 1] == shape[j];
        }
      }
    }
  }

  lemma {:induction false} ShapeErrorAppend(a: seq<seq<int>>, b: seq<seq<int>>)
    ensures ShapeError(a + b) == if ShapeError(a).Some? then ShapeError(a) else ShapeError(b)
  {
    if a == [] {
      assert a + b == b;
    } else {
      assert (a + b)[0] == a[0] && (a + b)[1..] == a[1..] + b;
      ShapeErrorAppend(a[1..], b);
    }
  }

  /** Checking one more row of a shape whose earlier rows are valid. */
  lemma ShapeErrorNext(s: seq<seq<int>>, k: nat)
    requires k < |s| && ShapeError(s[..k]) == None
    ensures ShapeError(s[..k + 1]) == None <==> BadCols(s[k]) == []
    ensures BadCols(s[k]) != [] ==> ShapeError(s) == Some(BadCols(s[k]))
  {
    ShapeErrorStep(s, k);
    if BadCols(s[k]) != [] {
      ShapeErrorStop(s, k);
    }
  }

  lemma ShapeErrorStep(s: seq<seq<int>>, k: nat)
    requires k < |s| && ShapeError(s[..k]) == None
    ensures ShapeError(s[..k + 1]) == if BadCols(s[k]) == [] then None else Some(BadCols(s[k]))
  {
    assert s[..k + 1] == s[..k] + [s[k]];
    ShapeErrorAppend(s[..k], [s[k]]);
  }

  lemma ShapeErrorStop(s: seq<seq<int>>, k: nat)
    requires k < |s| && ShapeError(s[..k + 1]).Some?
    ensures ShapeError(s) == ShapeError(s[..k + 1])
  {
    assert s == s[..k + 1] + s[k + 1..];
    ShapeErrorAppend(s[..k + 1], s[k + 1..]);
  }

  /** `make_block_layout(shape, content, header)`; `shape=None` means `[[12]]`. */
  function BlockLayout(shape: Option<seq<seq<int>>>, content: Option<Content>, header: bool): Result<Node> {
    var s := shape.GetOr([[12]]);
    match ShapeError(s)
    case Some(bad) => Err(Validation(InvalidColumns(bad)))
    case None => FillIfAny(PageOf(header, s, Slots(1, TotalCols(s))), content)
  }

  method MakeBlockLayout(shape: Option<seq<seq<int>>>, content: Option<Content>, header: bool)
    returns (r: Result<Node>)
    ensures r == BlockLayout(shape, content, header)
  {
    var s := if shape.None? then [[12]] else shape.value;
    var rows: seq<Node> := [];
    if header {
      var title := MakeRow(Some([12]), Some(Component(TITLE)), 1);
      OneColumnComponent(TITLE);
      rows := [title.value];
    }
    var grid := MakeGridRows(s);
    if grid.Err? {
      return Err(grid.error);
    }
    var next := MakeRow(Some([12]), Some(Component(NEXT)), 1);
    OneColumnComponent(NEXT);
    rows := rows + grid.value + [next.value];
    var page := Element("Div", None, None, Many(rows));
    if content.Some? {
      r := AddContent(page, content.value);
    } else {
      r := Ok(page);
    }
  }

  /** The loop of `make_block_layout` over the rows of the shape, numbering the slots on. */
  method MakeGridRows(s: seq<seq<int>>) returns (r: Result<seq<Node>>)
    ensures ShapeError(s).Some? ==> r == Err(Validation(InvalidColumns(ShapeError(s).value)))
    ensures ShapeError(s).None? ==> r == Ok(GridRows(s, Slots(1, TotalCols(s))))
  {
    var rows: seq<Node> := [];
    var startId := 1;
    for k := 0 to |s|
      invariant startId == 1 + TotalCols(s[..k])
      invariant ShapeError(s[..k]) == None
      invariant rows == GridRows(s[..k], Slots(1, TotalCols(s[..k])))
    {
      ShapeErrorNext(s, k);
      var row := MakeRow(Some(s[k]), None, startId);
      if row.Err? {
        return Err(row.error);
      }
      assert row.value == GridRow(s[k], startId);
      GridRowsNext(s, k);
      rows := rows + [row.value];
      startId := startId + |s[k]|;
    }
    assert s[..|s|] == s;
    return Ok(rows);
  }

  /** `one_col_row(c)` for a component `c`: `c` in a single full-width column. */
  lemma OneColumnComponent(c: Node)
    ensures RowLayout(Some([12]), Some(Component(c)), 1) == Ok(RowOf(ROW, [12], [c]))
  {
    var f := RowFrame(ROW, [12]);
    ComponentFill(f, c);
    assert Slots(2, 0) == [];
    assert [c] + Slots(2, 0) == [c];
  }

  /** Appending one more grid row built from the next slots. */
  lemma GridRowsNext(s: seq<seq<int>>, k: nat)
    requires k < |s|
    ensures TotalCols(s[..k + 1]) == TotalCols(s[..k]) + |s[k]|
    ensures GridRows(s[..k + 1], Slots(1, TotalCols(s[..k + 1]))) ==
      GridRows(s[..k], Slots(1, TotalCols(s[..k]))) + [GridRow(s[k], 1 + TotalCols(s[..k]))]
  {
    var t := TotalCols(s[..k]);
    var w := |s[k]|;
    assert s[..k + 1] == s[..k] + [s[k]];
    assert TotalCols([s[k]]) == w by {
      assert [s[k]][1..] == [];
    }
    TotalColsAppend(s[..k], [s[k]]);
    assert Slots(1, t + w) == Slots(1, t) + Slots(1 + t, w);
    GridRowsAppend(s[..k], [s[k]], Slots(1, t), Slots(1 + t, w));
    assert GridRows([s[k]], Slots(1 + t, w)) == [GridRow(s[k], 1 + t)] by {
      assert [s[k]][1..] == [];
      assert Slots(1 + t, w)[..w] == Slots(1 + t, w);
      assert Slots(1 + t, w)[w..] == [];
    }
  }

  /** Row `k` of a page holds the slots numbered on from the columns of the rows above it. */
  lemma {:induction false} GridRowStart(shape: seq<seq<int>>, start: int, k: nat)
    requires k < |shape|
    ensures GridRows(shape, Slots(start, TotalCols(shape)))[k] == GridRow(shape[k], start + TotalCols(shape[..k]))
    decreases k
  {
    var w := |shape[0]|;
    var cells := Slots(start, TotalCols(shape));
    assert cells[..w] == Slots(start, w);
    assert cells[w..] == Slots(start + w, TotalCols(shape[1..]));
    if k > 0 {
      GridRowStart(shape[1..], start + w, k - 1);
      assert shape[..k] == [shape[0]] + shape[1..][..k - 1];
      TotalColsAppend([shape[0]], shape[1..][..k - 1]);
      assert TotalCols([shape[0]]) == w by {
        assert [shape[0]][1..] == [];
      }
    }
  }

  // ---------------------------------------------------------------------
  // Where the ids are
  // ---------------------------------------------------------------------

  lemma {:induction false} IdsInColumns(cols: seq<int>, cells: seq<Node>)
    requires |cols| == |cells|
    ensures IdsIn(Columns(cols, cells)) == IdsIn(cells)
    decreases |cells|
  {
    if cells != [] {
      var cs := Columns(cols, cells);
      assert cs[1..] == Columns(cols[1..], cells[1..]);
      IdsInColumns(cols[1..], cells[1..]);
      assert AllIds(cs[0]) == AllIds(cells[0]);
    }
  }

  lemma {:induction false} IdsInGridRows(shape: seq<seq<int>>, cells: seq<Node>)
    requires |cells| == TotalCols(shape)
    ensures IdsIn(GridRows(shape, cells)) == IdsIn(cells)
    decreases |shape|
  {
    if shape == [] {
      assert cells == [];
    } else {
      var w := |shape[0]|;
      IdsInGridRows(shape[1..], cells[w..]);
      IdsInFirstRow(shape, cells);
      assert cells == cells[..w] + cells[w..];
      IdsInAppend(cells[..w], cells[w..]);
    }
  }

  lemma IdsInFirstRow(shape: seq<seq<int>>, cells: seq<Node>)
    requires shape != [] && |cells| == TotalCols(shape)
    ensures IdsIn(GridRows(shape, cells)) ==
      IdsIn(cells[..|shape[0]|]) + IdsIn(GridRows(shape[1..], cells[|shape[0]|..]))
  {
    var w := |shape[0]|;
    var head := RowOf(ROW, shape[0], cells[..w]);
    assert GridRows(shape, cells) == [head] + GridRows(shape[1..], cells[w..]);
    IdsInColumns(shape[0], cells[..w]);
    assert [head][1..] == [];
    assert AllIds(head) == DescIds(head) == IdsIn(Columns(shape[0], cells[..w]));
    assert IdsIn([head]) == AllIds(head) + IdsIn([]);
    IdsInAppend([head], GridRows(shape[1..], cells[w..]));
  }

  lemma {:induction false} IdsInSlots(start: int, n: nat)
    ensures IdsIn(Slots(start, n)) == SlotIds(start, n)
    decreases n
  {
    if n > 0 {
      assert Slots(start, n)[1..] == Slots(start + 1, n - 1);
      assert AllIds(Slot(start)) == [SlotId(start)] + DescIds(Slot(start));
      assert SlotIds(start, n) == [SlotId(start)] + SlotIds(start + 1, n - 1);
      IdsInSlots(start + 1, n - 1);
    }
  }

  /** A single-column row contributes exactly the ids of the component in it. */
  lemma OneColumnIds(c: Node)
    ensures IdsIn([RowOf(ROW, [12], [c])]) == AllIds(c)
  {
    var row := RowOf(ROW, [12], [c]);
    IdsInColumns([12], [c]);
    assert [c][1..] == [] && [row][1..] == [];
    assert IdsIn([c]) == AllIds(c) + IdsIn([]);
    assert AllIds(row) == DescIds(row) == IdsIn(Columns([12], [c]));
    assert IdsIn([row]) == AllIds(row) + IdsIn([]);
  }

  /**
   * A row of given columns, or a whole page, with its slots still to be
   * filled: `Build(cells)` puts `cells[i]` where slot `i + 1` sits.
   */
  datatype Frame = RowFrame(shell: Node, cols: seq<int>) | PageFrame(header: bool, shape: seq<seq<int>>)
  {
    function Width(): nat {
      match this
      case RowFrame(_, cols) => |cols|
      case PageFrame(_, shape) => TotalCols(shape)
    }

    function Build(cells: seq<Node>): Node
      requires |cells| == Width()
    {
      match this
      case RowFrame(shell, cols) => RowOf(shell, cols, cells)
      case PageFrame(header, shape) => PageOf(header, shape, cells)
    }

    /** The ids the frame holds before and after its cells. */
    function IdsBefore(): seq<string> {
      if PageFrame? && header then ["title"] else []
    }

    function IdsAfter(): seq<string> {
      if PageFrame? then ["next-page"] else []
    }
  }

  /** The ids below a frame: its own fixed ones around those of its cells, in order. */
  lemma FrameIds(f: Frame, cells: seq<Node>)
    requires |cells| == f.Width()
    ensures DescIds(f.Build(cells)) == f.IdsBefore() + IdsIn(cells) + f.IdsAfter()
  {
    match f
    case RowFrame(shell, cols) =>
      IdsInColumns(cols, cells);
    case PageFrame(header, shape) =>
      PageFrameIds(header, shape, cells);
  }

  lemma PageFrameIds(header: bool, shape: seq<seq<int>>, cells: seq<Node>)
    requires |cells| == TotalCols(shape)
    ensures DescIds(PageOf(header, shape, cells)) ==
      PageFrame(header, shape).IdsBefore() + IdsIn(cells) + ["next-page"]
  {
    var hs := HeaderRows(header);
    var gs := GridRows(shape, cells);
    assert DescIds(PageOf(header, shape, cells)) == IdsIn(hs + gs + [NEXT_ROW]);
    IdsInAppend(hs + gs, [NEXT_ROW]);
    IdsInAppend(hs, gs);
    IdsInGridRows(shape, cells);
    FixedRowIds(header);
  }

  /** The header row holds only `title`; the last row holds only `next-page`. */
  lemma FixedRowIds(header: bool)
    ensures IdsIn(HeaderRows(header)) == PageFrame(header, []).IdsBefore()
    ensures IdsIn([NEXT_ROW]) == ["next-page"]
  {
    OneColumnIds(NEXT);
    assert AllIds(NEXT) == ["next-page"];
    if header {
      OneColumnIds(TITLE);
      assert AllIds(TITLE) == ["title"];
    }
  }

  /** The fixed ids of a frame are not slot ids. */
  lemma FixedIdsAreNotSlots(f: Frame)
    ensures forall k :: k in f.IdsBefore() + f.IdsAfter() ==> !IsSlotKey(k)
  {
    assert !IsSlotKey("title");
    assert "next-page"[..8][0] != "content-"[0];
  }

  /** A slot id is in a frame exactly when it is among its cells' ids. */
  lemma FrameContains(f: Frame, cells: seq<Node>, key: string)
    requires |cells| == f.Width() && IsSlotKey(key)
    ensures Contains(f.Build(cells), key) <==> key in IdsIn(cells)
  {
    FrameIds(f, cells);
    FixedIdsAreNotSlots(f);
  }

  // ---------------------------------------------------------------------
  // Replacing one slot
  // ---------------------------------------------------------------------

  lemma ColumnsReplace(cols: seq<int>, cells: seq<Node>, m: nat, key: string, v: Node)
    requires |cols| == |cells| && m < |cells|
    requires key !in IdsIn(cells[..m]) && cells[m].id == Some(key)
    ensures ReplaceIn(Columns(cols, cells), key, v) == Some(Columns(cols, cells[m := v]))
  {
    var cs := Columns(cols, cells);
    assert cs[..m] == Columns(cols[..m], cells[..m]);
    IdsInColumns(cols[..m], cells[..m]);
    InAllIds(cells[m], key);
    assert DescIds(cs[m]) == AllIds(cells[m]);
    ReplaceInWithin(cs, m, key, v);
    assert Replace(cs[m], key, v) == Some(Column(cols[m], v));
    assert cs[m := Column(cols[m], v)] == Columns(cols, cells[m := v]);
  }

  lemma {:induction false} GridReplace(shape: seq<seq<int>>, cells: seq<Node>, m: nat, key: string, v: Node)
    requires |cells| == TotalCols(shape) && m < |cells|
    requires key !in IdsIn(cells[..m]) && cells[m].id == Some(key)
    ensures ReplaceIn(GridRows(shape, cells), key, v) == Some(GridRows(shape, cells[m := v]))
    decreases |shape|
  {
    var w := |shape[0]|;
    if m < w {
      GridReplaceHead(shape, cells, m, key, v);
    } else {
      assert cells[..m] == cells[..w] + cells[w..][..m - w];
      IdsInAppend(cells[..w], cells[w..][..m - w]);
      GridReplace(shape[1..], cells[w..], m - w, key, v);
      GridReplaceTail(shape, cells, m, key, v);
    }
  }

  /** The slot is in the first row. */
  lemma GridReplaceHead(shape: seq<seq<int>>, cells: seq<Node>, m: nat, key: string, v: Node)
    requires shape != [] && |cells| == TotalCols(shape) && m < |shape[0]|
    requires key !in IdsIn(cells[..m]) && cells[m].id == Some(key)
    ensures ReplaceIn(GridRows(shape, cells), key, v) == Some(GridRows(shape, cells[m := v]))
  {
    var w := |shape[0]|;
    var head := RowOf(ROW, shape[0], cells[..w]);
    var tail := GridRows(shape[1..], cells[w..]);
    var cells' := cells[m := v];
    assert GridRows(shape, cells) == [head] + tail;
    assert cells[..w][..m] == cells[..m];
    ColumnsReplace(shape[0], cells[..w], m, key, v);
    IdsInMembers(cells[..w], key);
    assert key in AllIds(cells[..w][m]);
    IdsInColumns(shape[0], cells[..w]);
    assert [head][1..] == [];
    assert AllIds(head) == IdsIn(cells[..w]);
    assert cells'[..w] == cells[..w][m := v] && cells'[w..] == cells[w..];
    ReplaceInStops([head], tail, key, v);
  }

  /** The slot is in a later row: the first row is skipped. */
  lemma GridReplaceTail(shape: seq<seq<int>>, cells: seq<Node>, m: nat, key: string, v: Node)
    requires shape != [] && |cells| == TotalCols(shape) && |shape[0]| <= m < |cells|
    requires key !in IdsIn(cells[..|shape[0]|])
    requires ReplaceIn(GridRows(shape[1..], cells[|shape[0]|..]), key, v) ==
      Some(GridRows(shape[1..], cells[|shape[0]|..][m - |shape[0]| := v]))
    ensures ReplaceIn(GridRows(shape, cells), key, v) == Some(GridRows(shape, cells[m := v]))
  {
    var w := |shape[0]|;
    var head := RowOf(ROW, shape[0], cells[..w]);
    var tail := GridRows(shape[1..], cells[w..]);
    var cells' := cells[m := v];
    assert GridRows(shape, cells) == [head] + tail;
    IdsInColumns(shape[0], cells[..w]);
    assert [head][1..] == [];
    assert AllIds(head) == IdsIn(cells[..w]);
    assert cells'[..w] == cells[..w] && cells'[w..] == cells[w..][m - w := v];
    ReplaceInSkips([head], tail, key, v);
  }

  /** Replacing the first occurrence of a slot id among the cells of a frame replaces that cell. */
  lemma FrameReplace(f: Frame, cells: seq<Node>, m: nat, key: string, v: Node)
    requires |cells| == f.Width() && m < |cells| && IsSlotKey(key)
    requires key !in IdsIn(cells[..m]) && cells[m].id == Some(key)
    ensures Replace(f.Build(cells), key, v) == Some(f.Build(cells[m := v]))
  {
    match f
    case RowFrame(shell, cols) =>
      ColumnsReplace(cols, cells, m, key, v);
    case PageFrame(header, shape) =>
      PageFrameReplace(header, shape, cells, m, key, v);
  }

  /** `FrameReplace` for the frame of a page layout: neither the header rows nor the closing row hold a slot. */
  lemma PageFrameReplace(header: bool, shape: seq<seq<int>>, cells: seq<Node>, m: nat, key: string, v: Node)
    requires |cells| == PageFrame(header, shape).Width() && m < |cells| && IsSlotKey(key)
    requires key !in IdsIn(cells[..m]) && cells[m].id == Some(key)
    ensures Replace(PageFrame(header, shape).Build(cells), key, v) == Some(PageFrame(header, shape).Build(cells[m := v]))
  {
    var hs := HeaderRows(header);
    var gs := GridRows(shape, cells);
    var gs' := GridRows(shape, cells[m := v]);
    GridReplace(shape, cells, m, key, v);
    IdsInGridRows(shape, cells);
    IdsInMembers(cells, key);
    assert key in AllIds(cells[m]);
    ReplaceInStops(gs, [NEXT_ROW], key, v);
    FixedIdsAreNotSlots(PageFrame(header, shape));
    if header {
      OneColumnIds(TITLE);
    }
    assert AllIds(TITLE) == ["title"];
    ReplaceInSkips(hs, gs + [NEXT_ROW], key, v);
    assert hs + gs + [NEXT_ROW] == hs + (gs + [NEXT_ROW]);
    assert hs + gs' + [NEXT_ROW] == hs + (gs' + [NEXT_ROW]);
  }

  // ---------------------------------------------------------------------
  // Filling the slots of a frame
  // ---------------------------------------------------------------------

  /** A component none of whose ids lies in the slot namespace. */
  predicate SlotFree(n: Node) {
    forall k :: k in AllIds(n) ==> !IsSlotKey(k)
  }

  /** Each cell is still its own slot (`cells[i]` is slot `i + 1`) or holds slot-free content. */
  predicate Settled(cells: seq<Node>) {
    forall i :: 0 <= i < |cells| ==> cells[i] == Slot(i + 1) || SlotFree(cells[i])
  }

  /** In settled cells, a slot id can only be found at its own place. */
  lemma SlotOnlyInPlace(cells: seq<Node>, j: int, n: nat)
    requires Settled(cells) && n <= |cells| && SlotId(j) in IdsIn(cells[..n])
    ensures 1 <= j <= n && cells[j - 1] == Slot(j)
  {
    IdsInMembers(cells[..n], SlotId(j));
    var i :| 0 <= i < n && SlotId(j) in AllIds(cells[..n][i]);
    assert cells[..n][i] == cells[i];
    SlotIdIsSlotKey(j);
    assert cells[i] == Slot(i + 1);
    assert AllIds(Slot(i + 1)) == [SlotId(i + 1)];
    if j != i + 1 {
      SlotIdsDiffer(j, i + 1);
    }
  }

  /** The value the entries give position `j`: that of the first entry naming it. */
  function Lookup(js: seq<int>, vs: seq<Node>, j: int): Option<Node>
    requires |js| == |vs|
    decreases |js|
  {
    if js == [] then None
    else if js[0] == j then Some(vs[0])
    else Lookup(js[1..], vs[1..], j)
  }

  /** `cells` with `vs[k]` put at position `js[k] - 1` for each `k`. */
  function Put(cells: seq<Node>, js: seq<int>, vs: seq<Node>): seq<Node>
    requires |js| == |vs|
  {
    seq(|cells|, i requires 0 <= i < |cells| => Lookup(js, vs, i + 1).GetOr(cells[i]))
  }

  lemma {:induction false} LookupFound(js: seq<int>, vs: seq<Node>, k: nat)
    requires |js| == |vs| && k < |js|
    requires forall k, l :: 0 <= k < l < |js| ==> js[k] != js[l]
    ensures Lookup(js, vs, js[k]) == Some(vs[k])
    decreases |js|
  {
    if k > 0 {
      assert js[0] != js[k];
      assert js[1..][k - 1] == js[k] && vs[1..][k - 1] == vs[k];
      forall a, b | 0 <= a < b < |js[1..]| ensures js[1..][a] != js[1..][b] {
        assert js[1..][a] == js[a + 1] && js[1..][b] == js[b + 1];
      }
      LookupFound(js[1..], vs[1..], k - 1);
    }
  }

  lemma {:induction false} LookupMissing(js: seq<int>, vs: seq<Node>, j: int)
    requires |js| == |vs| && j !in js
    ensures Lookup(js, vs, j) == None
    decreases |js|
  {
    if js != [] {
      assert js[0] in js;
      assert forall x :: x in js[1..] ==> x in js;
      LookupMissing(js[1..], vs[1..], j);
    }
  }

  /** With distinct positions, each value lands at the place its position names. */
  lemma PutFilled(cells: seq<Node>, js: seq<int>, vs: seq<Node>, k: nat)
    requires |js| == |vs| && k < |js| && 1 <= js[k] <= |cells|
    requires forall k, l :: 0 <= k < l < |js| ==> js[k] != js[l]
    ensures Put(cells, js, vs)[js[k] - 1] == vs[k]
  {
    LookupFound(js, vs, k);
  }

  /** A cell no position names keeps its value. */
  lemma PutUntouched(cells: seq<Node>, js: seq<int>, vs: seq<Node>, i: nat)
    requires |js| == |vs| && i < |cells| && i + 1 !in js
    ensures Put(cells, js, vs)[i] == cells[i]
  {
    LookupMissing(js, vs, i + 1);
  }

  /** Putting the first value, then the others, is putting them all. */
  lemma PutStep(cells: seq<Node>, js: seq<int>, vs: seq<Node>)
    requires |js| == |vs| && js != [] && 1 <= js[0] <= |cells| && js[0] !in js[1..]
    ensures Put(cells[js[0] - 1 := vs[0]], js[1..], vs[1..]) == Put(cells, js, vs)
  {
    var cells' := cells[js[0] - 1 := vs[0]];
    forall i | 0 <= i < |cells|
      ensures Put(cells', js[1..], vs[1..])[i] == Put(cells, js, vs)[i]
    {
      if i == js[0] - 1 {
        LookupMissing(js[1..], vs[1..], js[0]);
      }
    }
  }

  /** Setting slot ids one by one in a settled frame puts each value in its slot's cell. */
  lemma {:induction false} SetSlots(f: Frame, cells: seq<Node>, js: seq<int>, vs: seq<Node>)
    requires |cells| == f.Width() && |js| == |vs| && Settled(cells)
    requires forall k :: 0 <= k < |js| ==> 1 <= js[k] <= |cells| && cells[js[k] - 1] == Slot(js[k])
    requires forall k, l :: 0 <= k < l < |js| ==> js[k] != js[l]
    requires forall k :: 0 <= k < |vs| ==> SlotFree(vs[k])
    ensures SetAll(f.Build(cells), SlotEntries(js, vs)) == Ok(f.Build(Put(cells, js, vs)))
    decreases |js|
  {
    if js != [] {
      var cells' := cells[js[0] - 1 := vs[0]];
      SetSlot(f, cells, js[0], vs[0]);
      SlotsStillReady(cells, js, vs);
      SetSlots(f, cells', js[1..], vs[1..]);
      SetSlotsStep(f, cells, js, vs);
    } else {
      assert Put(cells, js, vs) == cells;
    }
  }

  /** The entries after the first are those of the remaining positions. */
  lemma SlotEntriesTail(js: seq<int>, vs: seq<Node>)
    requires |js| == |vs| && js != []
    ensures SlotEntries(js, vs)[1..] == SlotEntries(js[1..], vs[1..])
  {
    var entries := SlotEntries(js, vs);
    forall k | 0 <= k < |js| - 1
      ensures entries[1..][k] == SlotEntries(js[1..], vs[1..])[k]
    {
      assert entries[1..][k] == entries[k + 1];
    }
  }

  /** Setting the first entry, then the others. */
  lemma SetSlotsStep(f: Frame, cells: seq<Node>, js: seq<int>, vs: seq<Node>)
    requires |cells| == f.Width() && |js| == |vs| && js != [] && 1 <= js[0] <= |cells|
    requires forall k, l :: 0 <= k < l < |js| ==> js[k] != js[l]
    requires SetId(f.Build(cells), SlotId(js[0]), vs[0]) == Ok(f.Build(cells[js[0] - 1 := vs[0]]))
    requires SetAll(f.Build(cells[js[0] - 1 := vs[0]]), SlotEntries(js[1..], vs[1..])) ==
      Ok(f.Build(Put(cells[js[0] - 1 := vs[0]], js[1..], vs[1..])))
    ensures SetAll(f.Build(cells), SlotEntries(js, vs)) == Ok(f.Build(Put(cells, js, vs)))
  {
    var entries := SlotEntries(js, vs);
    assert entries[0] == (SlotId(js[0]), vs[0]);
    SlotEntriesTail(js, vs);
    assert js[0] !in js[1..] by {
      assert forall k :: 1 <= k < |js| ==> js[1..][k - 1] == js[k];
    }
    PutStep(cells, js, vs);
  }

  /** Setting one slot id that is still in place in settled cells. */
  lemma SetSlot(f: Frame, cells: seq<Node>, j: int, v: Node)
    requires |cells| == f.Width() && Settled(cells) && SlotFree(v)
    requires 1 <= j <= |cells| && cells[j - 1] == Slot(j)
    ensures SetId(f.Build(cells), SlotId(j), v) == Ok(f.Build(cells[j - 1 := v]))
    ensures Settled(cells[j - 1 := v])
  {
    var m := j - 1;
    var key := SlotId(j);
    SlotIdIsSlotKey(j);
    if key in IdsIn(cells[..m]) {
      SlotOnlyInPlace(cells, j, m);
    }
    FrameReplace(f, cells, m, key, v);
  }

  /** After setting the first position, the other positions are still ready to be set. */
  lemma SlotsStillReady(cells: seq<Node>, js: seq<int>, vs: seq<Node>)
    requires js != [] && |js| == |vs|
    requires forall k :: 0 <= k < |js| ==> 1 <= js[k] <= |cells| && cells[js[k] - 1] == Slot(js[k])
    requires forall k, l :: 0 <= k < l < |js| ==> js[k] != js[l]
    requires forall k :: 0 <= k < |vs| ==> SlotFree(vs[k])
    ensures forall k :: 0 <= k < |js[1..]| ==>
      1 <= js[1..][k] <= |cells| && cells[js[0] - 1 := vs[0]][js[1..][k] - 1] == Slot(js[1..][k])
    ensures forall k, l :: 0 <= k < l < |js[1..]| ==> js[1..][k] != js[1..][l]
    ensures forall k :: 0 <= k < |vs[1..]| ==> SlotFree(vs[1..][k])
  {
    var cells' := cells[js[0] - 1 := vs[0]];
    forall k | 0 <= k < |js[1..]|
      ensures 1 <= js[1..][k] <= |cells| && cells'[js[1..][k] - 1] == Slot(js[1..][k])
    {
      assert js[1..][k] == js[k + 1] && js[k + 1] != js[0];
    }
    forall k, l | 0 <= k < l < |js[1..]| ensures js[1..][k] != js[1..][l] {
      assert js[1..][k] == js[k + 1] && js[1..][l] == js[l + 1];
    }
    forall k | 0 <= k < |vs[1..]| ensures SlotFree(vs[1..][k]) {
      assert vs[1..][k] == vs[k + 1];
    }
  }

  lemma SlotsSettled(n: nat)
    ensures Settled(Slots(1, n))
  {
  }

  /**
   * A mapping from distinct slot ids to slot-free components puts each
   * component in its slot and leaves the other slots alone.
   */
  lemma MappingFill(f: Frame, js: seq<int>, vs: seq<Node>)
    requires |js| == |vs|
    requires forall k :: 0 <= k < |js| ==> 1 <= js[k] <= f.Width()
    requires forall k, l :: 0 <= k < l < |js| ==> js[k] != js[l]
    requires forall k :: 0 <= k < |vs| ==> SlotFree(vs[k])
    ensures Fill(f.Build(Slots(1, f.Width())), Mapping(SlotEntries(js, vs))) ==
      Ok(f.Build(Put(Slots(1, f.Width()), js, vs)))
  {
    SetSlots(f, Slots(1, f.Width()), js, vs);
  }

  /**
   * Sequence content: the i-th component takes the place of slot i + 1;
   * more components than slots raise KeyError for the first missing slot.
   */
  lemma SequenceFill(f: Frame, items: seq<Node>)
    requires forall i :: 0 <= i < |items| ==> SlotFree(items[i])
    ensures |items| <= f.Width() ==>
      Fill(f.Build(Slots(1, f.Width())), Sequence(items)) ==
      Ok(f.Build(items + Slots(|items| + 1, f.Width() - |items|)))
    ensures |items| > f.Width() ==>
      Fill(f.Build(Slots(1, f.Width())), Sequence(items)) == Err(MissingId(SlotId(f.Width() + 1)))
  {
    var w := f.Width();
    var n := |items|;
    if n <= w {
      SequenceFillFits(f, items);
    } else {
      SequenceFillOverflows(f, items);
    }
  }

  /** More items than slots: the first slot past the frame's is missing. */
  lemma SequenceFillOverflows(f: Frame, items: seq<Node>)
    requires forall i :: 0 <= i < |items| ==> SlotFree(items[i])
    requires |items| > f.Width()
    ensures Fill(f.Build(Slots(1, f.Width())), Sequence(items)) == Err(MissingId(SlotId(f.Width() + 1)))
  {
    var w := f.Width();
    var first := items[..w];
    SequenceFillFits(f, first);
    assert first + Slots(w + 1, 0) == first;
    assert Numbered(items) == Numbered(first) + Numbered(items)[w..];
    SetAllAppend(f.Build(Slots(1, w)), Numbered(first), Numbered(items)[w..]);
    var key := SlotId(w + 1);
    assert Numbered(items)[w..][0] == (key, items[w]);
    SlotIdIsSlotKey(w + 1);
    FrameContains(f, first, key);
    IdsInMembers(first, key);
  }

  lemma SequenceFillFits(f: Frame, items: seq<Node>)
    requires forall i :: 0 <= i < |items| ==> SlotFree(items[i])
    requires |items| <= f.Width()
    ensures Fill(f.Build(Slots(1, f.Width())), Sequence(items)) ==
      Ok(f.Build(items + Slots(|items| + 1, f.Width() - |items|)))
  {
    var w := f.Width();
    var n := |items|;
    RangeReady(w, n);
    SetSlots(f, Slots(1, w), Range(n), items);
    PutRange(w, items);
  }

  /** The first `n` slots of `w` are ready to be set in order. */
  lemma RangeReady(w: nat, n: nat)
    requires n <= w
    ensures Settled(Slots(1, w))
    ensures forall k :: 0 <= k < n ==> 1 <= Range(n)[k] <= w && Slots(1, w)[Range(n)[k] - 1] == Slot(Range(n)[k])
    ensures forall k, l :: 0 <= k < l < n ==> Range(n)[k] != Range(n)[l]
  {
  }

  /** Putting `items` in the first slots, in order. */
  lemma PutRange(w: nat, items: seq<Node>)
    requires |items| <= w
    ensures Put(Slots(1, w), Range(|items|), items) == items + Slots(|items| + 1, w - |items|)
  {
    PutPrefix(Slots(1, w), items);
    SlotsDrop(w, |items|);
  }

  lemma SlotsDrop(w: nat, n: nat)
    requires n <= w
    ensures Slots(1, w)[n..] == Slots(n + 1, w - n)
  {
  }

  /** Putting `items` at positions `1 .. |items|` overwrites the first cells with them. */
  lemma PutPrefix(cells: seq<Node>, items: seq<Node>)
    requires |items| <= |cells|
    ensures Put(cells, Range(|items|), items) == items + cells[|items|..]
  {
    forall i | 0 <= i < |cells|
      ensures Put(cells, Range(|items|), items)[i] == (items + cells[|items|..])[i]
    {
      LookupSpan(1, items, i + 1);
    }
  }

  /** Looking a position up among consecutive positions from `a`. */
  lemma {:induction false} LookupSpan(a: int, vs: seq<Node>, j: int)
    ensures Lookup(Span(a, |vs|), vs, j) == if a <= j < a + |vs| then Some(vs[j - a]) else None
    decreases |vs|
  {
    if vs != [] {
      assert Span(a, |vs|)[1..] == Span(a + 1, |vs| - 1);
      LookupSpan(a + 1, vs[1..], j);
    }
  }

  lemma SlotsHead(w: nat, c: Node)
    requires w >= 1
    ensures Slots(1, w)[0 := c] == [c] + Slots(2, w - 1)
  {
    assert forall i :: 1 <= i < w ==> Slots(1, w)[i] == Slots(2, w - 1)[i - 1];
  }

  /** A single component takes the place of `content-1`, or raises KeyError if there is none. */
  lemma ComponentFill(f: Frame, c: Node)
    ensures f.Width() >= 1 ==>
      Fill(f.Build(Slots(1, f.Width())), Component(c)) == Ok(f.Build([c] + Slots(2, f.Width() - 1)))
    ensures f.Width() == 0 ==>
      Fill(f.Build(Slots(1, f.Width())), Component(c)) == Err(MissingId("content-1"))
  {
    var w := f.Width();
    FirstSlotId();
    SlotIdIsSlotKey(1);
    if w >= 1 {
      assert Slots(1, w)[..0] == [];
      FrameReplace(f, Slots(1, w), 0, "content-1", c);
      SlotsHead(w, c);
    } else {
      FrameContains(f, [], "content-1");
    }
  }

  // ---------------------------------------------------------------------
  // The page's ids
  // ---------------------------------------------------------------------

  /**
   * The ids of a fresh page, in document order: `title` when there is a
   * header, `content-1` .. `content-N` for the N columns of the shape, and
   * `next-page`.
   */
  lemma PageIds(header: bool, shape: seq<seq<int>>)
    ensures DescIds(PageOf(header, shape, Slots(1, TotalCols(shape)))) ==
      (if header then ["title"] else []) + SlotIds(1, TotalCols(shape)) + ["next-page"]
  {
    FrameIds(PageFrame(header, shape), Slots(1, TotalCols(shape)));
    IdsInSlots(1, TotalCols(shape));
  }

  /** No id occurs twice in a fresh page. */
  lemma PageIdsDistinct(header: bool, shape: seq<seq<int>>)
    ensures Distinct(DescIds(PageOf(header, shape, Slots(1, TotalCols(shape)))))
  {
    var n := TotalCols(shape);
    var pre: seq<string> := if header then ["title"] else [];
    var slots := SlotIds(1, n);
    PageIds(header, shape);
    SlotIdsDistinct(1, n);
    SlotIdsAreSlotKeys(1, n);
    assert !IsSlotKey("title");
    assert !IsSlotKey("next-page") by {
      assert "next-page"[..8][0] != "content-"[0];
    }
    DistinctAppend(pre, slots);
    DistinctAppend(pre + slots, ["next-page"]);
  }

  predicate Distinct(ids: seq<string>) {
    forall a, b :: 0 <= a < b < |ids| ==> ids[a] != ids[b]
  }

  lemma DistinctAppend(xs: seq<string>, ys: seq<string>)
    requires Distinct(xs) && Distinct(ys)
    requires forall x :: x in xs ==> x !in ys
    ensures Distinct(xs + ys)
  {
    forall a, b | 0 <= a < b < |xs + ys| ensures (xs + ys)[a] != (xs + ys)[b] {
      if b < |xs| {
        assert (xs + ys)[a] == xs[a] && (xs + ys)[b] == xs[b];
      } else if a >= |xs| {
        assert (xs + ys)[a] == ys[a - |xs|] && (xs + ys)[b] == ys[b - |xs|];
      } else {
        assert (xs + ys)[a] == xs[a] && (xs + ys)[b] == ys[b - |xs|];
        assert xs[a] in xs;
      }
    }
  }

  lemma SlotIdsDistinct(start: int, n: nat)
    ensures Distinct(SlotIds(start, n))
  {
    forall a, b | 0 <= a < b < n ensures SlotIds(start, n)[a] != SlotIds(start, n)[b] {
      SlotIdsAt(start, n, a, b);
    }
  }

  lemma SlotIdsAt(start: int, n: nat, a: nat, b: nat)
    requires a < b < n
    ensures SlotIds(start, n)[a] != SlotIds(start, n)[b]
  {
    var ids := SlotIds(start, n);
    assert ids[a] == SlotId(start + a) && ids[b] == SlotId(start + b);
    SlotIdsDiffer(start + a, start + b);
  }

  lemma SlotIdsAreSlotKeys(start: int, n: nat)
    ensures forall x :: x in SlotIds(start, n) ==> IsSlotKey(x)
  {
    forall x | x in SlotIds(start, n) ensures IsSlotKey(x) {
      var i :| 0 <= i < n && SlotIds(start, n)[i] == x;
      SlotIdIsSlotKey(start + i);
    }
  }

  /** `page_not_found(pathname)`: `P("No page '{}'".format(pathname))`. */
  function PageNotFound(pathname: string): (r: Node)
    ensures r.kind == "P" && r.id == None
    ensures r.children.Text? && StartsWith(r.children.text, "No page '") && |r.children.text| == |pathname| + 10
    ensures r.children.text[9..|pathname| + 9] == pathname
    ensures r.children.text[|pathname| + 9] == '\''
  {
    Element("P", None, None, Text("No page '" + pathname + "'"))
  }
}
