/**
 * The `Col` and `Row` component helpers of xplore/components.py.
 *
 * `Row` works like `_make_row` in the layouts module, except that it can
 * derive its shape from the content (n items become n equal columns), it
 * composes the class of the row with a class of the caller's, and it
 * passes the caller's other keyword arguments on to the row's `Div`.
 */
module Components {
  import opened Base
  import opened Errors
  import opened Tree
  import opened Format
  import opened Layouts

  /** The keyword arguments `Col` and `Row` hand on to `html.Div`. */
  datatype Kwargs = Kwargs(
    id: Option<string>,
    className: Option<string>,
    style: Option<Style>,
    href: Option<string>,
    children: Children)

  /** `html.Div(**kwargs)` */
  function Div(kw: Kwargs): Node {
    Node("Div", kw.id, kw.className, kw.style, kw.href, kw.children)
  }

  /** `first`, followed by a space and the caller's class when there is one. */
  function PrefixClass(first: string, given: Option<string>): (c: string)
    ensures StartsWith(c, first)
    ensures given.None? ==> c == first
    ensures given.Some? ==> c[|first|..] == " " + given.value
  {
    if given.Some? then first + " " + given.value else first
  }

  /**
   * `Col(size, **kwargs)`: a `Div` of class `col-lg-<size>`, followed by the
   * caller's class when one is given; every other argument passes through.
   */
  function Col(size: int, kw: Kwargs): (r: Node)
    ensures r.kind == "Div" && r.id == kw.id && r.style == kw.style && r.href == kw.href
    ensures r.children == kw.children
    ensures r.className.Some? && StartsWith(r.className.value, "col-lg-" + IntToString(size))
    ensures kw.className.None? ==> r.className == Some("col-lg-" + IntToString(size))
    ensures kw.className.Some? ==>
      r.className.value[|"col-lg-" + IntToString(size)|..] == " " + kw.className.value
  {
    Div(kw.(className := Some(PrefixClass(ColClass(size), kw.className))))
  }

  /** The column `Row` builds around slot `k`: the same one `_make_row` builds. */
  lemma ColIsColumn(size: int, k: int)
    ensures Col(size, Kwargs(None, None, None, None, One(Slot(k)))) == Column(size, Slot(k))
  {
  }

  /** `len(content)` for the content kinds that have one. */
  function ContentLength(content: Content): Option<nat> {
    match content
    case Mapping(entries) => Some(|entries|)
    case Sequence(items) => Some(|items|)
    case _ => None
  }

  /**
   * The shape a `Row` uses: the given one; `[12]` for no content or a
   * single component; otherwise `len(content)` columns of width
   * `12 / len(content)`, which must divide 12.
   */
  function RowShape(content: Option<Content>, shape: Option<seq<int>>): Result<seq<int>> {
    if shape.Some? then Ok(shape.value)
    else if content.None? || content.value.Component? then Ok([12])
    else match ContentLength(content.value)
      case None => Err(Unsized)
      case Some(n) =>
        if n == 0 then Err(ZeroDivision)
        else if 12 % n != 0 then Err(Validation(ContentLengthNotFactor))
        else Ok(Repeat(12 / n, n))
  }

  /** The row's own `Div`, before its columns are put in. */
  function RowShell(kw: Kwargs): Node {
    Div(kw.(className := Some(PrefixClass("row", kw.className))))
  }

  /** `Row(content, shape, start_id, **kwargs)`: the row, or the exception it raises. */
  function RowResult(content: Option<Content>, shape: Option<seq<int>>, start: int, kw: Kwargs): Result<Node> {
    match RowShape(content, shape)
    case Err(e) => Err(e)
    case Ok(s) =>
      if BadCols(s) != [] then Err(Validation(InvalidColumns(BadCols(s))))
      else FillIfAny(RowOf(RowShell(kw), s, Slots(start, |s|)), content)
  }

  /** `Row`: derives the shape, checks it, builds the columns in a loop and fills in the content. */
  method Row(content: Option<Content>, shape: Option<seq<int>>, start: int, kw: Kwargs) returns (r: Result<Node>)
    ensures r == RowResult(content, shape, start, kw)
  {
    var s: seq<int>;
    if shape.None? {
      if content.None? || content.value.Component? {
        s := [12];
      } else {
        var n: nat;
        match content.value {
          case Mapping(entries) => n := |entries|;
          case Sequence(items) => n := |items|;
          case _ => return Err(Unsized);
        }
        if n == 0 {
          return Err(ZeroDivision);
        }
        if 12 % n != 0 {
          return Err(Validation(ContentLengthNotFactor));
        }
        s := Repeat(12 / n, n);
      }
    } else {
      s := shape.value;
    }
    var bad := BadCols(s);
    if bad != [] {
      return Err(Validation(InvalidColumns(bad)));
    }
    var colList: seq<Node> := [];
    for i := 0 to |s|
      invariant colList == Columns(s[..i], Slots(start, i))
    {
      ColumnsNext(s, start, i);
      colList := colList + [Col(s[i], Kwargs(None, None, None, None, One(Slot(start + i))))];
    }
    assert s[..|s|] == s;
    var row := Div(kw.(children := Many(colList), className := Some(PrefixClass("row", kw.className))));
    if content.Some? {
      r := AddContent(row, content.value);
    } else {
      r := Ok(row);
    }
  }

  /**
   * Without a shape, no content or a single component gives one
   * full-width column, and `n` items give `n` equal columns filling the
   * twelve-column grid when `n` divides 12, and an error otherwise.
   */
  lemma RowShapeDerived(content: Option<Content>)
    ensures content.None? || content.value.Component? ==> RowShape(content, None) == Ok([12])
    ensures content.Some? && content.value.Opaque? ==> RowShape(content, None) == Err(Unsized)
    ensures content.Some? && ContentLength(content.value) == Some(0) ==> RowShape(content, None) == Err(ZeroDivision)
    ensures content.Some? && ContentLength(content.value).Some? && ContentLength(content.value).value > 0 ==>
      var n := ContentLength(content.value).value;
      (12 % n != 0 <==> RowShape(content, None) == Err(Validation(ContentLengthNotFactor))) &&
      (12 % n == 0 ==>
        RowShape(content, None).Ok? && |RowShape(content, None).value| == n &&
        Sum(RowShape(content, None).value) == 12 && BadCols(RowShape(content, None).value) == [] &&
        forall i :: 0 <= i < n ==> RowShape(content, None).value[i] == 12 / n)
  {
    if content.Some? && ContentLength(content.value).Some? && ContentLength(content.value).value > 0 {
      var n := ContentLength(content.value).value;
      if 12 % n == 0 {
        EvenColumns(n);
      }
    }
  }

  /**
   * A row with valid columns and no content: `len(shape)` columns, column
   * `i` of class `col-lg-<shape[i]>` holding slot `content-<start+i>`, the
   * row of class `row` (then the caller's class), the caller's other
   * arguments unchanged.
   */
  lemma RowStructure(shape: seq<int>, start: int, kw: Kwargs)
    requires BadCols(shape) == []
    ensures RowResult(None, Some(shape), start, kw).Ok?
    ensures var r := RowResult(None, Some(shape), start, kw).value;
      r.kind == "Div" && r.id == kw.id && r.style == kw.style && r.href == kw.href &&
      r.className == Some(PrefixClass("row", kw.className)) &&
      r.children.Many? && |r.children.items| == |shape| &&
      forall i :: 0 <= i < |shape| ==>
        r.children.items[i].className == Some("col-lg-" + IntToString(shape[i])) &&
        r.children.items[i].children == One(Element("Div", Some(SlotId(start + i)), None, NoChildren))
  {
    var slots := Slots(start, |shape|);
    assert RowShape(None, Some(shape)) == Ok(shape);
    assert RowResult(None, Some(shape), start, kw) == Ok(RowOf(RowShell(kw), shape, slots));
    var items := Columns(shape, slots);
    forall i | 0 <= i < |shape|
      ensures items[i].className == Some("col-lg-" + IntToString(shape[i]))
      ensures items[i].children == One(Element("Div", Some(SlotId(start + i)), None, NoChildren))
    {
      assert items[i] == Column(shape[i], Slot(start + i));
    }
  }

  /** A shape with a width outside 1..12 is refused, naming the offending widths. */
  lemma RowRejectsBadColumns(content: Option<Content>, shape: seq<int>, start: int, kw: Kwargs)
    requires exists i :: 0 <= i < |shape| && !ValidCol(shape[i])
    ensures RowResult(content, Some(shape), start, kw) == Err(Validation(InvalidColumns(BadCols(shape))))
    ensures forall w :: w in BadCols(shape) <==> w in shape && !ValidCol(w)
  {
    BadColsSpec(shape);
  }

  /**
   * `n` slot-free components and no shape, with `n` a divisor of 12: the
   * i-th component sits in the i-th of `n` equal columns.
   */
  lemma RowOfItems(items: seq<Node>, kw: Kwargs)
    requires |items| > 0 && 12 % |items| == 0
    requires forall i :: 0 <= i < |items| ==> SlotFree(items[i])
    ensures RowResult(Some(Sequence(items)), None, 1, kw) == Ok(RowOf(RowShell(kw), Repeat(12 / |items|, |items|), items))
  {
    var n := |items|;
    var cols := Repeat(12 / n, n);
    EvenColumns(n);
    SequenceFill(RowFrame(RowShell(kw), cols), items);
    assert items + Slots(n + 1, 0) == items;
  }

  /** A single slot-free component and no shape: the component in one full-width column. */
  lemma RowOfComponent(c: Node, kw: Kwargs)
    ensures RowResult(Some(Component(c)), None, 1, kw) == Ok(RowOf(RowShell(kw), [12], [c]))
  {
    ComponentFill(RowFrame(RowShell(kw), [12]), c);
    assert [c] + Slots(2, 0) == [c];
  }
}
