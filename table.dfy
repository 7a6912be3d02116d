/**
 * The generic `Table` component: what it shows for a given set of props. Cell
 * contents are modelled as text, and an action button as the action together
 * with the row its click handler receives.
 */
module Table {
  import opened Wrappers
  import opened Types

  /** A property name of the row, or a function computing the cell from the row. */
  datatype Accessor = Key(key: string) | Computed(compute: Entity -> string)

  /** A column: header text, accessor and an optional `render(value, row)`. */
  datatype Column = Column(header: string, accessor: Accessor, render: Option<(Option<string>, Entity) -> string>)

  /** Which of `onView`, `onEdit`, `onDelete` the page passes. */
  datatype Handlers = Handlers(onView: bool, onEdit: bool, onDelete: bool)

  datatype Action = ViewAction | EditAction | DeleteAction

  /** A row button: clicking it calls the action's handler with `row`. */
  datatype Button = Button(action: Action, row: Entity)

  /** A rendered body row: its React key, its cells, whether it has an actions cell, and the buttons there. */
  datatype Row = Row(key: string, cells: seq<string>, actionsCell: bool, buttons: seq<Button>)

  datatype View =
    | Skeleton(columnCount: nat, rowCount: nat, hasActions: bool)
    | EmptyState
    | Grid(headers: seq<string>, rows: seq<Row>)

  const SkeletonRows: nat := 5

  /** `!!(onEdit || onDelete || onView)`. */
  predicate HasActions(h: Handlers) {
    h.onView || h.onEdit || h.onDelete
  }

  /** Position of an action in the actions cell. */
  function Rank(a: Action): nat {
    match a
    case ViewAction => 0
    case EditAction => 1
    case DeleteAction => 2
  }

  predicate Offers(bs: seq<Button>, a: Action) {
    exists k :: 0 <= k < |bs| && bs[k].action == a
  }

  /** The buttons of one row: one per supplied handler, in the order View, Edit, Delete, each bound to that row. */
  function Buttons(h: Handlers, row: Entity): (bs: seq<Button>)
    ensures forall k :: 0 <= k < |bs| ==> bs[k].row == row
    ensures Offers(bs, ViewAction) <==> h.onView
    ensures Offers(bs, EditAction) <==> h.onEdit
    ensures Offers(bs, DeleteAction) <==> h.onDelete
    ensures forall i, j :: 0 <= i < j < |bs| ==> Rank(bs[i].action) < Rank(bs[j].action)
    ensures bs != [] <==> HasActions(h)
  {
    var v := if h.onView then [Button(ViewAction, row)] else [];
    var e := if h.onEdit then [Button(EditAction, row)] else [];
    var d := if h.onDelete then [Button(DeleteAction, row)] else [];
    var bs := v + e + d;
    assert h.onView ==> bs[0].action == ViewAction;
    assert h.onEdit ==> bs[|v|].action == EditAction;
    assert h.onDelete ==> bs[|v| + |e|].action == DeleteAction;
    bs
  }

  /**
   * The content of one cell: a function accessor is applied to the row;
   * otherwise the property is read and passed to `render` when there is one,
   * or shown as text with a missing value shown as "".
   */
  function Cell(c: Column, row: Entity): (s: string)
    ensures c.accessor.Computed? ==> s == c.accessor.compute(row)
    ensures c.accessor.Key? && c.render.Some? ==> s == c.render.value(row.Field(c.accessor.key), row)
    ensures c.accessor.Key? && c.render.None? && row.Field(c.accessor.key).None? ==> s == ""
    ensures c.accessor.Key? && c.render.None? && row.Field(c.accessor.key).Some? ==> s == row.Field(c.accessor.key).value
  {
    match c.accessor
    case Computed(f) => f(row)
    case Key(k) =>
      var value := row.Field(k);
      if c.render.Some? then c.render.value(value, row) else value.GetOr("")
  }

  function RenderRow(columns: seq<Column>, h: Handlers, row: Entity): Row {
    Row(row.Id(), seq(|columns|, i requires 0 <= i < |columns| => Cell(columns[i], row)),
        HasActions(h), if HasActions(h) then Buttons(h, row) else [])
  }

  /**
   * The component's three branches: loading wins over everything, then an
   * empty list shows the empty state, otherwise one row per item in order.
   */
  function Render(data: seq<Entity>, columns: seq<Column>, h: Handlers, isLoading: bool): (v: View)
    ensures isLoading ==> v == Skeleton(|columns|, SkeletonRows, HasActions(h))
    ensures !isLoading && data == [] ==> v == EmptyState
    ensures !isLoading && data != [] ==> v.Grid?
    ensures v.Grid? ==>
              && |v.headers| == |columns| + (if HasActions(h) then 1 else 0)
              && (forall i :: 0 <= i < |columns| ==> v.headers[i] == columns[i].header)
              && (HasActions(h) ==> v.headers[|columns|] == "Actions")
              && |v.rows| == |data|
              && (forall r :: 0 <= r < |data| ==>
                    && v.rows[r].key == data[r].Id()
                    && |v.rows[r].cells| == |columns|
                    && (forall i :: 0 <= i < |columns| ==> v.rows[r].cells[i] == Cell(columns[i], data[r]))
                    && (v.rows[r].actionsCell <==> HasActions(h))
                    && v.rows[r].buttons == (if HasActions(h) then Buttons(h, data[r]) else []))
  {
    if isLoading then Skeleton(|columns|, SkeletonRows, HasActions(h))
    else if |data| == 0 then EmptyState
    else
      Grid(seq(|columns|, i requires 0 <= i < |columns| => columns[i].header)
           + (if HasActions(h) then ["Actions"] else []),
           seq(|data|, r requires 0 <= r < |data| => RenderRow(columns, h, data[r])))
  }
}
