/**
 * The four list pages (Products, Courses, NewsPaper, ContactUs). They share
 * one shape, so one class parameterised by the slice models all of them: the
 * page number and search box that drive the list query, the selected row, the
 * modal flags, and a count of `refetch` calls. The contact-us page has no
 * create or edit path.
 */
module ListPages {
  import opened Wrappers
  import opened Text
  import opened Types
  import opened Services
  import opened Table

  const SortBy: string := "-createdAt"

  /**
   * `{ page: currentPage, keyword: searchKeyword || undefined, sort: sortBy }`.
   * The query string it yields: the page, the default limit, the fixed sort,
   * and the keyword only when typed.
   */
  function PageQueryArgs(currentPage: int, searchKeyword: string): (params: ListParams)
    ensures ListQuery(Some(params)) ==
            [("page", IntToString(currentPage)), ("limit", "10"), ("sort", "-createdAt")]
            + (if searchKeyword != "" then [("keyword", searchKeyword)] else [])
  {
    assert NatToString(1) == "1" && DigitChar(0) == '0';
    assert IntToString(10) == NatToString(10) == NatToString(1) + [DigitChar(0)] == "10";
    ListParams(Some(currentPage), None, Some(SortBy), if searchKeyword != "" then Some(searchKeyword) else None)
  }

  /**
   * Which handlers a page passes to its table: every row offers View and Delete,
   * and Edit everywhere except on contact-us, which passes no `onEdit`.
   */
  function TableHandlers(r: Resource): (h: Handlers)
    ensures forall row :: Buttons(h, row) ==
              [Button(ViewAction, row)] + (if r != Messages then [Button(EditAction, row)] else [])
              + [Button(DeleteAction, row)]
  {
    Handlers(true, r != Messages, true)
  }

  /**
   * `data?.data || []`, the rows a page hands to its table: the response's items
   * in order, and none while there is no response. An array is truthy even when
   * empty, so an empty list passes through as is.
   */
  function TableData(data: Option<ListResponse>): (rows: seq<Entity>)
    ensures data.Some? ==> rows == data.value.data
    ensures rows == [] <==> data.None? || data.value.data == []
  {
    if data.Some? then data.value.data else []
  }

  datatype PaginationProps = PaginationProps(currentPage: Option<int>, totalPages: Option<int>)

  /** `data?.pagination && <Pagination …/>`: any pagination object, even `{}`, shows the control. */
  function PaginationControl(data: Option<ListResponse>): (p: Option<PaginationProps>)
    ensures p.Some? <==> data.Some? && data.value.pagination.Some?
    ensures p.Some? ==> p.value == PaginationProps(data.value.pagination.value.currentPage,
                                                   data.value.pagination.value.numberOfPages)
  {
    if data.Some? && data.value.pagination.Some? then
      Some(PaginationProps(data.value.pagination.value.currentPage, data.value.pagination.value.numberOfPages))
    else None
  }

  /** The contact-us decoder always fills in `pagination`, so that page shows the control whenever a response exists. */
  lemma MessagesPaginationAlwaysShown(raw: RawEnvelope)
    ensures PaginationControl(Some(TransformMessages(raw))).Some?
  {
  }

  // ----- the contact-us cells -----

  /** `message || "No message"`, cut to 50 characters plus "..." when longer. */
  function Preview(message: Option<string>): (s: string)
    ensures |s| <= 53
    ensures !Truthy(message) ==> s == "No message"
    ensures Truthy(message) && |message.value| <= 50 ==> s == message.value
    ensures Truthy(message) && |message.value| > 50 ==>
              |s| == 53 && s[..50] == message.value[..50] && s[50..] == "..."
  {
    var m := OrElse(message, "No message");
    if |m| > 50 then m[..50] + "..." else m
  }

  /**
   * The contact-us columns: name and email with "N/A" for a missing value, the
   * message preview, and the date; date formatting is locale-dependent and taken
   * as a parameter.
   */
  function MessageColumns(formatDate: string -> string): (cols: seq<Column>)
    ensures |cols| == 4
    ensures cols[0].header == "Name" && cols[1].header == "Email" && cols[2].header == "Message" && cols[3].header == "Date"
    ensures forall e: Entity :: Cell(cols[0], e) == OrElse(e.Field("name"), "N/A")
    ensures forall e: Entity :: Cell(cols[1], e) == OrElse(e.Field("email"), "N/A")
    ensures forall e: Entity :: Cell(cols[2], e) == Preview(e.Field("message"))
    ensures forall e: Entity :: Cell(cols[3], e) == formatDate(e.Field("createdAt").GetOr(""))
  {
    [ Column("Name", Computed((e: Entity) => OrElse(e.Field("name"), "N/A")), None),
      Column("Email", Computed((e: Entity) => OrElse(e.Field("email"), "N/A")), None),
      Column("Message", Computed((e: Entity) => Preview(e.Field("message"))), None),
      Column("Date", Computed((e: Entity) => formatDate(e.Field("createdAt").GetOr(""))), None) ]
  }

  /** `selectedMessage.name || "Unknown"`, the name the delete confirmation shows. */
  function DeleteName(m: Message): (s: string)
    ensures Truthy(m.name) ==> s == m.name.value
    ensures !Truthy(m.name) ==> s == "Unknown"
  {
    OrElse(m.name, "Unknown")
  }

  /**
   * A contact-us row: name and email fall back to "N/A", the message is
   * previewed, and the row offers View then Delete, never Edit.
   */
  lemma MessageRowShows(raw: RawEnvelope, formatDate: string -> string, r: int)
    requires raw.data.Some? && raw.data.value.data.Some? && 0 <= r < |raw.data.value.data.value|
    ensures var v := Render(TableData(Some(TransformMessages(raw))),
                            MessageColumns(formatDate), TableHandlers(Messages), false);
            var m := raw.data.value.data.value[r];
            && v.Grid?
            && v.headers == ["Name", "Email", "Message", "Date", "Actions"]
            && v.rows[r].key == m.id
            && v.rows[r].cells == [OrElse(m.name, "N/A"), OrElse(m.email, "N/A"), Preview(m.message), formatDate(m.createdAt)]
            && v.rows[r].buttons == [Button(ViewAction, MessageRow(m)), Button(DeleteAction, MessageRow(m))]
  {
    var msgs := raw.data.value.data.value;
    var data := TableData(Some(TransformMessages(raw)));
    var cols := MessageColumns(formatDate);
    var v := Render(data, cols, TableHandlers(Messages), false);
    assert data[r] == MessageRow(msgs[r]);
    var cells := v.rows[r].cells;
    assert |cells| == 4;
    assert cells[0] == Cell(cols[0], data[r]);
    assert cells[1] == Cell(cols[1], data[r]);
    assert cells[2] == Cell(cols[2], data[r]);
    assert cells[3] == Cell(cols[3], data[r]);
    var m := msgs[r];
    assert data[r].Field("name") == m.name && data[r].Field("email") == m.email;
    assert data[r].Field("message") == m.message && data[r].Field("createdAt") == Some(m.createdAt);
    assert cells[0] == OrElse(m.name, "N/A");
    assert cells[1] == OrElse(m.email, "N/A");
    assert cells[2] == Preview(m.message);
    assert data[r].Field("createdAt").GetOr("") == m.createdAt;
    assert cells[3] == formatDate(m.createdAt);
    assert cells == [OrElse(m.name, "N/A"), OrElse(m.email, "N/A"), Preview(m.message), formatDate(m.createdAt)];
    var bs := v.rows[r].buttons;
    assert Offers(bs, ViewAction) && Offers(bs, DeleteAction) && !Offers(bs, EditAction);
    assert bs[0].action == ViewAction && bs[1].action == DeleteAction;
    assert |v.headers| == 5 && v.headers[4] == "Actions";
    assert v.headers == ["Name", "Email", "Message", "Date", "Actions"];
  }

  /**
   * Before the first response, and for a response without messages, the
   * contact-us table shows its empty state; otherwise it shows the grid.
   */
  lemma MessagesTableEmpty(raw: Option<RawEnvelope>, formatDate: string -> string)
    ensures var data := if raw.Some? then Some(TransformMessages(raw.value)) else None;
            Render(TableData(data), MessageColumns(formatDate), TableHandlers(Messages), false) == EmptyState
            <==> raw.None? || raw.value.data.None? || raw.value.data.value.data.None? || raw.value.data.value.data.value == []
  {
  }

  // ----- the page state -----

  datatype Modal = CreateModal | ViewModal | EditModal | DeleteModal

  /** Everything a page keeps in React state, plus the number of `refetch` calls. */
  datatype PageState = PageState(currentPage: int, searchKeyword: string, selected: Option<Entity>,
                                 createOpen: bool, viewOpen: bool, editOpen: bool, deleteOpen: bool,
                                 refetches: nat)

  class ListPage {
    const resource: Resource
    var currentPage: int
    var searchKeyword: string
    var selected: Option<Entity>
    var createOpen: bool
    var viewOpen: bool
    var editOpen: bool
    var deleteOpen: bool
    var refetches: nat

    /** The contact-us page has neither a create nor an edit modal to open. */
    predicate Valid()
      reads this
    {
      resource == Messages ==> !createOpen && !editOpen
    }

    function State(): PageState
      reads this
    {
      PageState(currentPage, searchKeyword, selected, createOpen, viewOpen, editOpen, deleteOpen, refetches)
    }

    /** The arguments of this page's list query. */
    function QueryArgs(): ListParams
      reads this
    {
      PageQueryArgs(currentPage, searchKeyword)
    }

    /**
     * Whether a modal is in the tree. Create is always there (except on
     * contact-us); the others need a selection, and the books page also needs
     * the selection's `_id` to be non-empty for delete.
     */
    predicate Mounted(m: Modal)
      reads this
    {
      match m
      case CreateModal => resource != Messages
      case ViewModal => selected.Some?
      case EditModal => resource != Messages && selected.Some?
      case DeleteModal => selected.Some? && (resource == Books ==> selected.value.Id() != "")
    }

    /** A modal is on screen when it is mounted and its `isOpen` flag is set. */
    predicate Shown(m: Modal)
      reads this
    {
      Mounted(m) && match m
        case CreateModal => createOpen
        case ViewModal => viewOpen
        case EditModal => editOpen
        case DeleteModal => deleteOpen
    }

    constructor(r: Resource)
      ensures resource == r && Valid()
      ensures State() == PageState(1, "", None, false, false, false, false, 0)
    {
      resource := r;
      currentPage, searchKeyword, selected := 1, "", None;
      createOpen, viewOpen, editOpen, deleteOpen := false, false, false, false;
      refetches := 0;
    }

    /** handleView. */
    method View(item: Entity)
      requires Valid()
      modifies this
      ensures Valid()
      ensures State() == old(State()).(selected := Some(item), viewOpen := true)
      ensures Shown(ViewModal)
    {
      selected, viewOpen := Some(item), true;
    }

    /** handleEdit. */
    method Edit(item: Entity)
      requires Valid() && resource != Messages
      modifies this
      ensures Valid()
      ensures State() == old(State()).(selected := Some(item), editOpen := true)
      ensures Shown(EditModal)
    {
      selected, editOpen := Some(item), true;
    }

    /** handleDelete; on the books page a row with an empty `_id` sets the flag but shows nothing. */
    method Delete(item: Entity)
      requires Valid()
      modifies this
      ensures Valid()
      ensures State() == old(State()).(selected := Some(item), deleteOpen := true)
      ensures Shown(DeleteModal) <==> resource != Books || item.Id() != ""
    {
      selected, deleteOpen := Some(item), true;
    }

    /** The "Add" button. */
    method OpenCreate()
      requires Valid() && resource != Messages
      modifies this
      ensures Valid()
      ensures State() == old(State()).(createOpen := true)
    {
      createOpen := true;
    }

    /** The search box's change handler: the page number is kept. */
    method Search(keyword: string)
      requires Valid()
      modifies this
      ensures Valid()
      ensures State() == old(State()).(searchKeyword := keyword)
      ensures currentPage == old(currentPage)
      ensures QueryArgs().keyword == if keyword != "" then Some(keyword) else None
    {
      searchKeyword := keyword;
    }

    /** Pagination's `onPageChange`. */
    method ChangePage(page: int)
      requires Valid()
      modifies this
      ensures Valid()
      ensures State() == old(State()).(currentPage := page)
      ensures QueryArgs().page == Some(page)
    {
      currentPage := page;
    }

    /** Create's `onClose`: closes and refetches, the selection is untouched. */
    method CloseCreate()
      requires Valid() && resource != Messages
      modifies this
      ensures Valid()
      ensures State() == old(State()).(createOpen := false, refetches := old(refetches) + 1)
    {
      createOpen := false;
      refetches := refetches + 1;
    }

    /** View's `onClose`: clears the selection, does not refetch. */
    method CloseView()
      requires Valid()
      modifies this
      ensures Valid()
      ensures State() == old(State()).(viewOpen := false, selected := None)
      ensures !Mounted(ViewModal) && !Mounted(EditModal) && !Mounted(DeleteModal)
    {
      viewOpen, selected := false, None;
    }

    /** Edit's `onClose`: clears the selection and refetches. */
    method CloseEdit()
      requires Valid() && resource != Messages
      modifies this
      ensures Valid()
      ensures State() == old(State()).(editOpen := false, selected := None, refetches := old(refetches) + 1)
      ensures !Mounted(ViewModal) && !Mounted(EditModal) && !Mounted(DeleteModal)
    {
      editOpen, selected := false, None;
      refetches := refetches + 1;
    }

    /** Delete's `onClose`: clears the selection and refetches. */
    method CloseDelete()
      requires Valid()
      modifies this
      ensures Valid()
      ensures State() == old(State()).(deleteOpen := false, selected := None, refetches := old(refetches) + 1)
      ensures !Mounted(ViewModal) && !Mounted(EditModal) && !Mounted(DeleteModal)
    {
      deleteOpen, selected := false, None;
      refetches := refetches + 1;
    }
  }
}
