/** The book list of buildBookListMessage (bot/service/BotResponseService.java)
    as a pure pipeline: keep the books of the chosen status, cut out the
    current page, and lay the page out as a text and a keyboard with the
    MessageService builders. */
module ListView {
  import opened JavaLang
  import opened BookStatuses
  import opened Entities
  import opened Messages

  /** The fixed page size of the list. */
  const PageSize: int := 10

  /** List.size(): the number of elements, or Integer.MAX_VALUE for a longer list. */
  function Size<T>(s: seq<T>): (n: Int32)
    ensures 0 <= n <= |s|
    ensures |s| <= MaxInt32 ==> n == |s|
  {
    if |s| <= MaxInt32 then |s| else MaxInt32
  }

  /** The books whose status is `s`, in list order (`filter(book ->
      book.getStatus() == s)`). */
  function KeepStatus(books: seq<Book>, s: BookStatus): (r: seq<Book>)
    ensures |r| <= |books|
  {
    if books == [] then []
    else
      var last := books[|books| - 1];
      KeepStatus(books[..|books| - 1], s) + (if last.status == s then [last] else [])
  }

  /** Filtering keeps the order: the kept books of two lists one after the
      other are the kept books of the first, then those of the second. */
  lemma {:induction false} KeepStatusAppend(a: seq<Book>, b: seq<Book>, s: BookStatus)
    ensures KeepStatus(a + b, s) == KeepStatus(a, s) + KeepStatus(b, s)
    decreases |b|
  {
    if b == [] {
      assert a + b == a;
    } else {
      var init := b[..|b| - 1];
      var last := b[|b| - 1];
      var tail := if last.status == s then [last] else [];
      assert (a + b)[..|a + b| - 1] == a + init;
      assert (a + b)[|a + b| - 1] == last;
      calc {
        KeepStatus(a + b, s);
        KeepStatus(a + init, s) + tail;
        { KeepStatusAppend(a, init, s); }
        (KeepStatus(a, s) + KeepStatus(init, s)) + tail;
        { AppendAssoc(KeepStatus(a, s), KeepStatus(init, s), tail); }
        KeepStatus(a, s) + (KeepStatus(init, s) + tail);
        KeepStatus(a, s) + KeepStatus(b, s);
      }
    }
  }

  /** The kept books are exactly the books of the list with status `s`. */
  lemma {:induction false} KeepStatusMembers(books: seq<Book>, s: BookStatus)
    ensures forall b :: b in KeepStatus(books, s) <==> b in books && b.status == s
  {
    if books != [] {
      var init := books[..|books| - 1];
      KeepStatusMembers(init, s);
      assert books == init + [books[|books| - 1]];
    }
  }

  /** A book of the status makes up its own kept list, any other book none. */
  lemma KeepStatusSingle(b: Book, s: BookStatus)
    ensures KeepStatus([b], s) == if b.status == s then [b] else []
  {
    assert [b][..0] == [];
  }

  /** The filtered list: every book with no filter, otherwise the books of the
      filter's status, in list order. */
  function FilterByStatus(books: seq<Book>, filter: Option<BookStatus>): (r: seq<Book>)
    ensures filter.None? ==> r == books
    ensures filter.Some? ==> r == KeepStatus(books, filter.value)
  {
    if filter.None? then books else KeepStatus(books, filter.value)
  }

  /** The filtered list holds every book with no filter, otherwise exactly the
      books of the filter's status. */
  lemma FilterByStatusMembers(books: seq<Book>, filter: Option<BookStatus>)
    ensures forall b :: b in FilterByStatus(books, filter) <==> b in books && (filter.None? || b.status == filter.value)
  {
    if filter.Some? {
      KeepStatusMembers(books, filter.value);
    }
  }

  /** The bounds of the page cut out of the filtered list. */
  datatype Window = Window(from: int, to: int)

  function Min(a: int, b: int): int
  {
    if a <= b then a else b
  }

  /** The window of page `page` over `n` books, with the offsets computed
      exactly: `from = min(page * 10, n)`, `to = min(from + 10, n)`, and
      subList, which rejects a negative `from`. A non-negative page always
      gives `0 <= from <= to <= n` with at most ten books; a page at or past
      the end gives an empty window at the end; a page inside the list before
      its last full page gives ten books. */
  function PageWindow(page: Int32, n: nat): (r: Result<Window>)
    ensures r.Ok? <==> page >= 0
    ensures r.Err? ==> r.error == IndexOutOfBounds
    ensures r.Ok? ==> 0 <= r.value.from <= r.value.to <= n && r.value.to - r.value.from <= PageSize
    ensures r.Ok? ==> r.value.from == Min(page * PageSize, n)
    ensures r.Ok? && page * PageSize >= n ==> r.value.from == r.value.to == n
    ensures r.Ok? && (page + 1) * PageSize <= n ==> r.value.to - r.value.from == PageSize
  {
    var from := Min(page * PageSize, n);
    var to := Min(from + PageSize, n);
    if from < 0 then Err(IndexOutOfBounds) else Ok(Window(from, to))
  }

  /** The window as written: `currentPage * pageSize` and `fromIndex + pageSize`
      are evaluated in 32-bit `int` arithmetic, and subList throws on a
      negative start and on a start past the end. */
  function PageWindowAsWritten(page: Int32, n: nat): (r: Result<Window>)
    requires n <= MaxInt32
    ensures r.Ok? ==> 0 <= r.value.from <= r.value.to <= n
  {
    var from := Min(Wrap32(page * PageSize), n);
    var to := Min(Wrap32(from + PageSize), n);
    if from < 0 || to > n then Err(IndexOutOfBounds)
    else if from > to then Err(IllegalArgument)
    else Ok(Window(from, to))
  }

  /** On page 214748365 `page * 10` wraps to a negative offset, so the list
      throws where an empty page was meant. An empty list shows no "forward"
      button, but one left on an older list message can still be pressed. */
  lemma PageWindowOverflowThrows()
    ensures PageWindowAsWritten(214748365, 0) == Err(IndexOutOfBounds)
    ensures PageWindow(214748365, 0) == Ok(Window(0, 0))
  {
    assert Wrap32(214748365 * 10) == 214748365 * 10 - 0x1_0000_0000;
  }

  /** While `page * 10` fits in an `int` and the list is not within ten books
      of the largest `int`, the code as written cuts the same window. */
  lemma PageWindowAgreesWithoutOverflow(page: Int32, n: nat)
    requires 0 <= page <= MaxInt32 / PageSize && n <= MaxInt32 - PageSize
    ensures PageWindowAsWritten(page, n) == PageWindow(page, n)
  {
  }

  /** The books shown on a page; there are never more than ten, each of them a
      book of the filtered list. */
  function PageBooks(books: seq<Book>, filter: Option<BookStatus>, page: Int32): (r: Result<seq<Book>>)
    ensures r.Ok? <==> page >= 0
    ensures r.Err? ==> r.error == IndexOutOfBounds
    ensures r.Ok? ==> |r.value| <= PageSize
  {
    var filtered := FilterByStatus(books, filter);
    match PageWindow(page, Size(filtered))
    case Err(e) => Err(e)
    case Ok(w) => Ok(filtered[w.from..w.to])
  }

  /** Every book shown on a page is a book of the user with the filter's
      status. */
  lemma PageBooksFiltered(books: seq<Book>, filter: Option<BookStatus>, page: Int32)
    requires page >= 0
    ensures forall b :: b in PageBooks(books, filter, page).value ==>
      b in books && (filter.None? || b.status == filter.value)
  {
    FilterByStatusMembers(books, filter);
  }

  /** A page past the last book shows no book at all. */
  lemma PageBeyondEndIsEmpty(books: seq<Book>, filter: Option<BookStatus>, page: Int32)
    requires page >= 0 && page * PageSize >= |FilterByStatus(books, filter)|
    ensures PageBooks(books, filter, page) == Ok([])
  {
  }

  /** Page `p` shows the books from position `10 p` on, in list order: book
      `k` of the page is book `10 p + k` of the filtered list. */
  lemma PageBooksAt(books: seq<Book>, filter: Option<BookStatus>, page: Int32, k: nat)
    requires PageBooks(books, filter, page).Ok? && k < |PageBooks(books, filter, page).value|
    ensures page * PageSize + k < |FilterByStatus(books, filter)|
    ensures PageBooks(books, filter, page).value[k] == FilterByStatus(books, filter)[page * PageSize + k]
  {
  }

  /** The keyboard under the list: one row per shown book, then the pagination
      row when it holds a button, then "change filter" and "add a book". */
  function ListRows(shown: seq<Book>, pagination: seq<Button>): (rows: Keyboard)
    ensures |rows| == |shown| + (if pagination == [] then 0 else 1) + 2
  {
    BookButtons(shown) + (if pagination == [] then [] else [pagination]) + FilterAndAddRows()
  }

  /** buildBookListMessage over the books of the user, the session's filter and
      the session's page: the chat id as text, the list text of the shown
      books, and the list keyboard. A negative page throws in subList. */
  function ListMessage(chatId: Long, allBooks: seq<Book>, filter: Option<BookStatus>, page: Int32): (r: Result<Msg>)
    ensures r.Ok? <==> page >= 0
    ensures r.Err? ==> r.error == IndexOutOfBounds
    ensures r.Ok? ==> r.value.chatId == ChatIdString(chatId) && r.value.keyboard.Some?
  {
    match PageBooks(allBooks, filter, page)
    case Err(e) => Err(e)
    case Ok(shown) =>
      var pagination := PaginationRow(page, Size(FilterByStatus(allBooks, filter)), PageSize);
      Ok(Msg(ChatIdString(chatId), BooksText(shown, filter), Some(ListRows(shown, pagination))))
  }

  /** The pure part of buildBookListMessage: the filtered list, the page cut
      out of it with subList, then the text and the rows. */
  method LayOutList(chatId: Long, allBooks: seq<Book>, filter: Option<BookStatus>, currentPage: Int32)
    returns (r: Result<Msg>)
    ensures r == ListMessage(chatId, allBooks, filter, currentPage)
  {
    var filteredBooks := if filter.None? then allBooks else KeepStatus(allBooks, filter.value);
    assert filteredBooks == FilterByStatus(allBooks, filter);
    var window := PageWindow(currentPage, Size(filteredBooks));
    if window.Err? {
      return Err(window.error);
    }
    var booksOnPage := SubList(filteredBooks, window.value.from, window.value.to);
    var shown := booksOnPage.value;
    assert PageBooks(allBooks, filter, currentPage) == Ok(shown);
    var text := BuildBooksText(shown, filter);
    var pagination := BuildPaginationButtons(currentPage, Size(filteredBooks), PageSize);
    var rows := BuildListRows(shown, pagination);
    r := Ok(Msg(ChatIdString(chatId), text, Some(rows)));
  }

  /** The rows of the list: the book rows, the pagination row when not empty,
      and the two fixed rows. */
  method BuildListRows(shown: seq<Book>, pagination: seq<Button>) returns (rows: Keyboard)
    ensures rows == ListRows(shown, pagination)
  {
    rows := BookButtons(shown);
    if |pagination| > 0 {
      rows := rows + [pagination];
    }
    rows := rows + FilterAndAddRows();
  }

  /** The layout of the list's keyboard: row `i` manages shown book `i`, the
      row after the books is the pagination row exactly when that row is not
      empty, and the last two rows are "change filter" then "add a book". */
  lemma ListMessageLayout(chatId: Long, allBooks: seq<Book>, filter: Option<BookStatus>, page: Int32)
    requires page >= 0
    ensures var shown := PageBooks(allBooks, filter, page).value;
      var pagination := PaginationRow(page, Size(FilterByStatus(allBooks, filter)), PageSize);
      var m := ListMessage(chatId, allBooks, filter, page).value;
      var rows := m.keyboard.value;
      && m.text == BooksText(shown, filter)
      && |rows| == |shown| + (if pagination == [] then 0 else 1) + 2
      && (forall i :: 0 <= i < |shown| ==>
            rows[i] == [Button(shown[i].title, "manage_book:" + IntToString(shown[i].id))])
      && (pagination != [] ==> rows[|shown|] == pagination)
      && rows[|rows| - 2] == [ChangeFilterButton]
      && rows[|rows| - 1] == [AddBookRowButton]
  {
  }

  /** The list keyboard holds a "back" button exactly off the first page and a
      "forward" button exactly when books follow the page. */
  lemma ListMessagePaging(chatId: Long, allBooks: seq<Book>, filter: Option<BookStatus>, page: Int32)
    requires page >= 0
    requires |FilterByStatus(allBooks, filter)| <= MaxInt32
    ensures var shown := PageBooks(allBooks, filter, page).value;
      var rows := ListMessage(chatId, allBooks, filter, page).value.keyboard.value;
      var n := |FilterByStatus(allBooks, filter)|;
      && (page > 0 || (page + 1) * PageSize < n <==> |rows| == |shown| + 3)
      && (|rows| == |shown| + 3 ==>
            (PrevPageButton in rows[|shown|] <==> page > 0)
            && (NextPageButton in rows[|shown|] <==> (page + 1) * PageSize < n))
  {
  }
}
