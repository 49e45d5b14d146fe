/** The reply builders (bot/service/MessageService.java). A Telegram message is
    a chat id, a text and an optional inline keyboard; a keyboard is a list of
    rows of buttons, each button a label and the callback payload it sends back
    when pressed (ButtonUtils.createButton). */
module Messages {
  import opened JavaLang
  import opened BookStatuses
  import opened Entities

  datatype Button = Button(text: string, payload: string)

  type Keyboard = seq<seq<Button>>

  /** A SendMessage: no keyboard is a message without reply markup. */
  datatype Msg = Msg(chatId: string, text: string, keyboard: Option<Keyboard>)

  /** String.valueOf(Long): every Long overload of a builder passes the chat id
      on in this form, and the number can be read back from it. */
  function ChatIdString(chatId: Long): (s: string)
    ensures ParseLong(s) == Ok(chatId)
    ensures ':' !in s
  {
    ParseLongOfToString(chatId);
    IntToStringChars(chatId);
    IntToString(chatId)
  }

  /** Two chats never receive the same chat id text. */
  lemma ChatIdStringInjective(a: Long, b: Long)
    requires ChatIdString(a) == ChatIdString(b)
    ensures a == b
  {
    assert Ok(a) == ParseLong(ChatIdString(a)) == ParseLong(ChatIdString(b)) == Ok(b);
  }

  function Payloads(row: seq<Button>): (r: seq<string>)
    ensures |r| == |row|
    ensures forall i :: 0 <= i < |row| ==> r[i] == row[i].payload
  {
    if row == [] then [] else Payloads(row[..|row| - 1]) + [row[|row| - 1].payload]
  }

  // ---------------------------------------------------------------------------
  // Fixed texts and buttons

  const WelcomeText: string := "Привет! Я бот для отслеживания книг 📚"
  const ShowBooksButton: Button := Button("Посмотреть мои книги", "show_books")
  const AddBookButton: Button := Button("Добавить книгу", "add_book")
  const RequestBookTitleText: string := "Введите название книги или автора:"
  const NothingFoundText: string := "Ничего не нашлось 😢 Введите название ещё раз."
  const ChooseBookText: string := "Выберите книгу:"
  const CancelSearchButton: Button := Button("❌ Отмена", "cancel")
  const CancelledText: string := "Добавление книги отменено."
  const UnknownCommandText: string := "Неизвестная команда. Попробуйте /start"
  const UnknownCallbackText: string := "Неизвестное действие. Попробуйте снова."
  const BookNotFoundByIndexText: string := "Не удалось найти книгу по выбранному индексу."
  const BooksTitle: string := "📚 *Список книг*"
  const NoBooksText: string := "Нет книг для отображения."
  const PrevPageButton: Button := Button("⬅️ Назад", "books_prev_page")
  const NextPageButton: Button := Button("Вперёд ➡️", "books_next_page")
  const ChangeFilterButton: Button := Button("📂 Изменить фильтр", "change_filter")
  const AddBookRowButton: Button := Button("➕ Добавить книгу", "add_book")

  /** A message carrying only a text. */
  function TextMessage(chatId: string, text: string): (m: Msg)
    ensures m.chatId == chatId && m.text == text && m.keyboard.None?
  {
    Msg(chatId, text, None)
  }

  /** buildWelcomeMessage: one row of two buttons, "show my books" then "add a book". */
  function WelcomeMessage(chatId: string): (m: Msg)
    ensures m.chatId == chatId && m.text == WelcomeText
    ensures m.keyboard.Some? && |m.keyboard.value| == 1
    ensures Payloads(m.keyboard.value[0]) == ["show_books", "add_book"]
  {
    Msg(chatId, WelcomeText, Some([[ShowBooksButton, AddBookButton]]))
  }

  function RequestBookTitleMessage(chatId: string): (m: Msg)
    ensures m.chatId == chatId && m.keyboard.None?
  {
    TextMessage(chatId, RequestBookTitleText)
  }

  function CancelledMessage(chatId: string): (m: Msg)
    ensures m.chatId == chatId && m.keyboard.None?
  {
    TextMessage(chatId, CancelledText)
  }

  function UnknownCommandMessage(chatId: string): (m: Msg)
    ensures m.chatId == chatId && m.keyboard.None?
  {
    TextMessage(chatId, UnknownCommandText)
  }

  function UnknownCallbackMessage(chatId: string): (m: Msg)
    ensures m.chatId == chatId && m.keyboard.None?
  {
    TextMessage(chatId, UnknownCallbackText)
  }

  function BookNotFoundByIndexMessage(chatId: string): (m: Msg)
    ensures m.chatId == chatId && m.keyboard.None?
  {
    TextMessage(chatId, BookNotFoundByIndexText)
  }

  /** buildBookAddedMessage: the title quoted inside a fixed sentence. */
  function BookAddedMessage(chatId: string, title: string): (m: Msg)
    ensures m.chatId == chatId && m.keyboard.None?
    ensures |m.text| == |title| + 20 && m.text[7..7 + |title|] == title
  {
    TextMessage(chatId, "Книга \"" + title + "\" добавлена 📚")
  }

  /** The title can be read back from the confirmation: distinct titles give
      distinct confirmations. */
  lemma BookAddedNamesTheBook(chatId: string, t1: string, t2: string)
    requires BookAddedMessage(chatId, t1) == BookAddedMessage(chatId, t2)
    ensures t1 == t2
  {
    var m1 := BookAddedMessage(chatId, t1);
    assert |t1| == |t2|;
    assert t1 == m1.text[7..7 + |t1|];
  }

  // ---------------------------------------------------------------------------
  // Search results

  /** The row offering candidate `i` for selection. */
  function CandidateRow(c: Candidate, i: nat): seq<Button>
  {
    [Button(c.title + " - " + c.author, "select_book:" + IntToString(i))]
  }

  /** One row per candidate, numbered from 0 in list order. */
  function CandidateRows(books: seq<Candidate>): (rows: Keyboard)
    ensures |rows| == |books|
    ensures forall i :: 0 <= i < |books| ==> rows[i] == CandidateRow(books[i], i)
  {
    if books == [] then [] else CandidateRows(books[..|books| - 1]) + [CandidateRow(books[|books| - 1], |books| - 1)]
  }

  /** buildBookSearchResults: no candidates is a plain "nothing found" text with
      no keyboard; otherwise one row per candidate, row `i` sending
      `select_book:i`, and a last row sending `cancel`. */
  function SearchResultsMessage(chatId: string, books: seq<Candidate>): (m: Msg)
    ensures m.chatId == chatId
    ensures books == [] <==> m.keyboard.None?
    ensures books == [] ==> m.text == NothingFoundText
    ensures books != [] ==>
      && m.text == ChooseBookText
      && |m.keyboard.value| == |books| + 1
      && (forall i :: 0 <= i < |books| ==>
            m.keyboard.value[i] == [Button(books[i].title + " - " + books[i].author, "select_book:" + IntToString(i))])
      && m.keyboard.value[|books|] == [CancelSearchButton]
  {
    if books == [] then TextMessage(chatId, NothingFoundText)
    else Msg(chatId, ChooseBookText, Some(CandidateRows(books) + [[CancelSearchButton]]))
  }

  method BuildBookSearchResults(chatId: string, books: seq<Candidate>) returns (m: Msg)
    ensures m == SearchResultsMessage(chatId, books)
  {
    if |books| == 0 {
      return Msg(chatId, NothingFoundText, None);
    }
    var rows: Keyboard := [];
    var i := 0;
    while i < |books|
      invariant 0 <= i <= |books|
      invariant rows == CandidateRows(books[..i])
    {
      var book := books[i];
      rows := rows + [[Button(book.title + " - " + book.author, "select_book:" + IntToString(i))]];
      i := i + 1;
      assert books[..i][..i - 1] == books[..i - 1];
    }
    assert books[..i] == books;
    rows := rows + [[CancelSearchButton]];
    m := Msg(chatId, ChooseBookText, Some(rows));
  }

  // ---------------------------------------------------------------------------
  // The book list

  /** The header of the list, naming the filter's status when there is one. */
  function BooksHeader(filter: Option<BookStatus>): string
  {
    if filter.Some? then BooksTitle + " (" + DisplayNameRu(filter.value) + ")" + ":\n\n"
    else BooksTitle + ":\n\n"
  }

  /** The line listing one book: title, author and status name. */
  function BookLine(b: Book): string
  {
    b.title + " - " + b.author + " - " + DisplayNameRu(b.status) + "\n"
  }

  /** The lines of the books, in list order. */
  function BookLines(books: seq<Book>): string
  {
    ConcatMap(BookLine, books)
  }

  /** buildBooksText: the header, then the placeholder if there are no books,
      otherwise one line per book. */
  function BooksText(books: seq<Book>, filter: Option<BookStatus>): string
  {
    BooksHeader(filter) + BooksBody(books)
  }

  /** The header names the filter's status exactly when there is a filter: the
      title is followed either by the status name in parentheses or directly by
      the colon that ends the header. */
  lemma {:induction false} BooksTextHeader(books: seq<Book>, filter: Option<BookStatus>)
    ensures BooksText(books, filter)[|BooksTitle|] == if filter.Some? then ' ' else ':'
    ensures filter.Some? ==>
      var name := DisplayNameRu(filter.value);
      BooksText(books, filter)[|BooksTitle| + 2..|BooksTitle| + 2 + |name|] == name
  {
    if filter.Some? {
      Pieces(BooksTitle, " (", DisplayNameRu(filter.value), ")", ":\n\n", BooksBody(books));
    } else {
      Pieces(BooksTitle, ":\n\n", [], [], [], BooksBody(books));
      assert BooksTitle + ":\n\n" + [] + [] + [] == BooksTitle + ":\n\n";
    }
  }

  /** Where the pieces of a concatenation sit. */
  lemma Pieces(t: string, a: string, b: string, c: string, d: string, e: string)
    requires a != []
    ensures (t + a + b + c + d + e)[|t|] == a[0]
    ensures (t + a + b + c + d + e)[|t| + |a|..|t| + |a| + |b|] == b
  {
  }

  /** What follows the header: the placeholder, or the lines of the books. */
  function BooksBody(books: seq<Book>): string
  {
    if books == [] then NoBooksText else BookLines(books)
  }

  /** The lines of a non-empty list end in a line break, so they never read
      as the placeholder. */
  lemma {:induction false} BookLinesEndInBreak(books: seq<Book>)
    requires books != []
    ensures BookLines(books) != [] && BookLines(books)[|BookLines(books)| - 1] == '\n'
  {
    var line := BookLine(books[|books| - 1]);
    assert line[|line| - 1] == '\n';
  }

  /** The placeholder is shown exactly when there are no books. */
  lemma {:induction false} BooksTextPlaceholder(books: seq<Book>, filter: Option<BookStatus>)
    ensures books == [] <==> BooksText(books, filter) == BooksHeader(filter) + NoBooksText
  {
    if books != [] {
      var h, lines := BooksHeader(filter), BookLines(books);
      BookLinesEndInBreak(books);
      assert NoBooksText[|NoBooksText| - 1] == '.';
      assert lines != NoBooksText by {
        if |lines| == |NoBooksText| {
          assert lines[|lines| - 1] != NoBooksText[|lines| - 1];
        }
      }
      assert (h + lines)[|h|..] == lines;
      assert (h + NoBooksText)[|h|..] == NoBooksText;
    }
  }

  /** Each book has its own line, between those of the books before it and those
      of the books after it. */
  lemma BookLinesAt(books: seq<Book>, i: nat)
    requires i < |books|
    ensures BookLines(books) == BookLines(books[..i]) + BookLine(books[i]) + BookLines(books[i + 1..])
  {
    ConcatMapAt(BookLine, books, i);
  }

  method BuildBooksText(books: seq<Book>, filter: Option<BookStatus>) returns (text: string)
    ensures text == BooksText(books, filter)
  {
    text := BooksHeader(filter);
    if |books| == 0 {
      text := text + NoBooksText;
    } else {
      ghost var header := text;
      var i := 0;
      while i < |books|
        invariant 0 <= i <= |books|
        invariant text == header + BookLines(books[..i])
      {
        var book := books[i];
        var line := book.title + " - " + book.author + " - " + DisplayNameRu(book.status) + "\n";
        assert line == BookLine(books[i]);
        ConcatMapSnoc(BookLine, books, i);
        AppendAssoc(header, BookLines(books[..i]), line);
        text := text + line;
        i := i + 1;
      }
      assert books[..i] == books;
    }
  }

  /** buildBookButtons: one single-button row per book, in order, labelled with
      the title and sending `manage_book:<id>`. */
  function BookButtons(books: seq<Book>): (rows: Keyboard)
    ensures |rows| == |books|
    ensures forall i :: 0 <= i < |books| ==>
      rows[i] == [Button(books[i].title, "manage_book:" + IntToString(books[i].id))]
  {
    if books == [] then []
    else
      var last := books[|books| - 1];
      BookButtons(books[..|books| - 1]) + [[Button(last.title, "manage_book:" + IntToString(last.id))]]
  }

  /** buildPaginationButtons, with the page arithmetic done exactly: "back"
      exactly when not on the first page, "forward" exactly when some book lies
      past the current page, "back" first when both are shown. */
  function PaginationRow(currentPage: Int32, totalBooks: Int32, pageSize: Int32): (row: seq<Button>)
    ensures PrevPageButton in row <==> currentPage > 0
    ensures NextPageButton in row <==> (currentPage as int + 1) * pageSize < totalBooks
    ensures forall b :: b in row ==> b == PrevPageButton || b == NextPageButton
    ensures |row| <= 2 && (|row| == 2 ==> row == [PrevPageButton, NextPageButton])
  {
    (if currentPage > 0 then [PrevPageButton] else [])
      + (if (currentPage as int + 1) * pageSize < totalBooks then [NextPageButton] else [])
  }

  method BuildPaginationButtons(currentPage: Int32, totalBooks: Int32, pageSize: Int32) returns (buttons: seq<Button>)
    ensures buttons == PaginationRow(currentPage, totalBooks, pageSize)
  {
    buttons := [];
    if currentPage > 0 {
      buttons := buttons + [PrevPageButton];
    }
    if (currentPage as int + 1) * pageSize < totalBooks {
      buttons := buttons + [NextPageButton];
    }
  }

  /** buildPaginationButtons as written: `(currentPage + 1) * pageSize` is
      evaluated in 32-bit `int` arithmetic and can wrap around. */
  function PaginationRowAsWritten(currentPage: Int32, totalBooks: Int32, pageSize: Int32): (row: seq<Button>)
    ensures PrevPageButton in row <==> currentPage > 0
    ensures NextPageButton in row <==> Wrap32(Wrap32(currentPage as int + 1) * pageSize) < totalBooks
  {
    (if currentPage > 0 then [PrevPageButton] else [])
      + (if Wrap32(Wrap32(currentPage as int + 1) * pageSize) < totalBooks then [NextPageButton] else [])
  }

  /** On page 214748364 with page size 10, `(page + 1) * 10` wraps to a negative
      number, so an empty list still offers "forward". */
  lemma PaginationOverflowShowsNext()
    ensures NextPageButton in PaginationRowAsWritten(214748364, 0, 10)
    ensures NextPageButton !in PaginationRow(214748364, 0, 10)
  {
    assert Wrap32(214748365 * 10) == -2147483646;
  }

  /** Whenever the next page's offset fits in an `int`, the code as written
      lays out the same buttons. */
  lemma PaginationAgreesWithoutOverflow(currentPage: Int32, totalBooks: Int32, pageSize: Int32)
    requires MinInt32 <= (currentPage as int + 1) * pageSize <= MaxInt32
    requires currentPage < MaxInt32
    ensures PaginationRowAsWritten(currentPage, totalBooks, pageSize) == PaginationRow(currentPage, totalBooks, pageSize)
  {
  }

  /** buildFilterAndAddButtons: "change filter" then "add a book", one per row. */
  function FilterAndAddRows(): (rows: Keyboard)
    ensures |rows| == 2 && |rows[0]| == 1 && |rows[1]| == 1
    ensures rows[0][0].payload == "change_filter" && rows[1][0].payload == "add_book"
  {
    [[ChangeFilterButton], [AddBookRowButton]]
  }
}
