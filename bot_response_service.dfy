/** The dialogue controller (bot/service/BotResponseService.java) as an object
    over the session store and the book store it was given. Each handler works
    step by step through the stores' methods, like BotResponseService.java, and its
    contract ties the stores' contents afterwards and the outcome to the
    handler's function in module Dialogue applied to their contents before. */
module Controller {
  import opened JavaLang
  import opened BookStatuses
  import opened Entities
  import opened UserSessions
  import opened SessionStore
  import opened BookStore
  import opened Messages
  import opened Payloads
  import opened ListView
  import opened StatusKeyboards
  import opened Dialogue

  class BotResponseService {
    const userStateService: UserStateService
    const bookService: BookService
    /** The services whose code is not part of this model. */
    const env: Collaborators
    /** The configured `book.searchResult.maxCount`. */
    const maxCountBooks: nat

    constructor (userStateService: UserStateService, bookService: BookService, env: Collaborators, maxCountBooks: nat)
      ensures this.userStateService == userStateService && this.bookService == bookService
      ensures this.env == env && this.maxCountBooks == maxCountBooks
    {
      this.userStateService := userStateService;
      this.bookService := bookService;
      this.env := env;
      this.maxCountBooks := maxCountBooks;
    }

    /** The contents of the two stores. */
    function State(): World
      reads userStateService, bookService
    {
      World(userStateService.userSessions, bookService.books)
    }

    /** handleTextMessage. */
    method HandleTextMessage(chatId: ChatId, messageText: string) returns (r: Outcome)
      modifies userStateService, bookService
      ensures Step(State(), r) == TextStep(env, maxCountBooks, old(State()), chatId, messageText)
    {
      if messageText == "/start" {
        return Replied([WelcomeMessage(ChatIdString(chatId))]);
      }
      var state := userStateService.GetState(chatId);
      match state
      case WAITING_FOR_TITLE =>
        r := HandleBookTitle(chatId, messageText);
      case WAITING_FOR_PAGE =>
        r := HandleNumberInput(chatId, messageText, env.updatePage, env.updatedPageMessages);
      case WAITING_FOR_RATING =>
        r := HandleNumberInput(chatId, messageText, env.updateRating, env.updatedRatingMessages);
      case NONE =>
        r := Replied([UnknownCommandMessage(ChatIdString(chatId))]);
    }

    /** handleBookTitle. */
    method HandleBookTitle(chatId: ChatId, title: string) returns (r: Outcome)
      modifies userStateService
      ensures Step(State(), r) == BookTitleStep(env, maxCountBooks, old(State()), chatId, title)
    {
      var books := Limit(env.searchBooks(title), maxCountBooks);
      if |books| == 0 {
        return Replied([env.noBooksFoundMessage(chatId)]);
      }
      userStateService.SetState(chatId, NONE);
      userStateService.SaveSearchResults(chatId, books);
      r := Replied([SearchResultsMessage(ChatIdString(chatId), books)]);
    }

    /** handlePageInput and handleRatingInput, which differ only in the update
        and the reply: getBookAndClearState, then the parse, then the update. */
    method HandleNumberInput(chatId: ChatId, messageText: string,
                             update: (Table, Book, Int32) -> Result<Table>,
                             reply: (ChatId, Int32, Book) -> seq<Msg>) returns (r: Outcome)
      modifies userStateService, bookService
      ensures Step(State(), r) == NumberInputStep(env, old(State()), chatId, messageText, update, reply)
    {
      userStateService.SetState(chatId, NONE);
      var bookId := userStateService.GetBookIdForChange(chatId);
      var book := env.getBookById(bookService.books, bookId);
      if book.Err? {
        return Thrown(book.error);
      }
      var number := ParseInt(messageText);
      if number.Err? {
        return Thrown(number.error);
      }
      var updated := update(bookService.books, book.value, number.value);
      if updated.Err? {
        return Thrown(updated.error);
      }
      bookService.books := updated.value;
      r := Replied(reply(chatId, number.value, book.value));
    }

    /** handleCallbackQuery. */
    method HandleCallbackQuery(chatId: ChatId, data: string) returns (r: Outcome)
      modifies userStateService, bookService
      ensures Step(State(), r) == CallbackStep(env, old(State()), chatId, data)
    {
      var command := Command(data);
      if command.Err? {
        return Thrown(command.error);
      }
      r := HandleCommand(chatId, CaseOf(command.value), data);
    }

    /** The switch of handleCallbackQuery. */
    method HandleCommand(chatId: ChatId, k: CallbackCommand, data: string) returns (r: Outcome)
      modifies userStateService, bookService
      ensures Step(State(), r) == CommandStep(env, old(State()), chatId, k, data)
    {
      var chat := ChatIdString(chatId);
      match k
      case AddBook =>
        userStateService.SetState(chatId, WAITING_FOR_TITLE);
        r := Replied([RequestBookTitleMessage(chat)]);
      case CancelAddedBook =>
        userStateService.SetState(chatId, NONE);
        userStateService.ClearSearchResults(chatId);
        r := Replied([CancelledMessage(chat)]);
      case ShowBooks =>
        r := HandleListCommand(chatId, k, data);
      case SelectBook =>
        r := HandleBookSelection(chatId, data);
      case BooksNextPage =>
        r := HandleListCommand(chatId, k, data);
      case BooksPrevPage =>
        r := HandleListCommand(chatId, k, data);
      case ChangeFilter =>
        var m := BuildStatusFilterButtons(chatId);
        r := Replied([m]);
      case FilterStatusClear =>
        r := HandleListCommand(chatId, k, data);
      case FilterByStatus =>
        r := HandleFilterByStatus(chatId, data);
      case ManageBook =>
        r := HandleManageBook(chatId, data);
      case ChangeStatus =>
        r := Replied([ChangeStatusMessage(chatId)]);
      case UpdatePage =>
        userStateService.SetState(chatId, WAITING_FOR_PAGE);
        r := Replied([env.requestPageInputMessage(chatId)]);
      case RateBook =>
        userStateService.SetState(chatId, WAITING_FOR_RATING);
        r := Replied([env.requestRatingInputMessage(chatId)]);
      case DeleteBook =>
        r := HandleDeleteBook(chatId, data);
      case SetStatus =>
        r := HandleSetStatusCallback(chatId, data);
      case UnknownCommand =>
        r := Replied([UnknownCallbackMessage(chat)]);
    }

    /** The cases that change one session field and send the list again:
        `show_books`, the two page buttons and `filter_status_clear`. */
    method HandleListCommand(chatId: ChatId, k: CallbackCommand, data: string) returns (r: Outcome)
      requires k == ShowBooks || k == BooksNextPage || k == BooksPrevPage || k == FilterStatusClear
      modifies userStateService
      ensures Step(State(), r) == CommandStep(env, old(State()), chatId, k, data)
    {
      ghost var w := old(State());
      ghost var session := Sess(w, chatId);
      match k {
        case ShowBooks =>
          userStateService.SetBookIdForChange(chatId, None);
          assert State() == Saved(w, chatId, session.(bookIdForChange := None));
        case BooksNextPage =>
          userStateService.IncrementPage(chatId);
          assert State() == Saved(w, chatId, session.(currentPage := Wrap32(session.currentPage as int + 1)));
        case BooksPrevPage =>
          userStateService.DecrementPage(chatId);
          assert State() == Saved(w, chatId, session.(currentPage := DecrementedPage(session.currentPage)));
        case FilterStatusClear =>
          userStateService.SetBookStatusFilter(chatId, None);
          assert State() == Saved(w, chatId, session.(bookStatusFilter := None));
      }
      assert CommandStep(env, w, chatId, k, data) == ListReply(env, State(), chatId, []);
      r := ReplyWithList(chatId, []);
    }

    /** The `filter_by_status` case. */
    method HandleFilterByStatus(chatId: ChatId, data: string) returns (r: Outcome)
      modifies userStateService
      ensures Step(State(), r) == FilterByStatusStep(env, old(State()), chatId, data)
    {
      var status := FilterStatus(data);
      if status.Err? {
        return Thrown(status.error);
      }
      userStateService.SetBookStatusFilter(chatId, Some(status.value));
      r := ReplyWithList(chatId, []);
    }

    /** The `manage_book` case. */
    method HandleManageBook(chatId: ChatId, data: string) returns (r: Outcome)
      modifies userStateService
      ensures Step(State(), r) == ManageBookStep(env, old(State()), chatId, data)
    {
      var bookId := ExtractBookId(data);
      if bookId.Err? {
        return Thrown(bookId.error);
      }
      userStateService.SetBookIdForChange(chatId, Some(bookId.value));
      var optionalBook := env.getBookOptionalById(bookService.books, bookId.value);
      r := Replied([env.bookMenuMessage(chatId, optionalBook)]);
    }

    /** handleDeleteBook: the id from the payload, then deleteBook. */
    method HandleDeleteBook(chatId: ChatId, data: string) returns (r: Outcome)
      modifies bookService
      ensures userStateService.userSessions == old(userStateService.userSessions)
      ensures Step(State(), r) == DeleteBookStep(env, old(State()), chatId, data)
    {
      var bookId := ExtractBookId(data);
      if bookId.Err? {
        return Thrown(bookId.error);
      }
      bookService.DeleteBook(bookId.value);
      r := Replied([env.deletedBookMessage(chatId)]);
    }

    /** handleBookSelection. */
    method HandleBookSelection(chatId: ChatId, data: string) returns (r: Outcome)
      modifies userStateService, bookService
      ensures Step(State(), r) == BookSelectionStep(env, old(State()), chatId, data)
    {
      var index := SelectIndex(data);
      if index.Err? {
        return Thrown(index.error);
      }
      var books := userStateService.GetSearchResults(chatId);
      if index.value >= Size(books) {
        return Replied([BookNotFoundByIndexMessage(ChatIdString(chatId))]);
      }
      if index.value < 0 {
        return Thrown(IndexOutOfBounds);
      }
      var selectedBook := books[index.value];
      var added := env.addBook(bookService.books, chatId, selectedBook.title, selectedBook.author);
      if added.Err? {
        return Thrown(added.error);
      }
      bookService.books := added.value;
      userStateService.ClearSearchResults(chatId);
      var addedMessage := BookAddedMessage(ChatIdString(chatId), selectedBook.title);
      r := ReplyWithList(chatId, [addedMessage]);
    }

    /** handleSetStatusCallback. */
    method HandleSetStatusCallback(chatId: ChatId, data: string) returns (r: Outcome)
      modifies userStateService, bookService
      ensures Step(State(), r) == SetStatusStep(env, old(State()), chatId, data)
    {
      var statusStr := SetStatusText(data);
      var status := ValueOf(statusStr);
      if status.Err? {
        return Replied([env.simpleMessage(chatId, UnknownStatusText + statusStr)]);
      }
      var bookId := userStateService.GetBookIdForChange(chatId);
      if bookId.None? {
        return Replied([env.simpleMessage(chatId, NoBookSelectedText)]);
      }
      var book := env.getBookById(bookService.books, bookId);
      if book.Err? {
        return Thrown(book.error);
      }
      var updated := env.updateStatus(bookService.books, book.value, status.value);
      if updated.Err? {
        return Thrown(updated.error);
      }
      bookService.books := updated.value;
      r := Replied(env.updatedStatusMessages(chatId, status.value, book.value));
    }

    /** The replies `before`, followed by the list (buildBookListMessage). */
    method ReplyWithList(chatId: ChatId, before: seq<Msg>) returns (r: Outcome)
      modifies userStateService
      ensures Step(State(), r) == ListReply(env, old(State()), chatId, before)
    {
      var list := BuildBookListMessage(chatId);
      if list.Err? {
        return Thrown(list.error);
      }
      r := Replied(before + [list.value]);
    }

    /** buildBookListMessage: the user's books, the filter and the page from
        the session, the filtered list, the page cut out of it with subList,
        then the text and the rows: the book rows, the pagination row when not
        empty, and the two fixed rows. */
    method BuildBookListMessage(chatId: ChatId) returns (r: Result<Msg>)
      modifies userStateService
      ensures userStateService.userSessions == Touch(old(userStateService.userSessions), chatId)
      ensures r == ListMessage(chatId, env.allBooksOfUser(bookService.books, chatId),
        Load(old(userStateService.userSessions), chatId).bookStatusFilter,
        Load(old(userStateService.userSessions), chatId).currentPage)
    {
      var allBooks := env.allBooksOfUser(bookService.books, chatId);
      var filter := userStateService.GetBookStatusFilter(chatId);
      var currentPage := userStateService.GetCurrentPage(chatId);
      r := LayOutList(chatId, allBooks, filter, currentPage);
    }
  }
}
