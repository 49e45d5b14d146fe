/** What the dialogue controller (bot/service/BotResponseService.java) does
    with one incoming text or one pressed button, as a function of the state
    it finds: the sessions of the chats and the table of books. Each handler
    gives the state afterwards and either the replies or the exception that
    escapes, the state keeping every change made before the throw. */
module Dialogue {
  import opened JavaLang
  import opened BookStatuses
  import opened Entities
  import opened UserSessions
  import opened SessionStore
  import opened BookStore
  import opened Messages
  import opened Payloads
  import opened ListView
  import opened StatusKeyboards

  /** The services the controller calls whose code is not part of this model,
      each an arbitrary function of what it is given: the book search, the
      book queries and updates of the store that are not defined in
      service/BookService.java, and the reply builders not defined in
      bot/service/MessageService.java. A failing call is an Err. */
  datatype Collaborators = Collaborators(
    searchBooks: string -> seq<Candidate>,
    allBooksOfUser: (Table, ChatId) -> seq<Book>,
    getBookById: (Table, Option<Long>) -> Result<Book>,
    getBookOptionalById: (Table, Long) -> Option<Book>,
    addBook: (Table, ChatId, string, string) -> Result<Table>,
    updatePage: (Table, Book, Int32) -> Result<Table>,
    updateRating: (Table, Book, Int32) -> Result<Table>,
    updateStatus: (Table, Book, BookStatus) -> Result<Table>,
    noBooksFoundMessage: ChatId -> Msg,
    bookMenuMessage: (ChatId, Option<Book>) -> Msg,
    requestPageInputMessage: ChatId -> Msg,
    requestRatingInputMessage: ChatId -> Msg,
    deletedBookMessage: ChatId -> Msg,
    updatedPageMessages: (ChatId, Int32, Book) -> seq<Msg>,
    updatedRatingMessages: (ChatId, Int32, Book) -> seq<Msg>,
    updatedStatusMessages: (ChatId, BookStatus, Book) -> seq<Msg>,
    simpleMessage: (ChatId, string) -> Msg)

  /** The state the controller works on: the session table and the book table. */
  datatype World = World(sessions: map<ChatId, Session>, books: Table)

  /** The list of replies, or the exception that leaves the handler. */
  datatype Outcome = Replied(messages: seq<Msg>) | Thrown(error: JavaException)

  /** The state after a handler, with its outcome. */
  datatype Step = Step(world: World, outcome: Outcome)

  const UnknownStatusText: string := "Неизвестный статус: "
  const NoBookSelectedText: string := "Книга не выбрана для изменения статуса"

  /** The session a chat sees. */
  function Sess(w: World, c: ChatId): Session
  {
    Load(w.sessions, c)
  }

  /** The state after a getter of the store, which creates the chat's entry. */
  function Touched(w: World, c: ChatId): World
  {
    w.(sessions := Touch(w.sessions, c))
  }

  /** The state after a setter of the store wrote session `s` for chat `c`. */
  function Saved(w: World, c: ChatId, s: Session): World
  {
    w.(sessions := Put(w.sessions, c, s))
  }

  /** buildBookListMessage, sent after the messages `before`: the filter and
      the page are read through the store's getters. */
  function ListReply(env: Collaborators, w: World, c: ChatId, before: seq<Msg>): Step
  {
    var s := Sess(w, c);
    match ListMessage(c, env.allBooksOfUser(w.books, c), s.bookStatusFilter, s.currentPage)
    case Err(e) => Step(Touched(w, c), Thrown(e))
    case Ok(m) => Step(Touched(w, c), Replied(before + [m]))
  }

  // ---------------------------------------------------------------------------
  // Free text

  /** handleTextMessage: `/start` greets without looking at the session;
      other text is routed by the chat's state. */
  function TextStep(env: Collaborators, maxCountBooks: nat, w: World, c: ChatId, text: string): Step
  {
    if text == "/start" then Step(w, Replied([WelcomeMessage(ChatIdString(c))]))
    else
      var w1 := Touched(w, c);
      match Sess(w, c).state
      case WAITING_FOR_TITLE => BookTitleStep(env, maxCountBooks, w1, c, text)
      case WAITING_FOR_PAGE => NumberInputStep(env, w1, c, text, env.updatePage, env.updatedPageMessages)
      case WAITING_FOR_RATING => NumberInputStep(env, w1, c, text, env.updateRating, env.updatedRatingMessages)
      case NONE => Step(w1, Replied([UnknownCommandMessage(ChatIdString(c))]))
  }

  /** handleBookTitle: the search results cut to `maxCountBooks`; none leaves
      the session alone, otherwise the state returns to NONE and the results
      are cached and offered. */
  function BookTitleStep(env: Collaborators, maxCountBooks: nat, w: World, c: ChatId, title: string): Step
  {
    var books := Limit(env.searchBooks(title), maxCountBooks);
    if books == [] then Step(w, Replied([env.noBooksFoundMessage(c)]))
    else
      var w1 := Saved(w, c, Sess(w, c).(state := NONE));
      var w2 := Saved(w1, c, Sess(w1, c).(searchResults := books));
      Step(w2, Replied([SearchResultsMessage(ChatIdString(c), books)]))
  }

  /** handlePageInput and handleRatingInput: getBookAndClearState resets the
      state to NONE and fetches the book being edited; only then is the text
      parsed as an `int`, so text that is no number throws with the state
      already reset. */
  function NumberInputStep(env: Collaborators, w: World, c: ChatId, text: string,
                           update: (Table, Book, Int32) -> Result<Table>,
                           reply: (ChatId, Int32, Book) -> seq<Msg>): Step
  {
    var w1 := Touched(Saved(w, c, Sess(w, c).(state := NONE)), c);
    match env.getBookById(w1.books, Sess(w1, c).bookIdForChange)
    case Err(e) => Step(w1, Thrown(e))
    case Ok(book) =>
      match ParseInt(text)
      case Err(e) => Step(w1, Thrown(e))
      case Ok(n) =>
        match update(w1.books, book, n)
        case Err(e) => Step(w1, Thrown(e))
        case Ok(t) => Step(w1.(books := t), Replied(reply(c, n, book)))
  }

  // ---------------------------------------------------------------------------
  // Buttons

  /** The cases of the callback switch, and the default. */
  datatype CallbackCommand =
    | AddBook | CancelAddedBook | ShowBooks | SelectBook | BooksNextPage | BooksPrevPage
    | ChangeFilter | FilterStatusClear | FilterByStatus | ManageBook | ChangeStatus
    | UpdatePage | RateBook | DeleteBook | SetStatus | UnknownCommand

  /** The case label a command matches. */
  function CaseOf(command: string): (k: CallbackCommand)
  {
    if command == "add_book" then AddBook
    else if command == "cancel_added_book" then CancelAddedBook
    else if command == "show_books" then ShowBooks
    else if command == "select_book" then SelectBook
    else if command == "books_next_page" then BooksNextPage
    else if command == "books_prev_page" then BooksPrevPage
    else if command == "change_filter" then ChangeFilter
    else if command == "filter_status_clear" then FilterStatusClear
    else if command == "filter_by_status" then FilterByStatus
    else if command == "manage_book" then ManageBook
    else if command == "change_status" then ChangeStatus
    else if command == "update_page" then UpdatePage
    else if command == "rate_book" then RateBook
    else if command == "delete_book" then DeleteBook
    else if command == "set_status" then SetStatus
    else UnknownCommand
  }

  /** The label of each case, in the order of the switch. */
  function Label(k: CallbackCommand): string
  {
    match k
    case AddBook => "add_book"
    case CancelAddedBook => "cancel_added_book"
    case ShowBooks => "show_books"
    case SelectBook => "select_book"
    case BooksNextPage => "books_next_page"
    case BooksPrevPage => "books_prev_page"
    case ChangeFilter => "change_filter"
    case FilterStatusClear => "filter_status_clear"
    case FilterByStatus => "filter_by_status"
    case ManageBook => "manage_book"
    case ChangeStatus => "change_status"
    case UpdatePage => "update_page"
    case RateBook => "rate_book"
    case DeleteBook => "delete_book"
    case SetStatus => "set_status"
    case UnknownCommand => ""
  }

  /** handleCallbackQuery: the command before the first colon picks the case. */
  function CallbackStep(env: Collaborators, w: World, c: ChatId, data: string): Step
  {
    match Command(data)
    case Err(e) => Step(w, Thrown(e))
    case Ok(command) => CommandStep(env, w, c, CaseOf(command), data)
  }

  /** The cases of the callback switch, each its own function. */
  function CommandStep(env: Collaborators, w: World, c: ChatId, k: CallbackCommand, data: string): Step
  {
    match k
    case AddBook => PromptStep(w, c, WAITING_FOR_TITLE, RequestBookTitleMessage(ChatIdString(c)))
    case CancelAddedBook => CancelAddedBookStep(w, c)
    case ShowBooks => ShowBooksStep(env, w, c)
    case SelectBook => BookSelectionStep(env, w, c, data)
    case BooksNextPage => NextPageStep(env, w, c)
    case BooksPrevPage => PrevPageStep(env, w, c)
    case ChangeFilter => Step(w, Replied([StatusFilterMessage(c)]))
    case FilterStatusClear => FilterClearStep(env, w, c)
    case FilterByStatus => FilterByStatusStep(env, w, c, data)
    case ManageBook => ManageBookStep(env, w, c, data)
    case ChangeStatus => Step(w, Replied([ChangeStatusMessage(c)]))
    case UpdatePage => PromptStep(w, c, WAITING_FOR_PAGE, env.requestPageInputMessage(c))
    case RateBook => PromptStep(w, c, WAITING_FOR_RATING, env.requestRatingInputMessage(c))
    case DeleteBook => DeleteBookStep(env, w, c, data)
    case SetStatus => SetStatusStep(env, w, c, data)
    case UnknownCommand => Step(w, Replied([UnknownCallbackMessage(ChatIdString(c))]))
  }

  /** The `add_book`, `update_page` and `rate_book` cases: the chat now waits
      for a title, a page or a rating, and is prompted for it. */
  function PromptStep(w: World, c: ChatId, waitFor: UserState, prompt: Msg): Step
  {
    Step(Saved(w, c, Sess(w, c).(state := waitFor)), Replied([prompt]))
  }

  /** The `cancel_added_book` case: back to NONE, and the cached search
      results are forgotten. */
  function CancelAddedBookStep(w: World, c: ChatId): Step
  {
    var w1 := Saved(w, c, Sess(w, c).(state := NONE));
    Step(Saved(w1, c, Sess(w1, c).(searchResults := [])), Replied([CancelledMessage(ChatIdString(c))]))
  }

  /** The `show_books` case: no book is selected any more; the list is sent. */
  function ShowBooksStep(env: Collaborators, w: World, c: ChatId): Step
  {
    ListReply(env, Saved(w, c, Sess(w, c).(bookIdForChange := None)), c, [])
  }

  /** The `books_next_page` case: one page forward; the list is sent. */
  function NextPageStep(env: Collaborators, w: World, c: ChatId): Step
  {
    ListReply(env, Saved(w, c, Sess(w, c).(currentPage := Wrap32(Sess(w, c).currentPage as int + 1))), c, [])
  }

  /** The `books_prev_page` case: one page back; the list is sent. */
  function PrevPageStep(env: Collaborators, w: World, c: ChatId): Step
  {
    ListReply(env, Saved(w, c, Sess(w, c).(currentPage := DecrementedPage(Sess(w, c).currentPage))), c, [])
  }

  /** The `filter_status_clear` case: no filter; the list is sent. */
  function FilterClearStep(env: Collaborators, w: World, c: ChatId): Step
  {
    ListReply(env, Saved(w, c, Sess(w, c).(bookStatusFilter := None)), c, [])
  }

  /** The `filter_by_status` case: the status named after the prefix becomes
      the filter and the list is sent; an unknown name throws. */
  function FilterByStatusStep(env: Collaborators, w: World, c: ChatId, data: string): Step
  {
    match FilterStatus(data)
    case Err(e) => Step(w, Thrown(e))
    case Ok(status) => ListReply(env, Saved(w, c, Sess(w, c).(bookStatusFilter := Some(status))), c, [])
  }

  /** The `manage_book` case: the id in the payload becomes the book being
      edited, and the book menu is sent for the book the store finds. */
  function ManageBookStep(env: Collaborators, w: World, c: ChatId, data: string): Step
  {
    match ExtractBookId(data)
    case Err(e) => Step(w, Thrown(e))
    case Ok(id) =>
      var w1 := Saved(w, c, Sess(w, c).(bookIdForChange := Some(id)));
      Step(w1, Replied([env.bookMenuMessage(c, env.getBookOptionalById(w1.books, id))]))
  }

  /** handleDeleteBook: the book with the id in the payload leaves the table. */
  function DeleteBookStep(env: Collaborators, w: World, c: ChatId, data: string): Step
  {
    match ExtractBookId(data)
    case Err(e) => Step(w, Thrown(e))
    case Ok(id) => Step(w.(books := w.books - {id}), Replied([env.deletedBookMessage(c)]))
  }

  /** handleBookSelection: the index is parsed first, then the cached results
      are read. An index past the end is answered with "not found"; a negative
      one is not checked and List.get throws; otherwise the chosen candidate is
      added, the cache emptied, and the confirmation and the list are sent. */
  function BookSelectionStep(env: Collaborators, w: World, c: ChatId, data: string): Step
  {
    match SelectIndex(data)
    case Err(e) => Step(w, Thrown(e))
    case Ok(index) =>
      var w1 := Touched(w, c);
      var results := Sess(w, c).searchResults;
      if index >= Size(results) then
        Step(w1, Replied([BookNotFoundByIndexMessage(ChatIdString(c))]))
      else if index < 0 then
        Step(w1, Thrown(IndexOutOfBounds))
      else
        var selected := results[index];
        match env.addBook(w1.books, c, selected.title, selected.author)
        case Err(e) => Step(w1, Thrown(e))
        case Ok(t) =>
          var w2 := w1.(books := t);
          var w3 := Saved(w2, c, Sess(w2, c).(searchResults := []));
          ListReply(env, w3, c, [BookAddedMessage(ChatIdString(c), selected.title)])
  }

  /** handleSetStatusCallback: an unknown status name is caught and answered
      before the session is read; with no book selected the answer says so;
      otherwise the book gets the new status. */
  function SetStatusStep(env: Collaborators, w: World, c: ChatId, data: string): Step
  {
    var statusStr := SetStatusText(data);
    match ValueOf(statusStr)
    case Err(_) => Step(w, Replied([env.simpleMessage(c, UnknownStatusText + statusStr)]))
    case Ok(status) =>
      var w1 := Touched(w, c);
      match Sess(w, c).bookIdForChange
      case None => Step(w1, Replied([env.simpleMessage(c, NoBookSelectedText)]))
      case Some(id) =>
        match env.getBookById(w1.books, Some(id))
        case Err(e) => Step(w1, Thrown(e))
        case Ok(book) =>
          match env.updateStatus(w1.books, book, status)
          case Err(e) => Step(w1, Thrown(e))
          case Ok(t) => Step(w1.(books := t), Replied(env.updatedStatusMessages(c, status, book)))
  }
}
