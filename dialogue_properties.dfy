/** What the dialogue promises, stated over the handler functions of module
    Dialogue for every state, chat and input: which session fields a handler
    sets, that the other chats and the book table are left alone, which reply
    goes out, and the round trips from a button on a keyboard the bot sent to
    the handler that button reaches. */
module DialogueProperties {
  import opened JavaLang
  import opened BookStatuses
  import opened Entities
  import opened UserSessions
  import opened SessionStore
  import opened BookStore
  import opened Messages
  import opened Payloads
  import opened ListView
  import opened StatusKeyboards
  import opened Dialogue

  /** Two states look the same to every chat: the getters read the same
      sessions and the book table is the same. */
  predicate SameView(w: World, w': World)
  {
    w'.books == w.books && forall d :: Sess(w', d) == Sess(w, d)
  }

  /** The state `w'` differs from `w` at most in the session of chat `c`. */
  predicate OnlySessionOf(w: World, w': World, c: ChatId)
  {
    w'.books == w.books && forall d :: d != c ==> Sess(w', d) == Sess(w, d)
  }

  /** Reading a session through a getter changes nothing any chat can see. */
  lemma TouchedSameView(w: World, c: ChatId)
    ensures SameView(w, Touched(w, c))
  {
    forall d ensures Sess(Touched(w, c), d) == Sess(w, d) {
      TouchIsUnobservable(w.sessions, c, d);
    }
  }

  /** A setter of chat `c`'s session makes `s` the session of `c` and leaves
      every other chat and the books alone. */
  lemma SavedOnlySessionOf(w: World, c: ChatId, s: Session)
    ensures Sess(Saved(w, c, s), c) == s
    ensures OnlySessionOf(w, Saved(w, c, s), c)
  {
    forall d | d != c ensures Sess(Saved(w, c, s), d) == Sess(w, d) {
      PutLeavesOthers(w.sessions, c, s, d);
    }
  }

  /** Sending the list reads the session but changes nothing a chat can see;
      the list shown is the list of the session's filter and page. */
  lemma ListReplySameView(env: Collaborators, w: World, c: ChatId, before: seq<Msg>)
    ensures SameView(w, ListReply(env, w, c, before).world)
    ensures var m := ListMessage(c, env.allBooksOfUser(w.books, c), Sess(w, c).bookStatusFilter, Sess(w, c).currentPage);
      ListReply(env, w, c, before).outcome == if m.Ok? then Replied(before + [m.value]) else Thrown(m.error)
  {
    TouchedSameView(w, c);
  }

  // ---------------------------------------------------------------------------
  // Free text

  /** `/start` greets with one message and touches nothing, whatever the
      chat's state; other text in state NONE is answered "unknown command"
      and changes nothing a chat can see. */
  lemma TextWithoutDialogue(env: Collaborators, maxCountBooks: nat, w: World, c: ChatId, text: string)
    ensures TextStep(env, maxCountBooks, w, c, "/start") == Step(w, Replied([WelcomeMessage(ChatIdString(c))]))
    ensures text != "/start" && Sess(w, c).state == NONE ==>
      var st := TextStep(env, maxCountBooks, w, c, text);
      SameView(w, st.world) && st.outcome == Replied([UnknownCommandMessage(ChatIdString(c))])
  {
    TouchedSameView(w, c);
  }

  /** A title typed while the bot waits for one is searched; at most
      `maxCountBooks` of the found candidates are kept, in order. With none
      found, the chat stays waiting for a title and nothing changes; otherwise
      the state returns to NONE, the candidates are cached for the selection
      buttons and offered in one message. */
  lemma TitleSearch(env: Collaborators, maxCountBooks: nat, w: World, c: ChatId, title: string)
    requires title != "/start" && Sess(w, c).state == WAITING_FOR_TITLE
    ensures var st := TextStep(env, maxCountBooks, w, c, title);
      var found := Limit(env.searchBooks(title), maxCountBooks);
      && |found| <= maxCountBooks && found <= env.searchBooks(title)
      && (found == [] ==> SameView(w, st.world) && st.outcome == Replied([env.noBooksFoundMessage(c)]))
      && (found != [] ==>
            && Sess(st.world, c) == Sess(w, c).(state := NONE, searchResults := found)
            && OnlySessionOf(w, st.world, c)
            && st.outcome == Replied([SearchResultsMessage(ChatIdString(c), found)]))
  {
    var found := Limit(env.searchBooks(title), maxCountBooks);
    var w1 := Touched(w, c);
    TouchedSameView(w, c);
    if found != [] {
      var w2 := Saved(w1, c, Sess(w1, c).(state := NONE));
      SavedOnlySessionOf(w1, c, Sess(w1, c).(state := NONE));
      SavedOnlySessionOf(w2, c, Sess(w2, c).(searchResults := found));
    }
  }

  /** Text typed while the bot waits for a page or a rating goes to the
      number input with the page update or the rating update. */
  lemma NumberInputRouting(env: Collaborators, maxCountBooks: nat, w: World, c: ChatId, text: string)
    requires text != "/start"
    ensures Sess(w, c).state == WAITING_FOR_PAGE ==>
      TextStep(env, maxCountBooks, w, c, text) == NumberInputStep(env, Touched(w, c), c, text, env.updatePage, env.updatedPageMessages)
    ensures Sess(w, c).state == WAITING_FOR_RATING ==>
      TextStep(env, maxCountBooks, w, c, text) == NumberInputStep(env, Touched(w, c), c, text, env.updateRating, env.updatedRatingMessages)
  {
  }

  /** A number typed while the bot waits for a page or a rating: the state is
      back to NONE afterwards in every case, even when the text is no number
      and the parse throws; nothing else of any session changes; the book
      table changes only by a successful update of the selected book with
      the parsed number, and only then do the replies go out. */
  lemma NumberInput(env: Collaborators, w: World, c: ChatId, text: string,
                    update: (Table, Book, Int32) -> Result<Table>, reply: (ChatId, Int32, Book) -> seq<Msg>)
    ensures var st := NumberInputStep(env, w, c, text, update, reply);
      var book := env.getBookById(w.books, Sess(w, c).bookIdForChange);
      var n := ParseInt(text);
      && Sess(st.world, c) == Sess(w, c).(state := NONE)
      && (forall d :: d != c ==> Sess(st.world, d) == Sess(w, d))
      && (book.Ok? && n.Ok? && update(w.books, book.value, n.value).Ok? ==>
            st.world.books == update(w.books, book.value, n.value).value
            && st.outcome == Replied(reply(c, n.value, book.value)))
      && (!(book.Ok? && n.Ok? && update(w.books, book.value, n.value).Ok?) ==>
            st.world.books == w.books && st.outcome.Thrown?)
      && (book.Ok? && n.Err? ==> st.outcome == Thrown(NumberFormat))
  {
    var w1 := Saved(w, c, Sess(w, c).(state := NONE));
    SavedOnlySessionOf(w, c, Sess(w, c).(state := NONE));
    TouchedSameView(w1, c);
  }

  // ---------------------------------------------------------------------------
  // Buttons that only change the session

  /** The buttons that set the dialogue state ("add a book" waits for a
      title, "update page" for a page, "rate" for a rating) change only that
      field of the pressing chat's session and send the one prompt. */
  lemma PromptSetsState(w: World, c: ChatId, waitFor: UserState, prompt: Msg)
    ensures var st := PromptStep(w, c, waitFor, prompt);
      && Sess(st.world, c) == Sess(w, c).(state := waitFor)
      && OnlySessionOf(w, st.world, c)
      && st.outcome == Replied([prompt])
  {
    SavedOnlySessionOf(w, c, Sess(w, c).(state := waitFor));
  }

  /** "Cancel" of the search results leaves the dialogue: state NONE and no
      cached candidates, everything else as it was. */
  lemma CancelAddedBookResets(w: World, c: ChatId)
    ensures var st := CancelAddedBookStep(w, c);
      Sess(st.world, c) == Sess(w, c).(state := NONE, searchResults := [])
      && OnlySessionOf(w, st.world, c)
      && st.outcome == Replied([CancelledMessage(ChatIdString(c))])
  {
    var w1 := Saved(w, c, Sess(w, c).(state := NONE));
    SavedOnlySessionOf(w, c, Sess(w, c).(state := NONE));
    SavedOnlySessionOf(w1, c, Sess(w1, c).(searchResults := []));
  }

  /** The filter keyboard is only displayed: nothing changes. */
  lemma ChangeFilterChangesNothing(env: Collaborators, w: World, c: ChatId, data: string)
    ensures CommandStep(env, w, c, ChangeFilter, data) == Step(w, Replied([StatusFilterMessage(c)]))
  {
  }

  /** The change-status keyboard is only displayed: nothing changes. */
  lemma ChangeStatusChangesNothing(env: Collaborators, w: World, c: ChatId, data: string)
    ensures CommandStep(env, w, c, ChangeStatus, data) == Step(w, Replied([ChangeStatusMessage(c)]))
  {
  }

  /** A command the switch does not know is answered "unknown" with nothing
      changed. */
  lemma UnknownCommandChangesNothing(env: Collaborators, w: World, c: ChatId, data: string)
    ensures CommandStep(env, w, c, UnknownCommand, data) == Step(w, Replied([UnknownCallbackMessage(ChatIdString(c))]))
  {
  }

  /** "Manage" selects the book of the payload's id for the next edit. */
  lemma ManageBookSelects(env: Collaborators, w: World, c: ChatId, data: string)
    ensures var st := ManageBookStep(env, w, c, data);
      match ExtractBookId(data)
      case Err(e) => st == Step(w, Thrown(e))
      case Ok(id) =>
        && Sess(st.world, c) == Sess(w, c).(bookIdForChange := Some(id))
        && OnlySessionOf(w, st.world, c)
        && st.outcome == Replied([env.bookMenuMessage(c, env.getBookOptionalById(w.books, id))])
  {
    if ExtractBookId(data).Ok? {
      SavedOnlySessionOf(w, c, Sess(w, c).(bookIdForChange := Some(ExtractBookId(data).value)));
    }
  }

  /** "Delete" removes exactly the book of the payload's id and leaves the
      sessions as they were. */
  lemma DeleteBookRemoves(env: Collaborators, w: World, c: ChatId, data: string)
    ensures var st := DeleteBookStep(env, w, c, data);
      && st.world.sessions == w.sessions
      && match ExtractBookId(data)
         case Err(e) => st.world == w && st.outcome == Thrown(e)
         case Ok(id) =>
           && id !in st.world.books
           && (forall other :: other != id && other in w.books ==> other in st.world.books && st.world.books[other] == w.books[other])
           && st.world.books.Keys == w.books.Keys - {id}
           && st.outcome == Replied([env.deletedBookMessage(c)])
  {
  }

  // ---------------------------------------------------------------------------
  // Buttons that change the list's view

  /** "Forward" adds one to the page in 32-bit arithmetic and sends the
      list under the new page; nothing else changes. */
  lemma NextPageMovesForward(env: Collaborators, w: World, c: ChatId)
    ensures var s := Sess(w, c).(currentPage := Wrap32(Sess(w, c).currentPage as int + 1));
      var st := NextPageStep(env, w, c);
      Sess(st.world, c) == s && OnlySessionOf(w, st.world, c) && st.outcome == ListOutcome(env, w, c, s)
  {
    ListAfterSave(env, w, c, Sess(w, c).(currentPage := Wrap32(Sess(w, c).currentPage as int + 1)));
  }

  /** "Back" subtracts one from the page but never leaves page 0, and sends
      the list under the new page; nothing else changes. */
  lemma PrevPageMovesBack(env: Collaborators, w: World, c: ChatId)
    ensures var s := Sess(w, c).(currentPage := DecrementedPage(Sess(w, c).currentPage));
      var st := PrevPageStep(env, w, c);
      && Sess(st.world, c) == s && OnlySessionOf(w, st.world, c) && st.outcome == ListOutcome(env, w, c, s)
      && (Sess(w, c).currentPage >= 0 ==> Sess(st.world, c).currentPage == Max0(Sess(w, c).currentPage - 1))
  {
    ListAfterSave(env, w, c, Sess(w, c).(currentPage := DecrementedPage(Sess(w, c).currentPage)));
  }

  /** "Show all" clears the filter and sends the list; nothing else changes. */
  lemma FilterClearShowsAll(env: Collaborators, w: World, c: ChatId)
    ensures var s := Sess(w, c).(bookStatusFilter := None);
      var st := FilterClearStep(env, w, c);
      Sess(st.world, c) == s && OnlySessionOf(w, st.world, c) && st.outcome == ListOutcome(env, w, c, s)
  {
    ListAfterSave(env, w, c, Sess(w, c).(bookStatusFilter := None));
  }

  /** "Show books" forgets the selected book and sends the list; nothing else
      changes. */
  lemma ShowBooksForgetsSelection(env: Collaborators, w: World, c: ChatId)
    ensures var s := Sess(w, c).(bookIdForChange := None);
      var st := ShowBooksStep(env, w, c);
      Sess(st.world, c) == s && OnlySessionOf(w, st.world, c) && st.outcome == ListOutcome(env, w, c, s)
  {
    ListAfterSave(env, w, c, Sess(w, c).(bookIdForChange := None));
  }

  function Max0(x: int): int
  {
    if x < 0 then 0 else x
  }

  /** What sending the list under session `s` gives: the list message of the
      user's books with the filter and page of `s`, or the exception its
      page window throws. */
  function ListOutcome(env: Collaborators, w: World, c: ChatId, s: Session): Outcome
  {
    var m := ListMessage(c, env.allBooksOfUser(w.books, c), s.bookStatusFilter, s.currentPage);
    if m.Ok? then Replied([m.value]) else Thrown(m.error)
  }

  /** Setting chat `c`'s session to `s` and then sending the list leaves `s`
      as the chat's session, changes nothing else, and sends the list
      under `s`. */
  lemma ListAfterSave(env: Collaborators, w: World, c: ChatId, s: Session)
    ensures var st := ListReply(env, Saved(w, c, s), c, []);
      Sess(st.world, c) == s && OnlySessionOf(w, st.world, c) && st.outcome == ListOutcome(env, w, c, s)
  {
    SavedOnlySessionOf(w, c, s);
    ListReplySameView(env, Saved(w, c, s), c, []);
  }

  /** Filtering by a status: the status becomes the session's filter, and
      when the list goes out every book it shows has that status. An unknown
      status name throws with nothing changed. */
  lemma FilterByStatusShowsOnlyThatStatus(env: Collaborators, w: World, c: ChatId, data: string)
    ensures var st := FilterByStatusStep(env, w, c, data);
      match FilterStatus(data)
      case Err(e) => st == Step(w, Thrown(e))
      case Ok(status) =>
        var s := Sess(w, c).(bookStatusFilter := Some(status));
        && Sess(st.world, c) == s
        && OnlySessionOf(w, st.world, c)
        && st.outcome == ListOutcome(env, w, c, s)
        && (s.currentPage >= 0 ==>
              forall b :: b in PageBooks(env.allBooksOfUser(w.books, c), Some(status), s.currentPage).value ==> b.status == status)
  {
    if FilterStatus(data).Ok? {
      var status := FilterStatus(data).value;
      var s := Sess(w, c).(bookStatusFilter := Some(status));
      ListAfterSave(env, w, c, s);
      if s.currentPage >= 0 {
        PageBooksFiltered(env.allBooksOfUser(w.books, c), Some(status), s.currentPage);
      }
    }
  }

  // ---------------------------------------------------------------------------
  // Choosing a search result

  /** Choosing candidate `index` of the cached search results: past the end
      is answered "not found" with nothing changed; a negative index throws
      with nothing changed; otherwise exactly that candidate's title and
      author go to addBook, the cache is emptied, and when the list goes out
      the confirmation comes first and the list second. */
  lemma BookSelection(env: Collaborators, w: World, c: ChatId, data: string)
    ensures SelectIndex(data).Err? ==> BookSelectionStep(env, w, c, data) == Step(w, Thrown(SelectIndex(data).error))
    ensures SelectIndex(data).Ok? ==>
      var st := BookSelectionStep(env, w, c, data);
      var index := SelectIndex(data).value;
      var results := Sess(w, c).searchResults;
      && (index >= Size(results) ==>
            SameView(w, st.world) && st.outcome == Replied([BookNotFoundByIndexMessage(ChatIdString(c))]))
      && (index < 0 ==> SameView(w, st.world) && st.outcome == Thrown(IndexOutOfBounds))
      && (0 <= index < Size(results) ==>
            var chosen := results[index];
            match env.addBook(w.books, c, chosen.title, chosen.author)
            case Err(e) => SameView(w, st.world) && st.outcome == Thrown(e)
            case Ok(t) =>
              && st.world.books == t
              && Sess(st.world, c) == Sess(w, c).(searchResults := [])
              && (forall d :: d != c ==> Sess(st.world, d) == Sess(w, d))
              && (st.outcome.Replied? ==>
                    |st.outcome.messages| == 2
                    && st.outcome.messages[0] == BookAddedMessage(ChatIdString(c), chosen.title)))
  {
    if SelectIndex(data).Err? {
      return;
    }
    var index := SelectIndex(data).value;
    var w1 := Touched(w, c);
    TouchedSameView(w, c);
    var results := Sess(w, c).searchResults;
    if 0 <= index < Size(results) {
      var chosen := results[index];
      var added := env.addBook(w1.books, c, chosen.title, chosen.author);
      if added.Ok? {
        var w2 := w1.(books := added.value);
        assert Sess(w2, c) == Sess(w1, c);
        var s3 := Sess(w2, c).(searchResults := []);
        SavedOnlySessionOf(w2, c, s3);
        ListReplySameView(env, Saved(w2, c, s3), c, [BookAddedMessage(ChatIdString(c), chosen.title)]);
        forall d | d != c ensures Sess(w2, d) == Sess(w, d) {
          assert Sess(w2, d) == Sess(w1, d);
        }
      }
    }
  }

  // ---------------------------------------------------------------------------
  // Setting a status

  /** Setting a status: an unknown status name is answered before any
      session is read, so nothing at all changes; with no book selected the
      answer says so and nothing a chat can see changes; the book table
      changes only by a successful update of the selected book to the named
      status, and the session never changes. */
  lemma SetStatusEffects(env: Collaborators, w: World, c: ChatId, data: string)
    ensures var st := SetStatusStep(env, w, c, data);
      var name := SetStatusText(data);
      && (ValueOf(name).Err? ==> st == Step(w, Replied([env.simpleMessage(c, UnknownStatusText + name)])))
      && (ValueOf(name).Ok? && Sess(w, c).bookIdForChange.None? ==>
            SameView(w, st.world) && st.outcome == Replied([env.simpleMessage(c, NoBookSelectedText)]))
      && (forall d :: Sess(st.world, d) == Sess(w, d))
      && (st.world.books != w.books ==>
            && ValueOf(name).Ok? && Sess(w, c).bookIdForChange.Some?
            && var book := env.getBookById(w.books, Sess(w, c).bookIdForChange);
            && book.Ok?
            && env.updateStatus(w.books, book.value, ValueOf(name).value) == Ok(st.world.books))
  {
    TouchedSameView(w, c);
  }

  // ---------------------------------------------------------------------------
  // Round trips through the keyboards

  /** The case labels of the switch. */
  lemma CaseOfManageBook()
    ensures CaseOf("manage_book") == ManageBook
  {
  }

  lemma CaseOfSelectBook()
    ensures CaseOf("select_book") == SelectBook
  {
  }

  lemma CaseOfFilterByStatus()
    ensures CaseOf("filter_by_status") == FilterByStatus
  {
  }

  lemma CaseOfSetStatus()
    ensures CaseOf("set_status") == SetStatus
  {
  }

  lemma CaseOfCancel()
    ensures CaseOf("cancel") == UnknownCommand
  {
  }

  /** The cancel button of the search results sends `cancel`, which is no
      case of the switch: it gets the unknown-action reply and nothing
      changes. */
  lemma CancelFallsThrough(env: Collaborators, w: World, c: ChatId)
    ensures CallbackStep(env, w, c, CancelSearchButton.payload) == Step(w, Replied([UnknownCallbackMessage(ChatIdString(c))]))
  {
    CommandWithoutColon("cancel");
    CaseOfCancel();
    UnknownCommandChangesNothing(env, w, c, CancelSearchButton.payload);
  }

  /** A payload whose command matches case `k` reaches case `k`. */
  lemma CallbackReaches(env: Collaborators, w: World, c: ChatId, data: string, k: CallbackCommand)
    requires Command(data).Ok? && CaseOf(Command(data).value) == k
    ensures CallbackStep(env, w, c, data) == CommandStep(env, w, c, k, data)
  {
  }

  /** The switch's cases that read the payload, one lemma each. */
  lemma ManageBookCase(env: Collaborators, w: World, c: ChatId, data: string)
    ensures CommandStep(env, w, c, ManageBook, data) == ManageBookStep(env, w, c, data)
  {
  }

  lemma SelectBookCase(env: Collaborators, w: World, c: ChatId, data: string)
    ensures CommandStep(env, w, c, SelectBook, data) == BookSelectionStep(env, w, c, data)
  {
  }

  lemma FilterByStatusCase(env: Collaborators, w: World, c: ChatId, data: string)
    ensures CommandStep(env, w, c, FilterByStatus, data) == FilterByStatusStep(env, w, c, data)
  {
  }

  lemma SetStatusCase(env: Collaborators, w: World, c: ChatId, data: string)
    ensures CommandStep(env, w, c, SetStatus, data) == SetStatusStep(env, w, c, data)
  {
  }

  /** Pressing a button whose payload is `manage_book:` and an id selects
      the book of that id. */
  lemma PressManageBook(env: Collaborators, w: World, c: ChatId, data: string, id: Long)
    requires Command(data) == Ok("manage_book") && ExtractBookId(data) == Ok(id)
    ensures var st := CallbackStep(env, w, c, data);
      Sess(st.world, c) == Sess(w, c).(bookIdForChange := Some(id))
      && OnlySessionOf(w, st.world, c)
  {
    CaseOfManageBook();
    CallbackReaches(env, w, c, data, ManageBook);
    ManageBookCase(env, w, c, data);
    ManageBookSelects(env, w, c, data);
  }

  /** Pressing the row of book `i` on the list selects that book for the
      next edit. */
  lemma ListRowSelectsBook(env: Collaborators, w: World, c: ChatId, books: seq<Book>, i: nat)
    requires i < |books|
    ensures var st := CallbackStep(env, w, c, BookButtons(books)[i][0].payload);
      Sess(st.world, c) == Sess(w, c).(bookIdForChange := Some(books[i].id))
      && OnlySessionOf(w, st.world, c)
  {
    BookButtonsRoundTrip(books, i);
    PressManageBook(env, w, c, BookButtons(books)[i][0].payload, books[i].id);
  }

  /** Pressing the button of candidate `i` of the search results the bot sent
      adds exactly that candidate and empties the cache, provided the cache
      still holds those results. */
  lemma SearchRowAddsCandidate(env: Collaborators, w: World, c: ChatId, i: nat)
    requires i < |Sess(w, c).searchResults| <= MaxInt32
    requires env.addBook(w.books, c, Sess(w, c).searchResults[i].title, Sess(w, c).searchResults[i].author).Ok?
    ensures var results := Sess(w, c).searchResults;
      var rows := SearchResultsMessage(ChatIdString(c), results).keyboard.value;
      var st := CallbackStep(env, w, c, rows[i][0].payload);
      && st.world.books == env.addBook(w.books, c, results[i].title, results[i].author).value
      && Sess(st.world, c) == Sess(w, c).(searchResults := [])
  {
    var results := Sess(w, c).searchResults;
    SearchResultsRoundTrip(ChatIdString(c), results, i);
    var data := SearchResultsMessage(ChatIdString(c), results).keyboard.value[i][0].payload;
    CaseOfSelectBook();
    CallbackReaches(env, w, c, data, SelectBook);
    SelectBookCase(env, w, c, data);
    BookSelection(env, w, c, data);
  }

  /** Pressing the filter button of status `i` makes it the chat's filter. */
  lemma FilterButtonSetsFilter(env: Collaborators, w: World, c: ChatId, i: nat)
    requires i < |Values|
    ensures var st := CallbackStep(env, w, c, FilterButtonPayload(i));
      Sess(st.world, c) == Sess(w, c).(bookStatusFilter := Some(Values[i]))
      && OnlySessionOf(w, st.world, c)
  {
    FilterStatusRoundTrip(Values[i]);
    CaseOfFilterByStatus();
    CallbackReaches(env, w, c, FilterButtonPayload(i), FilterByStatus);
    FilterByStatusCase(env, w, c, FilterButtonPayload(i));
    FilterByStatusShowsOnlyThatStatus(env, w, c, FilterButtonPayload(i));
  }

  /** The payload of the filter button of status `i`. */
  function FilterButtonPayload(i: nat): string
    requires i < |Values|
  {
    FilterByStatusPrefix + Name(Values[i])
  }

  /** Pressing the button of status `i` on the change-status keyboard, with
      a book selected that the store finds, asks the store to give that book
      status `i`; the sessions stay as they were. */
  lemma StatusButtonUpdatesBook(env: Collaborators, w: World, c: ChatId, i: nat)
    requires i < |Values|
    requires Sess(w, c).bookIdForChange.Some?
    requires env.getBookById(w.books, Sess(w, c).bookIdForChange).Ok?
    ensures var book := env.getBookById(w.books, Sess(w, c).bookIdForChange).value;
      var st := CallbackStep(env, w, c, SetStatusPrefix + Name(Values[i]));
      var updated := env.updateStatus(w.books, book, Values[i]);
      && (forall d :: Sess(st.world, d) == Sess(w, d))
      && (updated.Ok? ==>
            st.world.books == updated.value && st.outcome == Replied(env.updatedStatusMessages(c, Values[i], book)))
      && (updated.Err? ==> st.world.books == w.books && st.outcome == Thrown(updated.error))
  {
    SetStatusRoundTrip(Values[i]);
    CaseOfSetStatus();
    CallbackReaches(env, w, c, SetStatusPrefix + Name(Values[i]), SetStatus);
    SetStatusCase(env, w, c, SetStatusPrefix + Name(Values[i]));
    TouchedSameView(w, c);
  }
}
