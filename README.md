# BookBot dialogue core in Dafny

BookBot is a Telegram bot for keeping a personal reading list. A chat talks
to it in two ways: by typing text (`/start`, a book title to search for, a
page number, a rating) and by pressing inline buttons whose callback data is
a command optionally followed by `:` and a parameter (`manage_book:42`,
`select_book:3`, `filter_by_status:READ`). The bot keeps one session per chat
(the dialogue state, the cached search results, the page of the book list,
the status filter and the book chosen for editing) and answers with a list
of messages, each with an optional inline keyboard.

This project models that core and proves what it promises:

- `JavaLang` gives the Java library behaviour the code relies on.
  - `String.split(":")` drops trailing empty strings.
  - `substring` and `List.subList` have their exceptions.
  - `String.replace` and `String.trim` are modelled.
  - `Integer.parseInt` and `Long.parseLong` are modelled, along with `Long.toString`.
  - A Java `int` wraps around in two's complement.
- `BookStatuses`, `Entities` and `UserSessions` are the data model:
  - the seven reading statuses with their Russian names;
  - the book and the search candidate;
  - the per-chat session with its defaults.
- `SessionStore.UserStateService` is the session store. It is a class over a map from chat id to session.
  - Every getter creates the chat's default session on first use.
  - Every setter rewrites one field of one chat's session.
- `BookStore.BookService` is the book table. It is a class over a map from id to book, with find, save, update and delete.
- `LegacyFlags.UserStateService` is the older per-user "waiting for a title" flag store.
- `Messages`, `StatusKeyboards` and `ListView` build the replies:
  - the welcome and prompt texts;
  - the search results keyboard;
  - the paged, filtered book list with its buttons;
  - the two status keyboards.
- `Payloads` reads callback data back. It covers the command before the `:`, the book id, the candidate index, the status name, and which pressed buttons delete their message.
- `WelcomeMessages.WelcomeMessageProvider` covers the greetings file. It cuts the file into `---`-separated blocks and picks one at random.
- `Dialogue` defines a handler function for each incoming text and each pressed button. It maps the state it finds (every chat's session and the book table) to the state afterwards, plus either the replies or the exception that escapes.
  - State changed before a throw is kept, as in Java.
  - Services whose code is not part of this model are parameters: the Litres search, several book-store queries and updates, and several reply builders.
- `Controller.BotResponseService` is the controller as an imperative class. It calls the two service objects, and every handler method is proved to produce exactly the state and outcome of its `Dialogue` function.
- `DialogueProperties` proves what the dialogue promises. Examples:
  - which session fields a button changes;
  - that no other chat's session changes;
  - that pressing a button the bot laid out reaches the case it names, with the parameter it carries;
  - that the list shows only books of the chosen status;
  - that the book chosen from the search results is the one added.

## Model

| member | source | states |
|---|---|---|
| JavaLang.Wrap32 | src/main/java/com/telegram_bots/bookbot/bot/service/UserStateService.java:45-47 | Java `int` addition: an in-range result is exact; one past either bound wraps by 2^32 |
| JavaLang.Wrap32Congruent | src/main/java/com/telegram_bots/bookbot/bot/service/UserStateService.java:45-47 | a wrapped result differs from the exact one by a multiple of 2^32 |
| JavaLang.SplitPair | src/main/java/com/telegram_bots/bookbot/bot/service/BotResponseService.java:168-170 | `"a:b".split(":")` with separator-free halves and a non-empty `b` is exactly `[a, b]` |
| JavaLang.FirstSegment | src/main/java/com/telegram_bots/bookbot/bot/service/BotResponseService.java:98 | the first piece of a split is the text before the first `:` |
| JavaLang.SegmentsAllEmpty | src/main/java/com/telegram_bots/bookbot/bot/service/BotResponseService.java:98 | every piece is empty exactly when the string is separators only (so `split` yields an empty array) |
| JavaLang.Substring | src/main/java/com/telegram_bots/bookbot/bot/service/BotResponseService.java:133 | `substring(from)` succeeds iff `from <= length`, and then the prefix plus the result is the string |
| JavaLang.ParseDecimal | src/main/java/com/telegram_bots/bookbot/bot/service/BotResponseService.java:81 | a parse result lies in the type's range; a failure is always NumberFormatException |
| JavaLang.ParseIntOfToString | src/main/java/com/telegram_bots/bookbot/bot/service/BotResponseService.java:190 | `Integer.parseInt(Integer.toString(x)) == x` for every int |
| JavaLang.ParseLongOfToString | src/main/java/com/telegram_bots/bookbot/bot/service/BotResponseService.java:169 | `Long.parseLong(Long.toString(x)) == x` for every long |
| JavaLang.SubList | src/main/java/com/telegram_bots/bookbot/bot/service/BotResponseService.java:225 | `subList(from, to)` succeeds iff `0 <= from <= to <= size`, giving exactly that slice |
| JavaLang.Limit | src/main/java/com/telegram_bots/bookbot/bot/service/BotResponseService.java:61-62 | `limit(n)` keeps a prefix of length `min(size, n)` |
| JavaLang.TrimHasNoBlankEnds | src/main/java/com/telegram_bots/bookbot/utils/WelcomeMessageProvider.java:31-32 | a trimmed string has no character `<= ' '` at either end, is no longer than the original, and trimming twice changes nothing |
| JavaLang.GetOrDefault | src/main/java/com/telegram_bots/bookbot/service/UserStateService.java:16-18 | `getOrDefault` gives the stored value of a present key and the default otherwise |
| BookStatuses.Name | src/main/java/com/telegram_bots/bookbot/model/entities/enums/BookStatus.java:3-10 | a constant's name is non-empty, upper-case letters and `_` only, so it never holds `:` |
| BookStatuses.ValuesEnumerateAll | src/main/java/com/telegram_bots/bookbot/model/entities/enums/BookStatus.java:3-10 | `values()` lists all seven statuses, each once |
| BookStatuses.ValueOfName | src/main/java/com/telegram_bots/bookbot/model/entities/enums/BookStatus.java:3-10 | `valueOf(s.name()) == s` |
| BookStatuses.ValueOfOnlyNames | src/main/java/com/telegram_bots/bookbot/model/entities/enums/BookStatus.java:3-10 | `valueOf` succeeds exactly on the constant names (and gives back the constant of that name); otherwise IllegalArgumentException |
| BookStatuses.NamesDistinct | src/main/java/com/telegram_bots/bookbot/model/entities/enums/BookStatus.java:3-20 | distinct statuses have distinct names and distinct Russian display names |
| SessionStore.Load | src/main/java/com/telegram_bots/bookbot/bot/service/UserStateService.java:21-23 | a chat with no entry reads the default session |
| SessionStore.Touch | src/main/java/com/telegram_bots/bookbot/bot/service/UserStateService.java:21-23 | `computeIfAbsent` adds exactly the chat's key |
| SessionStore.Put | src/main/java/com/telegram_bots/bookbot/bot/service/UserStateService.java:21-23 | after writing, the chat reads the session written |
| SessionStore.TouchIsUnobservable | src/main/java/com/telegram_bots/bookbot/bot/service/UserStateService.java:21-23 | creating the default entry changes what no chat reads |
| SessionStore.PutLeavesOthers | src/main/java/com/telegram_bots/bookbot/bot/service/UserStateService.java:19-23 | writing one chat's session leaves every other chat's session as it was |
| SessionStore.UnseenChatReadsDefaults | src/main/java/com/telegram_bots/bookbot/model/session/UserSession.java:14-22 | a new chat has state NONE, no search results, page 0, no filter and no book chosen |
| SessionStore.SaveThenGetSearchResults | src/main/java/com/telegram_bots/bookbot/bot/service/UserStateService.java:25-35 | saved results read back; cleared results read back empty; the other fields are kept |
| SessionStore.SetThenGetState | src/main/java/com/telegram_bots/bookbot/bot/service/UserStateService.java:61-66 | `getState` after `setState(v)` is `v`, the other fields kept |
| SessionStore.SetThenGetCurrentPage | src/main/java/com/telegram_bots/bookbot/bot/service/UserStateService.java:37-43 | `getCurrentPage` after `setCurrentPage(v)` is `v`, the other fields kept |
| SessionStore.SetThenGetBookStatusFilter | src/main/java/com/telegram_bots/bookbot/bot/service/UserStateService.java:53-59 | the filter set (or cleared) reads back, the other fields kept |
| SessionStore.SetThenGetBookIdForChange | src/main/java/com/telegram_bots/bookbot/bot/service/UserStateService.java:68-74 | the book chosen (or cleared) reads back, the other fields kept |
| SessionStore.UserStateService.constructor | src/main/java/com/telegram_bots/bookbot/bot/service/UserStateService.java:19 | the store starts empty |
| SessionStore.UserStateService.GetSession | src/main/java/com/telegram_bots/bookbot/bot/service/UserStateService.java:21-23 | returns the chat's session (the default for a new chat) and adds its entry |
| SessionStore.UserStateService.SaveSearchResults | src/main/java/com/telegram_bots/bookbot/bot/service/UserStateService.java:25-27 | the chat's session gets the results; nothing else changes |
| SessionStore.UserStateService.GetSearchResults | src/main/java/com/telegram_bots/bookbot/bot/service/UserStateService.java:29-31 | returns the chat's cached results; only the entry is created |
| SessionStore.UserStateService.ClearSearchResults | src/main/java/com/telegram_bots/bookbot/bot/service/UserStateService.java:33-35 | the chat's results become empty; nothing else changes |
| SessionStore.UserStateService.GetCurrentPage | src/main/java/com/telegram_bots/bookbot/bot/service/UserStateService.java:37-39 | returns the chat's page; only the entry is created |
| SessionStore.UserStateService.SetCurrentPage | src/main/java/com/telegram_bots/bookbot/bot/service/UserStateService.java:41-43 | the chat's page becomes the given one; nothing else changes |
| SessionStore.UserStateService.IncrementPage | src/main/java/com/telegram_bots/bookbot/bot/service/UserStateService.java:45-47 | the chat's page becomes page + 1 in 32-bit arithmetic |
| SessionStore.UserStateService.DecrementPage | src/main/java/com/telegram_bots/bookbot/bot/service/UserStateService.java:49-51 | the chat's page becomes `max(0, page - 1)` in 32-bit arithmetic |
| SessionStore.DecrementedPage | src/main/java/com/telegram_bots/bookbot/bot/service/UserStateService.java:49-51 | a non-negative page stays non-negative; a positive page drops by one; a non-positive page above MIN_VALUE becomes 0; MIN_VALUE wraps to MAX_VALUE |
| SessionStore.UserStateService.GetBookStatusFilter | src/main/java/com/telegram_bots/bookbot/bot/service/UserStateService.java:53-55 | returns the chat's filter; only the entry is created |
| SessionStore.UserStateService.SetBookStatusFilter | src/main/java/com/telegram_bots/bookbot/bot/service/UserStateService.java:57-59 | the chat's filter becomes the given one (or none); nothing else changes |
| SessionStore.UserStateService.GetState | src/main/java/com/telegram_bots/bookbot/bot/service/UserStateService.java:61-63 | returns the chat's dialogue state; only the entry is created |
| SessionStore.UserStateService.SetState | src/main/java/com/telegram_bots/bookbot/bot/service/UserStateService.java:64-66 | the chat's state becomes the given one; nothing else changes |
| SessionStore.UserStateService.SetBookIdForChange | src/main/java/com/telegram_bots/bookbot/bot/service/UserStateService.java:68-70 | the chat's chosen book becomes the given id (or none); nothing else changes |
| SessionStore.UserStateService.GetBookIdForChange | src/main/java/com/telegram_bots/bookbot/bot/service/UserStateService.java:72-74 | returns the chat's chosen book id; only the entry is created |
| BookStore.FindById | src/main/java/com/telegram_bots/bookbot/service/BookService.java:20-22 | finds a book iff its id is in the table, and then it is the stored book |
| BookStore.CopyEditable | src/main/java/com/telegram_bots/bookbot/service/BookService.java:34-39 | title, author, status, user, rating and current page come from the new book; id, dates and total pages are kept |
| BookStore.CopyEditableLastWins | src/main/java/com/telegram_bots/bookbot/service/BookService.java:28-43 | two updates in a row equal the last one; repeating an update changes nothing |
| BookStore.CopyEditableSelf | src/main/java/com/telegram_bots/bookbot/service/BookService.java:28-43 | updating a book with itself leaves it unchanged |
| BookStore.NotFoundMessage | src/main/java/com/telegram_bots/bookbot/service/BookService.java:30-31 | the error text is "Book not found with id " followed by the id's decimal text, which parses back to the id |
| BookStore.BookService.GetBookById | src/main/java/com/telegram_bots/bookbot/service/BookService.java:20-22 | returns the stored book of the id, or none |
| BookStore.BookService.AddBook | src/main/java/com/telegram_bots/bookbot/service/BookService.java:24-26 | saves the book under its id (replacing one with that id) and returns it |
| BookStore.BookService.UpdateBook | src/main/java/com/telegram_bots/bookbot/service/BookService.java:28-43 | a missing id throws "Book not found with id …" and changes nothing; otherwise the stored book gets the editable fields of the new one; other books are untouched |
| BookStore.BookService.DeleteBook | src/main/java/com/telegram_bots/bookbot/service/BookService.java:45-47 | exactly the id is removed; other books are untouched |
| LegacyFlags.Flag | src/main/java/com/telegram_bots/bookbot/service/UserStateService.java:16-18 | a user never set reads false; otherwise the stored flag |
| LegacyFlags.SetThenGet | src/main/java/com/telegram_bots/bookbot/service/UserStateService.java:12-18 | a flag set reads back |
| LegacyFlags.SetLeavesOthers | src/main/java/com/telegram_bots/bookbot/service/UserStateService.java:12-18 | setting one user's flag leaves every other user's flag as it was |
| LegacyFlags.LastWriteWins | src/main/java/com/telegram_bots/bookbot/service/UserStateService.java:12-14 | the last write wins; repeating a write changes nothing |
| LegacyFlags.UserStateService.constructor | src/main/java/com/telegram_bots/bookbot/service/UserStateService.java:10 | nobody is waiting at start |
| LegacyFlags.UserStateService.SetWaitingForBookTitle | src/main/java/com/telegram_bots/bookbot/service/UserStateService.java:12-14 | the user's flag becomes the given value; no other entry changes |
| LegacyFlags.UserStateService.IsWaitingForBookTitle | src/main/java/com/telegram_bots/bookbot/service/UserStateService.java:16-18 | reads the user's flag, false when never set |
| Messages.ChatIdString | src/main/java/com/telegram_bots/bookbot/bot/service/MessageService.java:19-21 | `String.valueOf(chatId)` parses back to the chat id and holds no `:` |
| Messages.ChatIdStringInjective | src/main/java/com/telegram_bots/bookbot/bot/service/MessageService.java:19-21 | distinct chats get distinct recipient strings |
| Messages.WelcomeMessage | src/main/java/com/telegram_bots/bookbot/bot/service/MessageService.java:23-35 | the greeting has one row: "my books" (`show_books`) then "add a book" (`add_book`) |
| Messages.RequestBookTitleMessage | src/main/java/com/telegram_bots/bookbot/bot/service/MessageService.java:42-47 | a prompt to the chat without a keyboard |
| Messages.CancelledMessage | src/main/java/com/telegram_bots/bookbot/bot/service/MessageService.java:87-92 | a notice to the chat without a keyboard |
| Messages.UnknownCommandMessage | src/main/java/com/telegram_bots/bookbot/bot/service/MessageService.java:98-103 | a notice to the chat without a keyboard |
| Messages.UnknownCallbackMessage | src/main/java/com/telegram_bots/bookbot/bot/service/MessageService.java:109-114 | a notice to the chat without a keyboard |
| Messages.BookNotFoundByIndexMessage | src/main/java/com/telegram_bots/bookbot/bot/service/MessageService.java:131-136 | a notice to the chat without a keyboard |
| Messages.BookAddedMessage | src/main/java/com/telegram_bots/bookbot/bot/service/MessageService.java:120-125 | the confirmation quotes the title at a fixed place, with no keyboard |
| Messages.BookAddedNamesTheBook | src/main/java/com/telegram_bots/bookbot/bot/service/MessageService.java:120-125 | equal confirmations name the same title |
| Messages.CandidateRows | src/main/java/com/telegram_bots/bookbot/bot/service/MessageService.java:65-70 | one row per candidate, in order, row `i` carrying "title - author" and `select_book:i` |
| Messages.SearchResultsMessage | src/main/java/com/telegram_bots/bookbot/bot/service/MessageService.java:54-81 | no candidates gives the "nothing found" text and no keyboard; otherwise "choose a book", one row per candidate in order, then the cancel row |
| Messages.BuildBookSearchResults | src/main/java/com/telegram_bots/bookbot/bot/service/MessageService.java:54-81 | the loop builds exactly the search results message |
| Messages.BooksTextHeader | src/main/java/com/telegram_bots/bookbot/bot/service/MessageService.java:139-143 | the list heading names the filter's display name in parentheses, and only when a filter is set |
| Messages.BooksTextPlaceholder | src/main/java/com/telegram_bots/bookbot/bot/service/MessageService.java:145-146 | the "no books" placeholder appears exactly when the page is empty |
| Messages.BookLinesEndInBreak | src/main/java/com/telegram_bots/bookbot/bot/service/MessageService.java:148-155 | a non-empty list of book lines ends in a line break |
| Messages.BookLinesAt | src/main/java/com/telegram_bots/bookbot/bot/service/MessageService.java:148-155 | book `i`'s line sits between those of the books before it and after it |
| Messages.BuildBooksText | src/main/java/com/telegram_bots/bookbot/bot/service/MessageService.java:138-159 | the StringBuilder loop produces exactly the list text |
| Messages.BookButtons | src/main/java/com/telegram_bots/bookbot/bot/service/MessageService.java:161-166 | one row per book in order, carrying its title and `manage_book:<id>` |
| Messages.PaginationRow | src/main/java/com/telegram_bots/bookbot/bot/service/MessageService.java:168-178 | "back" is present iff the page is positive; "forward" iff a later page holds a book; nothing else; back before forward |
| Messages.BuildPaginationButtons | src/main/java/com/telegram_bots/bookbot/bot/service/MessageService.java:168-178 | builds exactly the corrected pagination row |
| Messages.PaginationRowAsWritten | src/main/java/com/telegram_bots/bookbot/bot/service/MessageService.java:168-178 | as written: "forward" iff `(page + 1) * pageSize`, in 32-bit arithmetic, is below the total |
| Messages.PaginationOverflowShowsNext | src/main/java/com/telegram_bots/bookbot/bot/service/MessageService.java:174 | on page 214748364 of an empty list the code shows "forward", the corrected row does not |
| Messages.PaginationAgreesWithoutOverflow | src/main/java/com/telegram_bots/bookbot/bot/service/MessageService.java:174 | without overflow the code and the corrected row agree |
| Messages.FilterAndAddRows | src/main/java/com/telegram_bots/bookbot/bot/service/MessageService.java:180-185 | two one-button rows: `change_filter`, then `add_book` |
| Payloads.Command | src/main/java/com/telegram_bots/bookbot/bot/service/BotResponseService.java:98 | the command is the text before the first `:`. Data that contains `:` and consists of colons only throws ArrayIndexOutOfBounds. |
| Payloads.CommandOfPayload | src/main/java/com/telegram_bots/bookbot/bot/service/BotResponseService.java:98 | `command:parameter` yields the command |
| Payloads.CommandWithoutColon | src/main/java/com/telegram_bots/bookbot/bot/service/BotResponseService.java:98 | data without `:` is the command itself |
| Payloads.ExtractBookId | src/main/java/com/telegram_bots/bookbot/bot/service/BotResponseService.java:168-170 | fewer than two pieces throws ArrayIndexOutOfBounds; otherwise the second piece parsed as a long, or NumberFormatException |
| Payloads.ExtractBookIdOfPayload | src/main/java/com/telegram_bots/bookbot/bot/service/BotResponseService.java:168-170 | `command:<id>` gives back the id |
| Payloads.ExtractBookIdExample | src/main/java/com/telegram_bots/bookbot/bot/service/BotResponseService.java:168-170 | `extractBookId("delete_book:42") == 42` |
| Payloads.BookButtonsRoundTrip | src/main/java/com/telegram_bots/bookbot/bot/service/MessageService.java:161-166 | the button of book `i` reads back as `manage_book` with that book's id |
| Payloads.SelectIndex | src/main/java/com/telegram_bots/bookbot/bot/service/BotResponseService.java:190 | data shorter than `select_book:` throws StringIndexOutOfBounds; otherwise the rest parsed as an int |
| Payloads.SelectIndexOfPayload | src/main/java/com/telegram_bots/bookbot/bot/service/BotResponseService.java:190 | `select_book:<i>` reads back as the command `select_book` and index `i` |
| Payloads.SearchResultsRoundTrip | src/main/java/com/telegram_bots/bookbot/bot/service/MessageService.java:65-72 | row `i` of the search results reads back as `select_book` with index `i`; the last row is cancel |
| Payloads.FilterStatus | src/main/java/com/telegram_bots/bookbot/bot/service/BotResponseService.java:133-134 | data shorter than the prefix throws StringIndexOutOfBounds; otherwise `valueOf` of the rest |
| Payloads.FilterStatusRoundTrip | src/main/java/com/telegram_bots/bookbot/bot/service/BotResponseService.java:256-258 | a filter button reads back as `filter_by_status` with its status |
| Payloads.SetStatusText | src/main/java/com/telegram_bots/bookbot/bot/service/BotResponseService.java:314 | the status text is never longer than the data with `set_status:` removed |
| Payloads.SetStatusRoundTrip | src/main/java/com/telegram_bots/bookbot/bot/service/BotResponseService.java:293 | a status button reads back as `set_status` with its status |
| Payloads.ReplaceAtStart | src/main/java/com/telegram_bots/bookbot/bot/service/BotResponseService.java:314 | removing the prefix and then all later occurrences equals removing all occurrences |
| Payloads.HandleDeleteMessage | src/main/java/com/telegram_bots/bookbot/bot/service/BotResponseService.java:173-187 | the pressed message is deleted iff the data contains `select_book` or is one of the five listed commands; the `DeleteRequest` carries `chatId.toString()` and the message id |
| Payloads.CancelAddedBookKept | src/main/java/com/telegram_bots/bookbot/bot/service/BotResponseService.java:177-182 | the `cancel_added_book` button does not delete its message |
| Payloads.DeleteBookKept | src/main/java/com/telegram_bots/bookbot/bot/service/BotResponseService.java:177-182 | a `delete_book:<id>` button does not delete its message |
| Payloads.SearchResultsAreDeleted | src/main/java/com/telegram_bots/bookbot/bot/service/BotResponseService.java:177-182 | every candidate button and the cancel button of the search results delete their message |
| ListView.Size | src/main/java/com/telegram_bots/bookbot/bot/service/BotResponseService.java:223-224 | `List.size()` is the length, capped at MAX_VALUE |
| ListView.KeepStatusAppend | src/main/java/com/telegram_bots/bookbot/bot/service/BotResponseService.java:217-219 | filtering a concatenation is concatenating the filtered parts (order kept) |
| ListView.KeepStatusMembers | src/main/java/com/telegram_bots/bookbot/bot/service/BotResponseService.java:217-219 | a book survives the filter iff it is in the list and has the status |
| ListView.KeepStatusSingle | src/main/java/com/telegram_bots/bookbot/bot/service/BotResponseService.java:218 | one book is kept iff its status is the filter |
| ListView.FilterByStatus | src/main/java/com/telegram_bots/bookbot/bot/service/BotResponseService.java:215-219 | no filter keeps all books; a filter keeps those of its status |
| ListView.FilterByStatusMembers | src/main/java/com/telegram_bots/bookbot/bot/service/BotResponseService.java:215-219 | the filtered books are exactly those of the list that match the filter |
| ListView.PageWindow | src/main/java/com/telegram_bots/bookbot/bot/service/BotResponseService.java:222-225 | a negative page throws IndexOutOfBounds. Otherwise the window starts at `min(page * 10, n)`, holds at most 10, and is empty past the end. A full page holds 10. |
| ListView.PageWindowAsWritten | src/main/java/com/telegram_bots/bookbot/bot/service/BotResponseService.java:222-225 | as written, with `page * 10` in 32-bit arithmetic: a window it returns lies within the list |
| ListView.PageWindowOverflowThrows | src/main/java/com/telegram_bots/bookbot/bot/service/BotResponseService.java:223 | on page 214748365 of an empty list the code throws, the corrected window is empty |
| ListView.PageWindowAgreesWithoutOverflow | src/main/java/com/telegram_bots/bookbot/bot/service/BotResponseService.java:223-224 | without overflow the code and the corrected window agree |
| ListView.PageBooks | src/main/java/com/telegram_bots/bookbot/bot/service/BotResponseService.java:215-225 | the page of filtered books exists iff the page is non-negative and holds at most 10 books |
| ListView.PageBooksFiltered | src/main/java/com/telegram_bots/bookbot/bot/service/BotResponseService.java:215-225 | every book shown is one of the chat's books with the filter's status |
| ListView.PageBeyondEndIsEmpty | src/main/java/com/telegram_bots/bookbot/bot/service/BotResponseService.java:223-225 | a page past the last book shows nothing |
| ListView.PageBooksAt | src/main/java/com/telegram_bots/bookbot/bot/service/BotResponseService.java:223-225 | entry `k` of page `p` is filtered book `10 p + k` |
| ListView.ListRows | src/main/java/com/telegram_bots/bookbot/bot/service/BotResponseService.java:231-238 | one row per book, the pagination row only when non-empty, then the two fixed rows |
| ListView.ListMessage | src/main/java/com/telegram_bots/bookbot/bot/service/BotResponseService.java:208-248 | the list reply exists iff the page is non-negative (else IndexOutOfBounds), goes to the chat and has a keyboard |
| ListView.LayOutList | src/main/java/com/telegram_bots/bookbot/bot/service/BotResponseService.java:213-247 | the filter, page, text and keyboard steps build exactly the list reply |
| ListView.BuildListRows | src/main/java/com/telegram_bots/bookbot/bot/service/BotResponseService.java:231-238 | the row list is built exactly as laid out |
| ListView.ListMessageLayout | src/main/java/com/telegram_bots/bookbot/bot/service/BotResponseService.java:228-247 | the text is the page's list text; row `i` manages book `i` of the page; then the pagination row if any, then "change filter" and "add a book" |
| ListView.ListMessagePaging | src/main/java/com/telegram_bots/bookbot/bot/service/BotResponseService.java:233-236 | the pagination row appears iff there is an earlier or a later page; it holds "back" iff there is an earlier page and "forward" iff there is a later one |
| StatusKeyboards.PairRows | src/main/java/com/telegram_bots/bookbot/bot/service/BotResponseService.java:256-270 | `ceil(n / 2)` rows, row `k` holding items `2k` and `2k+1` (the odd one alone at the end) |
| StatusKeyboards.StatusFilterMessage | src/main/java/com/telegram_bots/bookbot/bot/service/BotResponseService.java:250-287 | the filter keyboard has 6 rows, the last two "show all" then "back" |
| StatusKeyboards.BuildStatusFilterButtons | src/main/java/com/telegram_bots/bookbot/bot/service/BotResponseService.java:250-287 | builds exactly the filter keyboard |
| StatusKeyboards.PairUp | src/main/java/com/telegram_bots/bookbot/bot/service/BotResponseService.java:253-270 | the current-row loop lays buttons out exactly two to a row |
| StatusKeyboards.StatusFilterRoundTrip | src/main/java/com/telegram_bots/bookbot/bot/service/BotResponseService.java:256-264 | status `i` sits at row `i / 2`, place `i % 2`, and reads back as `filter_by_status` with that status |
| StatusKeyboards.PairRowsAt | src/main/java/com/telegram_bots/bookbot/bot/service/BotResponseService.java:256-264 | item `i` is at row `i / 2`, place `i % 2` |
| StatusKeyboards.SetStatusRows | src/main/java/com/telegram_bots/bookbot/bot/service/BotResponseService.java:291-295 | one row per status in `values()` order, each its set-status button |
| StatusKeyboards.ChangeStatusMessage | src/main/java/com/telegram_bots/bookbot/bot/service/BotResponseService.java:289-305 | one reply to the chat with a row per status |
| StatusKeyboards.ChangeStatusRoundTrip | src/main/java/com/telegram_bots/bookbot/bot/service/BotResponseService.java:291-295 | row `i` shows status `i`'s display name and reads back as `set_status` with that status |
| WelcomeMessages.Groups | src/main/java/com/telegram_bots/bookbot/utils/WelcomeMessageProvider.java:30-37 | `k` separator lines cut the file into `k + 1` groups |
| WelcomeMessages.GroupsPartitionText | src/main/java/com/telegram_bots/bookbot/utils/WelcomeMessageProvider.java:30-37 | the groups, joined, are exactly the non-separator lines in order, and no group holds a separator |
| WelcomeMessages.ScanFollowsGroups | src/main/java/com/telegram_bots/bookbot/utils/WelcomeMessageProvider.java:30-37 | the reading loop's closed blocks are the trimmed texts of all groups but the last; the open block is the last group's text |
| WelcomeMessages.BlocksAreGroups | src/main/java/com/telegram_bots/bookbot/utils/WelcomeMessageProvider.java:30-41 | the greetings are the trimmed groups, the last one only when non-empty; their number is the number of separators, plus one unless the file ends with a separator |
| WelcomeMessages.ConsecutiveSeparators | src/main/java/com/telegram_bots/bookbot/utils/WelcomeMessageProvider.java:31-33 | two separator lines in a row add an empty greeting |
| WelcomeMessages.ScanClosedCount | src/main/java/com/telegram_bots/bookbot/utils/WelcomeMessageProvider.java:30-37 | the loop closes one block per separator |
| WelcomeMessages.ScanFromIsScan | src/main/java/com/telegram_bots/bookbot/utils/WelcomeMessageProvider.java:30-37 | reading the rest of the file after any prefix reaches the state of reading it all |
| WelcomeMessages.WelcomeMessageProvider.constructor | src/main/java/com/telegram_bots/bookbot/utils/WelcomeMessageProvider.java:16 | no greetings before loading |
| WelcomeMessages.WelcomeMessageProvider.LoadMessages | src/main/java/com/telegram_bots/bookbot/utils/WelcomeMessageProvider.java:19-46 | appends exactly the blocks of the file's lines |
| WelcomeMessages.WelcomeMessageProvider.GetRandomMessage | src/main/java/com/telegram_bots/bookbot/utils/WelcomeMessageProvider.java:48-53 | no greetings gives the fixed greeting; otherwise the greeting at the drawn index |
| WelcomeMessages.Step | src/main/java/com/telegram_bots/bookbot/utils/WelcomeMessageProvider.java:31-36 | one line read: a line that trims to `---` closes the open block, trimmed; any other line is appended with a line break (its effect is stated by ScanFollowsGroups and ScanPrefixStep) |
| WelcomeMessages.ScanFrom | src/main/java/com/telegram_bots/bookbot/utils/WelcomeMessageProvider.java:30-37 | the reading loop from a given state over the remaining lines, the form the loop invariant of LoadMessages uses (related to Scan by ScanFromIsScan) |
| WelcomeMessages.Scan | src/main/java/com/telegram_bots/bookbot/utils/WelcomeMessageProvider.java:30-37 | the loop's state after a prefix of the file (tied to the independent Groups cut by ScanFollowsGroups and ScanClosedCount) |
| WelcomeMessages.Blocks | src/main/java/com/telegram_bots/bookbot/utils/WelcomeMessageProvider.java:30-41 | the greetings of a file: the closed blocks, then the open block when non-empty (characterised by BlocksAreGroups) |
| Messages.BooksHeader | src/main/java/com/telegram_bots/bookbot/bot/service/MessageService.java:139-143 | the list heading, with the filter's display name in parentheses when a filter is set (stated by BooksTextHeader) |
| Messages.BookLine | src/main/java/com/telegram_bots/bookbot/bot/service/MessageService.java:149-154 | one list line: title, author and status display name separated by " - ", ending in a line break (BookLinesEndInBreak, BookLinesAt) |
| Messages.BooksText | src/main/java/com/telegram_bots/bookbot/bot/service/MessageService.java:138-159 | the list text: heading, then the placeholder for an empty page or one line per book in order (BooksTextHeader, BooksTextPlaceholder, BookLinesAt; BuildBooksText is the loop) |
| StatusKeyboards.FilterButton | src/main/java/com/telegram_bots/bookbot/bot/service/BotResponseService.java:257-258 | the filter button of a status: its display name and `filter_by_status:` plus its name (read back by StatusFilterRoundTrip) |
| StatusKeyboards.SetStatusButton | src/main/java/com/telegram_bots/bookbot/bot/service/BotResponseService.java:293 | the set-status button of a status: its display name and `set_status:` plus its name (read back by ChangeStatusRoundTrip) |
| Dialogue.ListReply | src/main/java/com/telegram_bots/bookbot/bot/service/BotResponseService.java:208-212 | the list reply appended to the given messages, the session read through the getters; an error of the page window escapes (ListReplySameView, ListAfterSave) |
| Dialogue.TextStep | src/main/java/com/telegram_bots/bookbot/bot/service/BotResponseService.java:42-58 | `/start` greets without reading the session; other text is routed by the chat's state (TextWithoutDialogue, TitleSearch, NumberInputRouting; HandleTextMessage is the method) |
| Dialogue.BookTitleStep | src/main/java/com/telegram_bots/bookbot/bot/service/BotResponseService.java:60-71 | search, cut to `maxCountBooks`; no hit leaves the sessions alone, otherwise state NONE and the hits cached and offered (TitleSearch) |
| Dialogue.NumberInputStep | src/main/java/com/telegram_bots/bookbot/bot/service/BotResponseService.java:73-93 | state NONE, read the chosen book, then parse and update, each failure escaping with the state already reset (NumberInput) |
| Dialogue.CallbackStep | src/main/java/com/telegram_bots/bookbot/bot/service/BotResponseService.java:95-100 | the command before the first `:` picks the case; colon-only data throws ArrayIndexOutOfBounds (CallbackReaches, CancelFallsThrough) |
| Dialogue.CaseOf | src/main/java/com/telegram_bots/bookbot/bot/service/BotResponseService.java:100-164 | the case label a command selects, the default for any other command (CaseOfManageBook, CaseOfSelectBook, CaseOfFilterByStatus, CaseOfSetStatus) |
| Dialogue.CommandStep | src/main/java/com/telegram_bots/bookbot/bot/service/BotResponseService.java:100-165 | each case of the switch, delegating to its step (ChangeFilterChangesNothing, ChangeStatusChangesNothing, UnknownCommandChangesNothing and the XCase lemmas) |
| Dialogue.PromptStep | src/main/java/com/telegram_bots/bookbot/bot/service/BotResponseService.java:101-104 | the add-book case (and the update-page and rate-book cases at lines 147-154): the waiting state is set and the prompt sent (PromptSetsState) |
| Dialogue.CancelAddedBookStep | src/main/java/com/telegram_bots/bookbot/bot/service/BotResponseService.java:105-109 | state NONE, results cleared, then the cancelled notice (CancelAddedBookResets) |
| Dialogue.ShowBooksStep | src/main/java/com/telegram_bots/bookbot/bot/service/BotResponseService.java:110-113 | the chosen book is forgotten, then the list (ShowBooksForgetsSelection) |
| Dialogue.NextPageStep | src/main/java/com/telegram_bots/bookbot/bot/service/BotResponseService.java:117-120 | incrementPage, then the list (NextPageMovesForward) |
| Dialogue.PrevPageStep | src/main/java/com/telegram_bots/bookbot/bot/service/BotResponseService.java:121-124 | decrementPage, then the list (PrevPageMovesBack) |
| Dialogue.FilterClearStep | src/main/java/com/telegram_bots/bookbot/bot/service/BotResponseService.java:128-131 | the filter is cleared, then the list (FilterClearShowsAll) |
| Dialogue.FilterByStatusStep | src/main/java/com/telegram_bots/bookbot/bot/service/BotResponseService.java:132-137 | substring and valueOf, either failure escaping; then the filter is set and the list sent (FilterByStatusShowsOnlyThatStatus) |
| Dialogue.ManageBookStep | src/main/java/com/telegram_bots/bookbot/bot/service/BotResponseService.java:138-143 | extractBookId, failure escaping; then the id is chosen and the book menu sent (ManageBookSelects, PressManageBook) |
| Dialogue.DeleteBookStep | src/main/java/com/telegram_bots/bookbot/bot/service/BotResponseService.java:307-311 | extractBookId, failure escaping; then that book is deleted and the notice sent (DeleteBookRemoves) |
| Dialogue.BookSelectionStep | src/main/java/com/telegram_bots/bookbot/bot/service/BotResponseService.java:189-206 | parse the index, read the cache, not-found past the end, throw below zero, else add the candidate, clear the cache, confirm and list (BookSelection, SearchRowAddsCandidate) |
| Dialogue.SetStatusStep | src/main/java/com/telegram_bots/bookbot/bot/service/BotResponseService.java:313-332 | replace and trim, an unknown status answered; no chosen book answered; else getBookById and updateStatus (SetStatusEffects, StatusButtonUpdatesBook) |
| Controller.BotResponseService.constructor | src/main/java/com/telegram_bots/bookbot/bot/service/BotResponseService.java:35-40 | keeps the given services |
| Controller.BotResponseService.HandleTextMessage | src/main/java/com/telegram_bots/bookbot/bot/service/BotResponseService.java:42-58 | the new sessions, books and outcome are those of the text handler |
| Controller.BotResponseService.HandleBookTitle | src/main/java/com/telegram_bots/bookbot/bot/service/BotResponseService.java:60-71 | the new state and outcome are those of the title handler |
| Controller.BotResponseService.HandleNumberInput | src/main/java/com/telegram_bots/bookbot/bot/service/BotResponseService.java:73-93 | the new state and outcome are those of the page/rating handler |
| Controller.BotResponseService.HandleCallbackQuery | src/main/java/com/telegram_bots/bookbot/bot/service/BotResponseService.java:95-100 | the new state and outcome are those of the callback handler |
| Controller.BotResponseService.HandleCommand | src/main/java/com/telegram_bots/bookbot/bot/service/BotResponseService.java:100-165 | each case of the switch yields the state and outcome of that case |
| Controller.BotResponseService.HandleListCommand | src/main/java/com/telegram_bots/bookbot/bot/service/BotResponseService.java:110-131 | "show books", "forward", "back" and "show all" give the state and outcome of their cases |
| Controller.BotResponseService.HandleFilterByStatus | src/main/java/com/telegram_bots/bookbot/bot/service/BotResponseService.java:132-137 | matches the filter-by-status case |
| Controller.BotResponseService.HandleManageBook | src/main/java/com/telegram_bots/bookbot/bot/service/BotResponseService.java:138-143 | matches the manage-book case |
| Controller.BotResponseService.HandleDeleteBook | src/main/java/com/telegram_bots/bookbot/bot/service/BotResponseService.java:307-311 | leaves every session alone and matches the delete case |
| Controller.BotResponseService.HandleBookSelection | src/main/java/com/telegram_bots/bookbot/bot/service/BotResponseService.java:189-206 | matches the book-selection case |
| Controller.BotResponseService.HandleSetStatusCallback | src/main/java/com/telegram_bots/bookbot/bot/service/BotResponseService.java:313-332 | matches the set-status case |
| Controller.BotResponseService.ReplyWithList | src/main/java/com/telegram_bots/bookbot/bot/service/BotResponseService.java:112 | appends the list reply (or lets its exception out) after the given messages |
| Controller.BotResponseService.BuildBookListMessage | src/main/java/com/telegram_bots/bookbot/bot/service/BotResponseService.java:208-248 | creates only the chat's entry and returns the list reply for the chat's books, filter and page |
| DialogueProperties.TouchedSameView | src/main/java/com/telegram_bots/bookbot/bot/service/UserStateService.java:21-23 | reading a session changes nothing any chat can see |
| DialogueProperties.SavedOnlySessionOf | src/main/java/com/telegram_bots/bookbot/bot/service/UserStateService.java:21-74 | a setter changes only the session of its own chat |
| DialogueProperties.ListReplySameView | src/main/java/com/telegram_bots/bookbot/bot/service/BotResponseService.java:208-248 | sending the list changes nothing a chat can see and replies with the list for the chat's filter and page |
| DialogueProperties.TextWithoutDialogue | src/main/java/com/telegram_bots/bookbot/bot/service/BotResponseService.java:46-56 | `/start` always greets and changes nothing; other text outside a dialogue is answered "unknown" and changes nothing visible |
| DialogueProperties.TitleSearch | src/main/java/com/telegram_bots/bookbot/bot/service/BotResponseService.java:60-71 | at most `maxCountBooks` results, a prefix of the search. No results: nothing changes, "nothing found". Otherwise: state NONE, results cached, they are offered, and no other chat is affected. |
| DialogueProperties.NumberInputRouting | src/main/java/com/telegram_bots/bookbot/bot/service/BotResponseService.java:52-55 | while waiting for a page (rating) the text goes to the page (rating) input with the page (rating) update |
| DialogueProperties.NumberInput | src/main/java/com/telegram_bots/bookbot/bot/service/BotResponseService.java:73-93 | the state is NONE afterwards whatever happens; other chats are untouched; the books change only on a successful update, replying its messages; text no `int` throws NumberFormat |
| DialogueProperties.PromptSetsState | src/main/java/com/telegram_bots/bookbot/bot/service/BotResponseService.java:101-104 | "add book", "update page" and "rate book" set exactly the waiting state and send the prompt |
| DialogueProperties.CancelAddedBookResets | src/main/java/com/telegram_bots/bookbot/bot/service/BotResponseService.java:105-109 | cancel sets state NONE and empties the results; nothing else changes |
| DialogueProperties.ChangeFilterChangesNothing | src/main/java/com/telegram_bots/bookbot/bot/service/BotResponseService.java:125-127 | the filter keyboard is sent and nothing changes |
| DialogueProperties.ChangeStatusChangesNothing | src/main/java/com/telegram_bots/bookbot/bot/service/BotResponseService.java:144-146 | the status keyboard is sent and nothing changes |
| DialogueProperties.UnknownCommandChangesNothing | src/main/java/com/telegram_bots/bookbot/bot/service/BotResponseService.java:162-164 | an unknown command is answered "unknown" and nothing changes |
| DialogueProperties.ManageBookSelects | src/main/java/com/telegram_bots/bookbot/bot/service/BotResponseService.java:138-143 | a bad id throws with nothing changed; otherwise the id becomes the chosen book and its menu is sent |
| DialogueProperties.DeleteBookRemoves | src/main/java/com/telegram_bots/bookbot/bot/service/BotResponseService.java:155-157 | sessions unchanged; a bad id throws; otherwise exactly that book is gone and the others are kept |
| DialogueProperties.NextPageMovesForward | src/main/java/com/telegram_bots/bookbot/bot/service/BotResponseService.java:117-120 | the page grows by one in 32-bit arithmetic, nothing else changes, and the list for the new page is sent |
| DialogueProperties.PrevPageMovesBack | src/main/java/com/telegram_bots/bookbot/bot/service/BotResponseService.java:121-124 | the page becomes `max(0, page - 1)`, nothing else changes, and that page's list is sent |
| DialogueProperties.FilterClearShowsAll | src/main/java/com/telegram_bots/bookbot/bot/service/BotResponseService.java:128-131 | the filter is cleared, nothing else changes, the unfiltered list is sent |
| DialogueProperties.ShowBooksForgetsSelection | src/main/java/com/telegram_bots/bookbot/bot/service/BotResponseService.java:110-113 | the chosen book is forgotten, nothing else changes, the list is sent |
| DialogueProperties.ListAfterSave | src/main/java/com/telegram_bots/bookbot/bot/service/BotResponseService.java:208-212 | the list sent after a setter is the one for the updated session |
| DialogueProperties.FilterByStatusShowsOnlyThatStatus | src/main/java/com/telegram_bots/bookbot/bot/service/BotResponseService.java:132-137 | a bad status throws with nothing changed; otherwise it becomes the filter and every book listed has it |
| DialogueProperties.BookSelection | src/main/java/com/telegram_bots/bookbot/bot/service/BotResponseService.java:189-206 | a non-numeric index throws with nothing changed. Past the end: "not found". Negative: throws. Otherwise exactly that candidate is added, the cache is emptied, and the confirmation precedes the list. |
| DialogueProperties.SetStatusEffects | src/main/java/com/telegram_bots/bookbot/bot/service/BotResponseService.java:313-332 | an unknown status is answered with nothing changed; no chosen book is answered with nothing visible changed; sessions never change; the books change only by the update of the chosen book to the named status |
| DialogueProperties.CaseOfManageBook | src/main/java/com/telegram_bots/bookbot/bot/service/BotResponseService.java:138 | `manage_book` selects its case |
| DialogueProperties.CaseOfSelectBook | src/main/java/com/telegram_bots/bookbot/bot/service/BotResponseService.java:114 | `select_book` selects its case |
| DialogueProperties.CaseOfFilterByStatus | src/main/java/com/telegram_bots/bookbot/bot/service/BotResponseService.java:132 | `filter_by_status` selects its case |
| DialogueProperties.CaseOfSetStatus | src/main/java/com/telegram_bots/bookbot/bot/service/BotResponseService.java:159 | `set_status` selects its case |
| DialogueProperties.CaseOfCancel | src/main/java/com/telegram_bots/bookbot/bot/service/BotResponseService.java:100-164 | `cancel` matches no case label, so it selects the default case |
| DialogueProperties.CancelFallsThrough | src/main/java/com/telegram_bots/bookbot/bot/service/MessageService.java:72 | the search results' cancel button (`cancel`) is no case of the switch: it gets the unknown-action reply and nothing changes |
| DialogueProperties.CallbackReaches | src/main/java/com/telegram_bots/bookbot/bot/service/BotResponseService.java:95-100 | data whose command names a case runs that case |
| DialogueProperties.PressManageBook | src/main/java/com/telegram_bots/bookbot/bot/service/BotResponseService.java:138-143 | a `manage_book:<id>` press chooses that id for editing and changes no other session field and no other chat |
| DialogueProperties.ListRowSelectsBook | src/main/java/com/telegram_bots/bookbot/bot/service/MessageService.java:161-166 | pressing book `i`'s row on the list chooses book `i` for editing |
| DialogueProperties.SearchRowAddsCandidate | src/main/java/com/telegram_bots/bookbot/bot/service/BotResponseService.java:189-206 | pressing candidate `i`'s row adds exactly candidate `i` and empties the cache |
| DialogueProperties.FilterButtonSetsFilter | src/main/java/com/telegram_bots/bookbot/bot/service/BotResponseService.java:256-258 | pressing status `i`'s filter button makes that status the chat's filter and changes nothing else |
| DialogueProperties.StatusButtonUpdatesBook | src/main/java/com/telegram_bots/bookbot/bot/service/BotResponseService.java:291-295 | pressing status `i`'s button with a book chosen that the store finds updates it to status `i` and sends the update replies, or lets the update's exception out with the books unchanged; sessions are untouched |

## Left out

- Telegram transport is not modelled. There is no bot loop, `Update` parsing, or message sending. A handler receives the chat id and the text or callback data, and returns the replies as values (MyTelegramBot.java is not part of this model).
- The Litres search and HTTP are parameters of the model (the `searchBooks` field). LitresService.java is not part of this model.
- Some book-store calls the controller makes are not in service/BookService.java: `getAllBooksOfUser`, `getBookOptionalById`, `addBook(chatId, title, author)`, `updatePage`, `updateRating` and `updateStatus`. They are parameters of the model.
  - `addBook` and the three updates return a result, so their failure is an error that escapes the handler.
  - `getAllBooksOfUser` returns a list and `getBookOptionalById` an optional book; neither can fail in the model. A failure of theirs (a database error, say) is not modelled, so the page window is the only exception of the list reply.
- The "updated" replies receive the book as it was read before the update. In Java, `updatePage`, `updateRating` and `updateStatus` get the same `Book` object that is then passed to the reply builder, and may have changed it (BotResponseService.java:82-84, 90-92, 329-331). That aliasing is not modelled.
- The controller's `getBookById` expects a `Book`, but the BookService in this model returns an `Optional`, so the controller's call is a parameter as well. A missing book is an error.
- Several reply builders are not in MessageService.java: no-books-found, book menu, page and rating prompts, deleted, the three "updated" replies and `createSimpleMessage`. They are parameters; only the chat id and inputs they are given are modelled.
- The greetings file is read as a sequence of lines; the I/O error path (`RuntimeException`) is not modelled. The random index is a parameter of `GetRandomMessage`.
- Sessions are values in a map rather than shared `UserSession` objects. `getSession` is private and no session object leaves the store, so nothing can alias them.
- `ConcurrentHashMap` is modelled as a plain map, and concurrent handlers are not modelled.
- The Markdown parse mode of the list reply is not modelled, nor is Telegram's rendering of it.
- `Integer.parseInt` and `Long.parseLong` accept ASCII digits only. Java also accepts other Unicode decimal digits.
- The Russian literals of the status keyboards and the set-status replies are written decoded. The source file's text is garbled in its encoding. No property depends on the exact text.
- `/start` always greets and does not reset the dialogue state; the model follows the code here.
- A negative index in `handleBookSelection` makes `List.get` throw. Java throws `IndexOutOfBoundsException` there, and it is modelled as that kind.
- `Dialogue` and `Controller.BotResponseService` use the corrected page arithmetic: the intended list window and pagination row, not the 32-bit overflow. The members that carry it while modelling buildPaginationButtons and buildBookListMessage are Messages.BuildPaginationButtons, Messages.PaginationRow, ListView.PageWindow, ListView.ListMessage and ListView.LayOutList. The code as written is kept beside them under Findings.
- BookStore.BookService.AddBook: stores the book under the id it carries. Saving a new entity in the database assigns a generated identity id instead (model/entities/Book.java:20-22); id generation is not modelled.
- Entities.Book: title, author and status are always present. The Java fields may be null, and updateBook copies whatever it is given (service/BookService.java:34-36). A book with a null status would make buildBooksText throw NullPointerException (MessageService.java:153) and would never match a filter (BotResponseService.java:218); neither is modelled.
- Strings are sequences of Unicode scalar values, not Java's UTF-16 code units. Lengths and offsets in contracts count characters. For example, Messages.BookAddedMessage's `|title| + 20` is `+ 21` in Java, because 📚 is a surrogate pair. A callback payload with a character outside the Basic Multilingual Plane before offset 12 or 17 would be cut at a different place by Java's `substring`.
- Payloads.SetStatusText: only its length bound is stated in its contract; the exact result for every status button is stated in SetStatusRoundTrip.

## Findings

| source | as written | input that shows it | evidently intended | confidence | as-written member | corrected member |
|---|---|---|---|---|---|---|
| src/main/java/com/telegram_bots/bookbot/bot/service/BotResponseService.java:223 | `currentPage * pageSize` is `int` arithmetic and overflows for pages above 214748364; on page 214748365 it wraps to -2147483646, which makes `fromIndex` negative and `subList` throw | a chat on page 214748365 with no books; incrementPage has no bound, and although an empty list shows no "forward" button, one left on an older list message can still be pressed | a page past the end shows an empty list | not executed | ListView.PageWindowOverflowThrows | ListView.PageWindow |
| src/main/java/com/telegram_bots/bookbot/bot/service/MessageService.java:174 | `(currentPage + 1) * pageSize` is `int` arithmetic; on page 214748364 it wraps to -2147483646, so the "forward" button appears where there is no later page | page 214748364 with no books | "forward" only when a later page holds a book | not executed | Messages.PaginationOverflowShowsNext | Messages.PaginationRow |
