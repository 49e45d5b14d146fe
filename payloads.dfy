/** The callback payloads of the dialogue controller
    (bot/service/BotResponseService.java): how a pressed button's data is cut
    into a command and its parameter, and the payloads the reply builders emit
    read back to the values they were made from. */
module Payloads {
  import opened JavaLang
  import opened BookStatuses
  import opened Entities
  import opened Messages

  /** The command of a payload: `data.split(":")[0]` when the data holds a
      colon, the whole data otherwise. Data made of colons only splits into no
      parts at all, so taking part 0 throws. */
  function Command(data: string): (r: Result<string>)
    ensures r.Err? <==> ':' in data && forall i :: 0 <= i < |data| ==> data[i] == ':'
    ensures r.Err? ==> r.error == ArrayIndexOutOfBounds
    ensures r.Ok? ==> r.value == PrefixBefore(data, ':')
  {
    if ':' in data then
      var segs := Segments(data, ':');
      var parts := Split(data, ':');
      SegmentsAllEmpty(data, ':');
      FirstSegment(data, ':');
      if |parts| == 0 then
        Err(ArrayIndexOutOfBounds)
      else
        assert parts[0] == segs[0];
        assert segs[|parts| - 1] != "";
        Ok(parts[0])
    else
      SegmentsWithoutSep(data, ':');
      FirstSegment(data, ':');
      Ok(data)
  }

  /** A payload made of a colon-free command and a parameter has that command. */
  lemma CommandOfPayload(command: string, parameter: string)
    requires command != [] && ':' !in command
    ensures Command(command + ":" + parameter) == Ok(command)
  {
    var data := command + ":" + parameter;
    assert data == command + [':'] + parameter;
    assert data[0] == command[0];
    assert data[|command|] == ':';
    SegmentsAfterPrefix(command, ':', parameter);
    FirstSegment(data, ':');
  }

  /** A payload without a colon is its own command. */
  lemma CommandWithoutColon(data: string)
    requires ':' !in data
    ensures Command(data) == Ok(data)
  {
  }

  /** extractBookId: `Long.parseLong(data.split(":")[1])`. Fewer than two parts
      throws ArrayIndexOutOfBounds; a second part that is not a decimal `long`
      throws NumberFormat. */
  function ExtractBookId(data: string): (r: Result<Long>)
    ensures r.Err? ==> r.error == ArrayIndexOutOfBounds || r.error == NumberFormat
    ensures r.Err? && r.error == ArrayIndexOutOfBounds <==> |Split(data, ':')| < 2
    ensures r.Ok? ==> |Split(data, ':')| >= 2 && ParseLong(Split(data, ':')[1]) == Ok(r.value)
  {
    var parts := Split(data, ':');
    if |parts| < 2 then Err(ArrayIndexOutOfBounds) else ParseLong(parts[1])
  }

  /** `<command>:<id>` gives the id back, so every `manage_book:` and
      `delete_book:` payload reads back the book id it was made with. */
  lemma ExtractBookIdOfPayload(command: string, id: Long)
    requires ':' !in command
    ensures ExtractBookId(command + ":" + IntToString(id)) == Ok(id)
  {
    var digits := IntToString(id);
    IntToStringChars(id);
    ParseLongOfToString(id);
    SplitPair(command, ':', digits);
    assert command + ":" + digits == command + [':'] + digits;
  }

  /** The concrete case `delete_book:42`. */
  lemma ExtractBookIdExample()
    ensures ExtractBookId("delete_book:42") == Ok(42)
  {
    var command := "delete_book";
    forall k | 0 <= k < |command| ensures command[k] != ':' {
    }
    ExtractBookIdOfPayload(command, 42);
    DeleteBook42();
  }

  lemma DeleteBook42()
    ensures "delete_book" + ":" + IntToString(42) == "delete_book:42"
  {
    assert IntToString(42) == "42" by {
      assert NatToString(42) == NatToString(4) + [DigitChar(2)];
    }
  }

  /** Every row of buildBookButtons sends a payload whose command is
      `manage_book` and whose parameter is the book's id. */
  lemma BookButtonsRoundTrip(books: seq<Book>, i: nat)
    requires i < |books|
    ensures |BookButtons(books)[i]| == 1
    ensures Command(BookButtons(books)[i][0].payload) == Ok("manage_book")
    ensures ExtractBookId(BookButtons(books)[i][0].payload) == Ok(books[i].id)
  {
    assert "manage_book" + ":" == "manage_book:";
    CommandOfPayload("manage_book", IntToString(books[i].id));
    ExtractBookIdOfPayload("manage_book", books[i].id);
  }

  // ---------------------------------------------------------------------------
  // Book selection

  const SelectBookPrefix: string := "select_book:"

  /** The index a `select_book` payload names:
      `Integer.parseInt(data.substring("select_book:".length()))`. */
  function SelectIndex(data: string): (r: Result<Int32>)
    ensures |data| < 12 ==> r == Err(StringIndexOutOfBounds)
    ensures |data| >= 12 ==> r == ParseInt(data[12..])
  {
    match Substring(data, |SelectBookPrefix|)
    case Err(e) => Err(e)
    case Ok(rest) => ParseInt(rest)
  }

  /** Row `i` of the search results reads back as index `i`. */
  lemma SelectIndexOfPayload(i: Int32)
    ensures SelectIndex(SelectBookPrefix + IntToString(i)) == Ok(i)
    ensures Command(SelectBookPrefix + IntToString(i)) == Ok("select_book")
  {
    var data := SelectBookPrefix + IntToString(i);
    assert data[12..] == IntToString(i);
    ParseIntOfToString(i);
    assert SelectBookPrefix == "select_book" + ":";
    CommandOfPayload("select_book", IntToString(i));
  }

  /** Every candidate row of buildBookSearchResults sends a `select_book`
      payload naming its own row, and the last row sends `cancel`. */
  lemma SearchResultsRoundTrip(chatId: string, books: seq<Candidate>, i: nat)
    requires i < |books| <= MaxInt32
    ensures var rows := SearchResultsMessage(chatId, books).keyboard.value;
      && Command(rows[i][0].payload) == Ok("select_book")
      && SelectIndex(rows[i][0].payload) == Ok(i)
      && rows[|books|] == [CancelSearchButton]
  {
    SelectIndexOfPayload(i);
  }

  // ---------------------------------------------------------------------------
  // Status payloads

  const FilterByStatusPrefix: string := "filter_by_status:"
  const SetStatusPrefix: string := "set_status:"

  /** The status a `filter_by_status` payload names:
      `BookStatus.valueOf(data.substring("filter_by_status:".length()))`. */
  function FilterStatus(data: string): (r: Result<BookStatus>)
    ensures |data| < 17 ==> r == Err(StringIndexOutOfBounds)
    ensures |data| >= 17 ==> r == ValueOf(data[17..])
  {
    match Substring(data, |FilterByStatusPrefix|)
    case Err(e) => Err(e)
    case Ok(key) => ValueOf(key)
  }

  /** `filter_by_status:<S.name()>` reads back as S. */
  lemma FilterStatusRoundTrip(s: BookStatus)
    ensures FilterStatus(FilterByStatusPrefix + Name(s)) == Ok(s)
    ensures Command(FilterByStatusPrefix + Name(s)) == Ok("filter_by_status")
  {
    var data := FilterByStatusPrefix + Name(s);
    assert data[17..] == Name(s);
    ValueOfName(s);
    assert FilterByStatusPrefix == "filter_by_status" + ":";
    CommandOfPayload("filter_by_status", Name(s));
  }

  /** The status text of a `set_status` payload:
      `data.replace("set_status:", "").trim()`. */
  function SetStatusText(data: string): (r: string)
    ensures |r| <= |ReplaceAll(data, SetStatusPrefix, "")|
  {
    TrimHasNoBlankEnds(ReplaceAll(data, SetStatusPrefix, ""));
    Trim(ReplaceAll(data, SetStatusPrefix, ""))
  }

  /** `set_status:<S.name()>` reads back as S. */
  lemma SetStatusRoundTrip(s: BookStatus)
    ensures SetStatusText(SetStatusPrefix + Name(s)) == Name(s)
    ensures ValueOf(SetStatusText(SetStatusPrefix + Name(s))) == Ok(s)
    ensures Command(SetStatusPrefix + Name(s)) == Ok("set_status")
  {
    var name := Name(s);
    ReplaceAtStart(SetStatusPrefix, name);
    assert SetStatusPrefix[10] == ':';
    ReplaceAbsent(name, SetStatusPrefix, "", ':');
    TrimNoBlankEnds(name);
    ValueOfName(s);
    assert SetStatusPrefix == "set_status" + ":";
    CommandOfPayload("set_status", name);
  }

  /** replace removes an occurrence at the very start and goes on after it. */
  lemma ReplaceAtStart(p: string, rest: string)
    requires |p| > 0
    ensures ReplaceAll(p + rest, p, "") == ReplaceAll(rest, p, "")
  {
    var s := p + rest;
    assert s[..|p|] == p;
    assert s[|p|..] == rest;
  }

  // ---------------------------------------------------------------------------
  // Deleting the pressed message

  /** A DeleteMessage: the chat id as text and the id of the pressed message. */
  datatype DeleteRequest = DeleteRequest(chatId: string, messageId: Int32)

  /** The payloads, besides those holding `select_book`, whose message is removed. */
  const DeleteCommands: seq<string> := ["cancel", "add_book", "books_prev_page", "books_next_page", "change_filter"]

  /** handleDeleteMessage: a request to delete the pressed message exactly when
      the payload holds `select_book` anywhere or is one of the five commands
      verbatim; no request (null) otherwise. */
  function HandleDeleteMessage(chatId: Long, messageId: Int32, data: string): (r: Option<DeleteRequest>)
    ensures r.Some? <==> Contains(data, "select_book") || data in DeleteCommands
    ensures r.Some? ==> r.value == DeleteRequest(IntToString(chatId), messageId)
  {
    if ContainsFrom(data, "select_book") || data in DeleteCommands then
      Some(DeleteRequest(IntToString(chatId), messageId))
    else
      None
  }

  /** A character of the pattern that never occurs in the text rules the
      pattern out. */
  lemma NotContainsByChar(s: string, t: string, c: char)
    requires c in t && c !in s
    ensures !Contains(s, t)
  {
    var k :| 0 <= k < |t| && t[k] == c;
    forall i: nat | i <= |s| ensures !OccursAt(s, t, i) {
      if i + |t| <= |s| {
        assert s[i..i + |t|][k] == s[i + k];
        assert s[i + k] in s;
      }
    }
  }

  /** Cancelling an added book keeps the pressed message: the payload holds
      no `select_book` (a plain-text scan shows it) and is not one of the five
      commands. */
  lemma CancelAddedBookKept(chatId: Long, messageId: Int32)
    ensures HandleDeleteMessage(chatId, messageId, "cancel_added_book").None?
  {
    assert "select_book"[0] == 's';
    assert 's' !in "cancel_added_book";
    NotContainsByChar("cancel_added_book", "select_book", 's');
    forall k | 0 <= k < |DeleteCommands| ensures |DeleteCommands[k]| < 17 {
    }
  }

  /** Deleting a book keeps the pressed message: `delete_book:<id>` holds no
      `s`, so no `select_book`, and it is not one of the five commands. */
  lemma DeleteBookKept(chatId: Long, messageId: Int32, id: Long)
    ensures HandleDeleteMessage(chatId, messageId, "delete_book:" + IntToString(id)).None?
  {
    var d := IntToString(id);
    var data := "delete_book:" + d;
    forall j | 0 <= j < |d| ensures d[j] != 's' {
      DigitsOfToString(id, j);
    }
    forall j | 0 <= j < |data| ensures data[j] != 's' {
      if j >= 12 {
        assert data[j] == d[j - 12];
      }
    }
    assert "select_book"[0] == 's';
    NotContainsByChar(data, "select_book", 's');
    NotADeleteCommand(data);
  }

  /** None of the five commands starts with a `d`. */
  lemma NotADeleteCommand(data: string)
    requires |data| > 0 && data[0] == 'd'
    ensures data !in DeleteCommands
  {
    forall k | 0 <= k < |DeleteCommands| ensures DeleteCommands[k][0] != 'd' {
    }
  }

  /** The decimal text of a number is a minus sign and digits. */
  lemma DigitsOfToString(x: int, j: nat)
    requires j < |IntToString(x)|
    ensures IntToString(x)[j] == '-' || IsDigit(IntToString(x)[j])
  {
    var d := if x < 0 then NatToString(-x) else NatToString(x);
    NatToStringValue(if x < 0 then -x else x);
    if x < 0 && j > 0 {
      assert IntToString(x)[j] == d[j - 1];
    }
  }

  /** The message with the search results goes away whichever of its buttons
      is pressed: every candidate row and the cancel row. */
  lemma SearchResultsAreDeleted(chatId: Long, messageId: Int32, chat: string, books: seq<Candidate>, i: nat)
    requires i < |books|
    ensures HandleDeleteMessage(chatId, messageId, SearchResultsMessage(chat, books).keyboard.value[i][0].payload).Some?
    ensures HandleDeleteMessage(chatId, messageId, SearchResultsMessage(chat, books).keyboard.value[|books|][0].payload).Some?
  {
    var payload := SearchResultsMessage(chat, books).keyboard.value[i][0].payload;
    assert payload == "select_book:" + IntToString(i);
    assert OccursAt(payload, "select_book", 0) by {
      assert payload[..11] == "select_book";
    }
    assert DeleteCommands[0] == "cancel";
  }
}
