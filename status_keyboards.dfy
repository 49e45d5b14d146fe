/** The two status keyboards of bot/service/BotResponseService.java: the
    filter keyboard of buildStatusFilterButtons (the statuses two to a row,
    then "show all" and "back") and the keyboard of handleChangeStatus (one
    status per row). */
module StatusKeyboards {
  import opened JavaLang
  import opened BookStatuses
  import opened Messages
  import opened Payloads

  const StatusFilterText: string := "Выберите статус для фильтрации 📖"
  const ClearFilterButton: Button := Button("📋 Показать все", "filter_status_clear")
  const BackToListButton: Button := Button("🔙 Назад", "show_books")
  const ChangeStatusText: string := "Выбери новый статус книги:"

  /** The button that filters the list by one status. */
  function FilterButton(s: BookStatus): Button
  {
    Button(DisplayNameRu(s), FilterByStatusPrefix + Name(s))
  }

  /** Row `k` of the items laid out in pairs: the buttons of items `2 k` and
      `2 k + 1`, or only that of `2 k` when it is the last one. */
  function PairRow<T>(items: seq<T>, button: T -> Button, k: nat): (row: seq<Button>)
    requires 2 * k < |items|
  {
    if 2 * k + 1 < |items| then [button(items[2 * k]), button(items[2 * k + 1])]
    else [button(items[2 * k])]
  }

  /** The buttons of the items laid out two to a row, in order; an odd one out
      gets a row of its own at the end. */
  function PairRows<T>(items: seq<T>, button: T -> Button): (rows: Keyboard)
    ensures |rows| == (|items| + 1) / 2
    ensures forall k :: 0 <= k < |rows| ==> 2 * k < |items| && rows[k] == PairRow(items, button, k)
  {
    seq((|items| + 1) / 2, k requires 0 <= k < (|items| + 1) / 2 => PairRow(items, button, k))
  }

  /** The filter keyboard: the statuses in pairs, then "show all", then "back". */
  function StatusFilterMessage(chatId: Long): (m: Msg)
    ensures m.chatId == ChatIdString(chatId) && m.text == StatusFilterText && m.keyboard.Some?
    ensures |m.keyboard.value| == 6
    ensures m.keyboard.value[4] == [ClearFilterButton] && m.keyboard.value[5] == [BackToListButton]
  {
    Msg(ChatIdString(chatId), StatusFilterText, Some(PairRows(Values, FilterButton) + [[ClearFilterButton], [BackToListButton]]))
  }

  /** buildStatusFilterButtons: the status rows, then "show all" and "back". */
  method BuildStatusFilterButtons(chatId: Long) returns (m: Msg)
    ensures m == StatusFilterMessage(chatId)
  {
    var rows := PairUp(Values, FilterButton);
    ghost var pairs := rows;
    rows := rows + [[ClearFilterButton]];
    rows := rows + [[BackToListButton]];
    AppendAssoc(pairs, [[ClearFilterButton]], [[BackToListButton]]);
    assert [[ClearFilterButton]] + [[BackToListButton]] == [[ClearFilterButton], [BackToListButton]];
    m := Msg(ChatIdString(chatId), StatusFilterText, Some(rows));
  }

  /** The loop of buildStatusFilterButtons over the statuses: each button goes
      into the current row, which is closed once it holds two; a half-filled
      row is closed after the loop. */
  method PairUp<T>(statuses: seq<T>, button: T -> Button) returns (rows: Keyboard)
    ensures rows == PairRows(statuses, button)
  {
    ghost var all := PairRows(statuses, button);
    rows := [];
    var currentRow: seq<Button> := [];
    var i := 0;
    while i < |statuses|
      invariant 0 <= i <= |statuses|
      invariant i == 2 * |rows| + |currentRow| && |currentRow| <= 1
      invariant rows == all[..|rows|]
      invariant |currentRow| == 1 ==> currentRow == [button(statuses[i - 1])]
    {
      var status := statuses[i];
      currentRow := currentRow + [button(status)];
      if |currentRow| == 2 {
        CloseRow(statuses, button, rows, currentRow);
        rows := rows + [currentRow];
        currentRow := [];
      }
      i := i + 1;
    }
    if |currentRow| > 0 {
      CloseRow(statuses, button, rows, currentRow);
      rows := rows + [currentRow];
    }
    assert rows == all[..|all|];
  }

  /** Closing the row after `rows` with the buttons of its items extends the
      prefix of the paired rows by one. */
  lemma CloseRow<T>(items: seq<T>, button: T -> Button, rows: Keyboard, row: seq<Button>)
    requires 2 * |rows| < |items|
    requires rows == PairRows(items, button)[..|rows|]
    requires row == PairRow(items, button, |rows|)
    ensures rows + [row] == PairRows(items, button)[..|rows| + 1]
  {
  }

  /** Every status has its button on the filter keyboard, in row `i / 2`,
      and pressing it reads that status back: the command is
      `filter_by_status` and the parameter names the status. */
  lemma StatusFilterRoundTrip(chatId: Long, i: nat)
    requires i < |Values|
    ensures var row := StatusFilterMessage(chatId).keyboard.value[i / 2];
      && i % 2 < |row|
      && row[i % 2] == FilterButton(Values[i])
      && Command(row[i % 2].payload) == Ok("filter_by_status")
      && FilterStatus(row[i % 2].payload) == Ok(Values[i])
  {
    PairRowsAt(Values, FilterButton, i);
    FilterStatusRoundTrip(Values[i]);
  }

  /** Item `i` has its button in row `i / 2` at place `i % 2`. */
  lemma PairRowsAt<T>(items: seq<T>, button: T -> Button, i: nat)
    requires i < |items|
    ensures i / 2 < |PairRows(items, button)|
    ensures i % 2 < |PairRows(items, button)[i / 2]|
    ensures PairRows(items, button)[i / 2][i % 2] == button(items[i])
  {
    var k := i / 2;
    assert i == 2 * k + i % 2;
  }

  /** The button that sets a book's status. */
  function SetStatusButton(s: BookStatus): Button
  {
    Button(DisplayNameRu(s), SetStatusPrefix + Name(s))
  }

  /** One row per status, in order (the stream map of handleChangeStatus). */
  function SetStatusRows(statuses: seq<BookStatus>): (rows: Keyboard)
    ensures |rows| == |statuses|
    ensures forall i :: 0 <= i < |statuses| ==> rows[i] == [SetStatusButton(statuses[i])]
  {
    if statuses == [] then []
    else SetStatusRows(statuses[..|statuses| - 1]) + [[SetStatusButton(statuses[|statuses| - 1])]]
  }

  /** handleChangeStatus: the single reply offering every status. */
  function ChangeStatusMessage(chatId: Long): (m: Msg)
    ensures m.chatId == ChatIdString(chatId) && m.text == ChangeStatusText && m.keyboard.Some?
    ensures |m.keyboard.value| == |Values|
  {
    Msg(ChatIdString(chatId), ChangeStatusText, Some(SetStatusRows(Values)))
  }

  /** Row `i` of the change-status keyboard sets status `i`: its payload has
      the command `set_status` and reads back that status. */
  lemma ChangeStatusRoundTrip(chatId: Long, i: nat)
    requires i < |Values|
    ensures var row := ChangeStatusMessage(chatId).keyboard.value[i];
      && |row| == 1
      && row[0].text == DisplayNameRu(Values[i])
      && Command(row[0].payload) == Ok("set_status")
      && ValueOf(SetStatusText(row[0].payload)) == Ok(Values[i])
  {
    SetStatusRoundTrip(Values[i]);
  }
}
