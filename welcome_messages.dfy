/** The greeting texts (utils/WelcomeMessageProvider.java). The resource file is
    read line by line: a line that trims to `---` closes the current block,
    every other line is appended to it followed by a line break, the closed
    block is stored trimmed, and a non-empty unfinished block at the end of the
    file is stored as well. A greeting is then picked at random, with a fixed
    text when there is none. */
module WelcomeMessages {
  import opened JavaLang

  const FallbackText: string := "Привет! Я бот для отслеживания книг 📚"

  predicate IsSeparator(line: string)
  {
    Trim(line) == "---"
  }

  /** The blocks closed so far and the text of the open block. */
  datatype ScanState = ScanState(closed: seq<string>, buffer: string)

  /** One line read: a separator closes the open block, any other line is
      appended to it. */
  function Step(s: ScanState, line: string): ScanState
  {
    if IsSeparator(line) then ScanState(s.closed + [Trim(s.buffer)], "")
    else ScanState(s.closed, s.buffer + line + "\n")
  }

  /** The reading loop seen from the front: the state reached from `s` by
      reading `lines` one after another. */
  function ScanFrom(s: ScanState, lines: seq<string>): ScanState
    decreases |lines|
  {
    if lines == [] then s else ScanFrom(Step(s, lines[0]), lines[1..])
  }

  /** The state of the reading loop after the given lines, seen from the back. */
  function Scan(lines: seq<string>): ScanState
  {
    if lines == [] then ScanState([], "") else Step(Scan(lines[..|lines| - 1]), lines[|lines| - 1])
  }

  /** The greetings loadMessages adds for a file with these lines: the blocks
      the loop closes, and the open block if it is not empty. */
  function Blocks(lines: seq<string>): seq<string>
  {
    var s := ScanFrom(ScanState([], ""), lines);
    s.closed + (if |s.buffer| > 0 then [Trim(s.buffer)] else [])
  }

  // ---------------------------------------------------------------------------
  // An independent description: the lines cut into groups at the separators.

  function CountSeparators(lines: seq<string>): (n: nat)
    ensures n <= |lines|
  {
    if lines == [] then 0
    else CountSeparators(lines[..|lines| - 1]) + (if IsSeparator(lines[|lines| - 1]) then 1 else 0)
  }

  /** The non-separator lines, in order. */
  function TextLines(lines: seq<string>): seq<string>
  {
    if lines == [] then []
    else
      var line := lines[|lines| - 1];
      TextLines(lines[..|lines| - 1]) + (if IsSeparator(line) then [] else [line])
  }

  /** The lines between consecutive separators (and before the first and after
      the last one): k separators give k + 1 groups. */
  function Groups(lines: seq<string>): (gs: seq<seq<string>>)
    ensures |gs| == CountSeparators(lines) + 1
  {
    if lines == [] then [[]]
    else
      var gs := Groups(lines[..|lines| - 1]);
      var line := lines[|lines| - 1];
      if IsSeparator(line) then gs + [[]]
      else gs[..|gs| - 1] + [gs[|gs| - 1] + [line]]
  }

  function Flatten(gs: seq<seq<string>>): seq<string>
  {
    if gs == [] then [] else Flatten(gs[..|gs| - 1]) + gs[|gs| - 1]
  }

  /** A group's text: each line followed by a line break. */
  function GroupText(g: seq<string>): (t: string)
    ensures |t| >= |g|
  {
    if g == [] then "" else GroupText(g[..|g| - 1]) + g[|g| - 1] + "\n"
  }

  /** The trimmed text of each group, in order. */
  function TrimmedTexts(gs: seq<seq<string>>): (r: seq<string>)
    ensures |r| == |gs|
  {
    if gs == [] then [] else TrimmedTexts(gs[..|gs| - 1]) + [Trim(GroupText(gs[|gs| - 1]))]
  }

  lemma {:induction false} TrimmedTextsAt(gs: seq<seq<string>>, k: nat)
    requires k < |gs|
    ensures TrimmedTexts(gs)[k] == Trim(GroupText(gs[k]))
    decreases |gs|
  {
    if k < |gs| - 1 {
      var front := gs[..|gs| - 1];
      TrimmedTextsAt(front, k);
      assert front[k] == gs[k];
    }
  }

  lemma {:induction false} FlattenAppend(a: seq<seq<string>>, b: seq<seq<string>>)
    ensures Flatten(a + b) == Flatten(a) + Flatten(b)
    decreases |b|
  {
    if b == [] {
      assert a + b == a;
    } else {
      var ab := a + b;
      var front := b[..|b| - 1];
      assert ab[..|ab| - 1] == a + front;
      assert ab[|ab| - 1] == b[|b| - 1];
      FlattenAppend(a, front);
    }
  }

  lemma {:induction false} TrimmedTextsAppend(a: seq<seq<string>>, g: seq<string>)
    ensures TrimmedTexts(a + [g]) == TrimmedTexts(a) + [Trim(GroupText(g))]
  {
    assert (a + [g])[..|a|] == a;
  }

  /** The groups hold exactly the non-separator lines, in order, and no group
      holds a separator. */
  lemma GroupsPartitionText(lines: seq<string>)
    ensures Flatten(Groups(lines)) == TextLines(lines)
    ensures forall k, j :: 0 <= k < |Groups(lines)| && 0 <= j < |Groups(lines)[k]| ==>
      !IsSeparator(Groups(lines)[k][j])
  {
    GroupsFlatten(lines);
    GroupsHoldNoSeparator(lines);
  }

  lemma {:induction false} GroupsFlatten(lines: seq<string>)
    ensures Flatten(Groups(lines)) == TextLines(lines)
    decreases |lines|
  {
    if lines != [] {
      var front := lines[..|lines| - 1];
      var line := lines[|lines| - 1];
      var gs := Groups(front);
      GroupsFlatten(front);
      if IsSeparator(line) {
        assert Groups(lines) == gs + [[]];
        assert TextLines(lines) == TextLines(front);
        FlattenAppend(gs, [[]]);
        assert Flatten([[]]) == Flatten([]) + [];
      } else {
        var init, last := gs[..|gs| - 1], gs[|gs| - 1];
        assert gs == init + [last];
        assert Groups(lines) == init + [last + [line]];
        assert TextLines(lines) == TextLines(front) + [line];
        FlattenAppend(init, [last]);
        FlattenAppend(init, [last + [line]]);
        var none: seq<seq<string>> := [];
        assert [last][..0] == none;
        assert [last + [line]][..0] == none;
        assert Flatten([last]) == last;
        assert Flatten([last + [line]]) == last + [line];
      }
    }
  }

  lemma {:induction false} GroupsHoldNoSeparator(lines: seq<string>)
    ensures forall k, j :: 0 <= k < |Groups(lines)| && 0 <= j < |Groups(lines)[k]| ==>
      !IsSeparator(Groups(lines)[k][j])
    decreases |lines|
  {
    if lines != [] {
      var front := lines[..|lines| - 1];
      var line := lines[|lines| - 1];
      var gs := Groups(front);
      GroupsHoldNoSeparator(front);
      var gs' := Groups(lines);
      if IsSeparator(line) {
        assert gs' == gs + [[]];
      } else {
        var init, last := gs[..|gs| - 1], gs[|gs| - 1];
        assert gs' == init + [last + [line]];
        forall k, j | 0 <= k < |gs'| && 0 <= j < |gs'[k]| ensures !IsSeparator(gs'[k][j]) {
          if k < |init| {
            assert gs'[k] == gs[k];
          } else if j < |last| {
            assert gs'[k][j] == last[j] == gs[|gs| - 1][j];
          }
        }
      }
    }
  }

  /** The reading loop tracks the groups: the closed blocks are the trimmed
      texts of all groups but the last, and the open block is the text of
      the last group. */
  lemma {:induction false} ScanFollowsGroups(lines: seq<string>)
    ensures var gs := Groups(lines);
      && Scan(lines).closed == TrimmedTexts(gs[..|gs| - 1])
      && Scan(lines).buffer == GroupText(gs[|gs| - 1])
    decreases |lines|
  {
    if lines != [] {
      var front := lines[..|lines| - 1];
      var line := lines[|lines| - 1];
      var gs := Groups(front);
      ScanFollowsGroups(front);
      var gs' := Groups(lines);
      if IsSeparator(line) {
        assert gs'[..|gs'| - 1] == gs;
        assert gs == gs[..|gs| - 1] + [gs[|gs| - 1]];
        TrimmedTextsAppend(gs[..|gs| - 1], gs[|gs| - 1]);
      } else {
        var last := gs[|gs| - 1];
        assert gs'[..|gs'| - 1] == gs[..|gs| - 1];
        assert gs'[|gs'| - 1] == last + [line];
        assert (last + [line])[..|last|] == last;
      }
    }
  }

  lemma {:induction false} GroupTextEmpty(g: seq<string>)
    ensures |GroupText(g)| > 0 <==> g != []
  {
    if g != [] {
      var t := GroupText(g);
      assert t == GroupText(g[..|g| - 1]) + g[|g| - 1] + "\n";
    }
  }

  /** The last group is empty exactly when the file is empty or ends with a separator. */
  lemma LastGroupEmpty(lines: seq<string>)
    ensures var gs := Groups(lines);
      gs[|gs| - 1] == [] <==> lines == [] || IsSeparator(lines[|lines| - 1])
  {
    if lines != [] && !IsSeparator(lines[|lines| - 1]) {
      var gs := Groups(lines[..|lines| - 1]);
      assert Groups(lines)[|Groups(lines)| - 1] == gs[|gs| - 1] + [lines[|lines| - 1]];
    }
  }

  /** The greetings are the trimmed texts of the groups; the last group counts
      only when it is not empty. Separator lines therefore never reach a
      greeting, and the number of greetings is the number of separators, plus
      one when the file does not end with a separator. A file ending in `---`
      adds no extra greeting. */
  lemma BlocksAreGroups(lines: seq<string>)
    ensures var gs := Groups(lines);
      Blocks(lines) == TrimmedTexts(if gs[|gs| - 1] == [] then gs[..|gs| - 1] else gs)
    ensures |Blocks(lines)| ==
      CountSeparators(lines) + (if lines != [] && !IsSeparator(lines[|lines| - 1]) then 1 else 0)
  {
    var gs := Groups(lines);
    ScanFromStart(lines);
    ScanFollowsGroups(lines);
    GroupTextEmpty(gs[|gs| - 1]);
    LastGroupEmpty(lines);
    if gs[|gs| - 1] != [] {
      assert gs == gs[..|gs| - 1] + [gs[|gs| - 1]];
      TrimmedTextsAppend(gs[..|gs| - 1], gs[|gs| - 1]);
    }
  }

  /** The closed blocks only grow as lines are read. */
  lemma {:induction false} ScanClosedGrows(lines: seq<string>, k: nat)
    requires k <= |lines|
    ensures Scan(lines[..k]).closed <= Scan(lines).closed
    decreases |lines| - k
  {
    if k < |lines| {
      var front := lines[..|lines| - 1];
      assert front[..k] == lines[..k];
      ScanClosedGrows(front, k);
      assert lines[..|lines|] == lines;
    } else {
      assert lines[..k] == lines;
    }
  }

  /** Each separator closes one block. */
  lemma {:induction false} ScanClosedCount(lines: seq<string>)
    ensures |Scan(lines).closed| == CountSeparators(lines)
    decreases |lines|
  {
    if lines != [] {
      ScanClosedCount(lines[..|lines| - 1]);
    }
  }

  /** Two separators in a row give an empty greeting: the block the second one
      closes. */
  lemma ConsecutiveSeparators(lines: seq<string>, i: nat)
    requires i + 1 < |lines| && IsSeparator(lines[i]) && IsSeparator(lines[i + 1])
    ensures 0 < CountSeparators(lines[..i + 2]) <= |Blocks(lines)|
    ensures Blocks(lines)[CountSeparators(lines[..i + 2]) - 1] == ""
  {
    var pre := lines[..i + 2];
    ScanPrefixStep(lines, i);
    ScanPrefixStep(lines, i + 1);
    assert Trim("") == "";
    ScanClosedCount(pre);
    ScanClosedGrows(lines, i + 2);
    ScanFromStart(lines);
  }

  lemma ScanPrefixStep(lines: seq<string>, k: nat)
    requires k < |lines|
    ensures Scan(lines[..k + 1]) == Step(Scan(lines[..k]), lines[k])
  {
    assert lines[..k + 1][..k] == lines[..k];
  }

  lemma ScanFromStart(lines: seq<string>)
    ensures ScanFrom(ScanState([], ""), lines) == Scan(lines)
  {
    ScanFromIsScan(lines, 0);
    assert lines[..0] == [] && lines[0..] == lines;
  }

  lemma ScanFromStep(s: ScanState, lines: seq<string>, i: nat)
    requires i < |lines|
    ensures ScanFrom(s, lines[i..]) == ScanFrom(Step(s, lines[i]), lines[i + 1..])
  {
    assert lines[i..][1..] == lines[i + 1..];
  }

  /** Reading the first k lines and then the rest is reading all of them. */
  lemma {:induction false} ScanFromIsScan(lines: seq<string>, k: nat)
    requires k <= |lines|
    ensures ScanFrom(Scan(lines[..k]), lines[k..]) == Scan(lines)
    decreases |lines| - k
  {
    if k == |lines| {
      assert lines[..k] == lines;
    } else {
      ScanPrefixStep(lines, k);
      assert lines[k..][1..] == lines[k + 1..];
      ScanFromIsScan(lines, k + 1);
    }
  }

  class WelcomeMessageProvider {
    var welcomeMessages: seq<string>

    constructor ()
      ensures welcomeMessages == []
    {
      welcomeMessages := [];
    }

    /** loadMessages over the lines of the resource file: appends the file's
        blocks to the greetings already held. */
    method LoadMessages(lines: seq<string>)
      modifies this
      ensures welcomeMessages == old(welcomeMessages) + Blocks(lines)
    {
      var messages := welcomeMessages;   // the list the loop appends to
      var message := "";
      var i := 0;
      ghost var added: seq<string> := [];
      while i < |lines|
        invariant 0 <= i <= |lines|
        invariant ScanFrom(ScanState(added, message), lines[i..]) == ScanFrom(ScanState([], ""), lines)
        invariant messages == old(welcomeMessages) + added
      {
        var line := lines[i];
        ghost var before := ScanState(added, message);
        if IsSeparator(line) {
          var block := Trim(message);
          messages := messages + [block];
          added := added + [block];
          message := "";
        } else {
          message := message + line + "\n";
        }
        ScanFromStep(before, lines, i);
        i := i + 1;
      }
      if |message| > 0 {
        messages := messages + [Trim(message)];
      }
      welcomeMessages := messages;
    }

    /** getRandomMessage, with `pick` standing for Random.nextInt(size): the
        fallback text when there is no greeting, otherwise the picked one. */
    method GetRandomMessage(pick: nat) returns (m: string)
      requires welcomeMessages != [] ==> pick < |welcomeMessages|
      ensures welcomeMessages == [] ==> m == FallbackText
      ensures welcomeMessages != [] ==> m == welcomeMessages[pick] && m in welcomeMessages
    {
      if |welcomeMessages| == 0 {
        return FallbackText;
      }
      m := welcomeMessages[pick];
    }
  }
}
