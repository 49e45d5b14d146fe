/** The fragments of java.lang and java.util that the bot's dialogue logic
    relies on, written out with their Java semantics: 32- and 64-bit integer
    ranges, String.split on a single character, substring, replace, trim,
    Integer.parseInt / Long.parseLong, Long.toString and List.subList.
    Where Java throws, these functions return an Err carrying the exception. */
module JavaLang {

  datatype Option<+T> = None | Some(value: T)

  /** The unchecked exceptions the modelled code can raise. */
  datatype JavaException =
    | ArrayIndexOutOfBounds    // split(...)[i] past the end
    | StringIndexOutOfBounds   // substring past the end
    | IndexOutOfBounds         // List.get / List.subList out of range
    | IllegalArgument          // Enum.valueOf on an unknown name, subList(from > to)
    | NumberFormat             // Integer.parseInt / Long.parseLong
    | CollaboratorFailure      // a call into code that is not part of this model failed
    | Runtime(message: string) // new RuntimeException(message)

  datatype Result<+T> = Ok(value: T) | Err(error: JavaException)

  const MinInt32: int := -0x8000_0000
  const MaxInt32: int := 0x7FFF_FFFF
  const MinLong: int := -0x8000_0000_0000_0000
  const MaxLong: int := 0x7FFF_FFFF_FFFF_FFFF

  /** Java `int`. */
  type Int32 = x: int | MinInt32 <= x <= MaxInt32
  /** Java `long` (chat ids and book ids). */
  type Long = x: int | MinLong <= x <= MaxLong

  /** Two's-complement wrap-around of a Java `int` operation. */
  function Wrap32(x: int): (r: Int32)
    ensures MinInt32 <= x <= MaxInt32 ==> r == x
    ensures MaxInt32 < x <= MaxInt32 + 0x1_0000_0000 ==> r == x - 0x1_0000_0000
    ensures MinInt32 - 0x1_0000_0000 <= x < MinInt32 ==> r == x + 0x1_0000_0000
  {
    (x - MinInt32) % 0x1_0000_0000 + MinInt32
  }

  /** The wrapped value differs from the exact one by a multiple of 2^32. */
  lemma Wrap32Congruent(x: int)
    ensures (Wrap32(x) - x) % 0x1_0000_0000 == 0
  {
  }

  // ---------------------------------------------------------------------------
  // Strings

  /** `t` occurs in `s` starting at position `i`. */
  predicate OccursAt(s: string, t: string, i: nat)
  {
    i + |t| <= |s| && s[i..i + |t|] == t
  }

  /** String.contains. */
  predicate Contains(s: string, t: string)
  {
    exists i: nat | i <= |s| :: OccursAt(s, t, i)
  }

  /** String.contains by recursion over the string (used to decide concrete cases). */
  function ContainsFrom(s: string, t: string): (r: bool)
    ensures r <==> Contains(s, t)
    decreases |s|
  {
    if |s| < |t| then
      assert forall i: nat :: !OccursAt(s, t, i);
      false
    else if s[..|t|] == t then
      assert OccursAt(s, t, 0);
      true
    else
      var r := ContainsFrom(s[1..], t);
      ContainsShift(s, t);
      r
  }

  lemma ContainsShift(s: string, t: string)
    requires |t| <= |s| && s[..|t|] != t
    ensures Contains(s, t) <==> Contains(s[1..], t)
  {
    var rest := s[1..];
    assert |rest| == |s| - 1;
    if Contains(s, t) {
      var i: nat :| OccursAt(s, t, i);
      assert OccursAt(s, t, i);
      assert i + |t| <= |s|;
      assert i != 0;
      assert i - 1 + |t| <= |rest|;
      assert rest[i - 1..i - 1 + |t|] == s[i..i + |t|];
      assert OccursAt(rest, t, i - 1);
    }
    if Contains(rest, t) {
      var i: nat :| OccursAt(rest, t, i);
      assert OccursAt(rest, t, i);
      assert i + |t| <= |rest|;
      assert s[i + 1..i + 1 + |t|] == rest[i..i + |t|];
      assert OccursAt(s, t, i + 1);
    }
  }

  /** The segments of `s` between occurrences of `sep` (k separators give k+1 segments). */
  function Segments(s: string, sep: char): (r: seq<string>)
    ensures |r| >= 1
    ensures forall i :: 0 <= i < |r| ==> sep !in r[i]
    decreases |s|
  {
    if s == [] then [""]
    else
      var rest := Segments(s[1..], sep);
      if s[0] == sep then [""] + rest
      else [[s[0]] + rest[0]] + rest[1..]
  }

  /** Drops the empty strings at the end of a sequence of segments. */
  function DropTrailingEmpty(parts: seq<string>): (r: seq<string>)
    ensures |r| <= |parts| && r == parts[..|r|]
    ensures |r| > 0 ==> r[|r| - 1] != ""
    ensures forall i :: |r| <= i < |parts| ==> parts[i] == ""
  {
    if parts == [] then []
    else if parts[|parts| - 1] == "" then DropTrailingEmpty(parts[..|parts| - 1])
    else parts
  }

  /** String.split with a one-character regular expression and limit 0: a string
      without the separator gives itself; otherwise the segments, with the
      trailing empty ones removed. */
  function Split(s: string, sep: char): seq<string>
  {
    if sep !in s then [s] else DropTrailingEmpty(Segments(s, sep))
  }

  /** The text before the first `sep` (all of `s` if there is none). */
  function PrefixBefore(s: string, sep: char): (r: string)
    ensures sep !in r && r <= s
    ensures |r| < |s| ==> s[|r|] == sep
    decreases |s|
  {
    if s == [] || s[0] == sep then "" else [s[0]] + PrefixBefore(s[1..], sep)
  }

  lemma {:induction false} FirstSegment(s: string, sep: char)
    ensures Segments(s, sep)[0] == PrefixBefore(s, sep)
    decreases |s|
  {
    if s != [] && s[0] != sep {
      FirstSegment(s[1..], sep);
    }
  }

  /** The segments are all empty exactly when the string consists of separators only. */
  lemma {:induction false} SegmentsAllEmpty(s: string, sep: char)
    ensures (forall i :: 0 <= i < |Segments(s, sep)| ==> Segments(s, sep)[i] == "")
            <==> (forall j :: 0 <= j < |s| ==> s[j] == sep)
    decreases |s|
  {
    if s != [] {
      var tail := s[1..];
      SegmentsAllEmpty(tail, sep);
      var rest := Segments(tail, sep);
      var segs := Segments(s, sep);
      if s[0] == sep {
        assert segs == [""] + rest;
        if forall i :: 0 <= i < |rest| ==> rest[i] == "" {
          forall i | 0 <= i < |segs| ensures segs[i] == "" {
            if i > 0 { assert segs[i] == rest[i - 1]; }
          }
        }
        if forall i :: 0 <= i < |segs| ==> segs[i] == "" {
          forall i | 0 <= i < |rest| ensures rest[i] == "" {
            assert rest[i] == segs[i + 1];
          }
        }
        assert forall j :: 1 <= j < |s| ==> s[j] == tail[j - 1];
        if forall j :: 0 <= j < |tail| ==> tail[j] == sep {
          forall j | 0 <= j < |s| ensures s[j] == sep {
            if j > 0 { assert s[j] == tail[j - 1]; }
          }
        }
      } else {
        assert segs[0] != "";
      }
    }
  }

  /** A separator after a separator-free prefix ends the first segment. */
  lemma {:induction false} SegmentsAfterPrefix(a: string, sep: char, b: string)
    requires sep !in a
    ensures Segments(a + [sep] + b, sep) == [a] + Segments(b, sep)
    decreases |a|
  {
    if a == [] {
      assert a + [sep] + b == [sep] + b;
      assert ([sep] + b)[1..] == b;
    } else {
      var s := a + [sep] + b;
      assert s[1..] == a[1..] + [sep] + b;
      SegmentsAfterPrefix(a[1..], sep, b);
      assert [a[0]] + a[1..] == a;
    }
  }

  /** A string without the separator is a single segment. */
  lemma {:induction false} SegmentsWithoutSep(s: string, sep: char)
    requires sep !in s
    ensures Segments(s, sep) == [s]
    decreases |s|
  {
    if s != [] {
      SegmentsWithoutSep(s[1..], sep);
      assert [s[0]] + s[1..] == s;
    }
  }

  /** `"<a>:<b>".split(":")` with non-empty, separator-free halves is `[a, b]`. */
  lemma SplitPair(a: string, sep: char, b: string)
    requires sep !in a && sep !in b && b != []
    ensures Split(a + [sep] + b, sep) == [a, b]
  {
    var s := a + [sep] + b;
    assert s[|a|] == sep;
    SegmentsAfterPrefix(a, sep, b);
    SegmentsWithoutSep(b, sep);
    assert Segments(s, sep) == [a, b];
  }

  /** Appending is associative; stated once so that proofs about long
      concatenations need not rediscover it. */
  lemma AppendAssoc<T>(a: seq<T>, b: seq<T>, c: seq<T>)
    ensures a + b + c == a + (b + c)
  {
  }

  /** The texts of the elements, one after another (a StringBuilder appended to
      in a loop over a list). */
  function ConcatMap<T>(f: T -> string, xs: seq<T>): string
  {
    if xs == [] then "" else ConcatMap(f, xs[..|xs| - 1]) + f(xs[|xs| - 1])
  }

  lemma {:induction false} ConcatMapAppend<T>(f: T -> string, a: seq<T>, b: seq<T>)
    ensures ConcatMap(f, a + b) == ConcatMap(f, a) + ConcatMap(f, b)
    decreases |b|
  {
    if b == [] {
      assert a + b == a;
    } else {
      var ab := a + b;
      var front := b[..|b| - 1];
      assert ab[..|ab| - 1] == a + front;
      assert ab[|ab| - 1] == b[|b| - 1];
      ConcatMapAppend(f, a, front);
    }
  }

  /** The text of element `i` sits between those of the elements before it and
      those of the elements after it. */
  lemma {:induction false} ConcatMapAt<T>(f: T -> string, xs: seq<T>, i: nat)
    requires i < |xs|
    ensures ConcatMap(f, xs) == ConcatMap(f, xs[..i]) + f(xs[i]) + ConcatMap(f, xs[i + 1..])
  {
    var before, after := xs[..i], xs[i + 1..];
    var single := [xs[i]];
    assert xs[i..] == single + after;
    assert xs == before + xs[i..];
    ConcatMapAppend(f, before, single + after);
    ConcatMapAppend(f, single, after);
    assert single[..0] == [];
  }

  /** Appending one more element appends its text. */
  lemma ConcatMapSnoc<T>(f: T -> string, xs: seq<T>, i: nat)
    requires i < |xs|
    ensures ConcatMap(f, xs[..i + 1]) == ConcatMap(f, xs[..i]) + f(xs[i])
  {
    assert xs[..i + 1][..i] == xs[..i];
  }

  /** String.substring(from). */
  function Substring(s: string, from: nat): (r: Result<string>)
    ensures r.Ok? <==> from <= |s|
    ensures r.Ok? ==> s == s[..from] + r.value
  {
    if from <= |s| then Ok(s[from..]) else Err(StringIndexOutOfBounds)
  }

  /** String.replace(target, replacement): every non-overlapping occurrence of
      `target`, scanning from the left, is replaced. The source only passes a
      non-empty literal target. */
  function ReplaceAll(s: string, target: string, replacement: string): string
    requires |target| > 0
    decreases |s|
  {
    if |s| < |target| then s
    else if s[..|target|] == target then replacement + ReplaceAll(s[|target|..], target, replacement)
    else [s[0]] + ReplaceAll(s[1..], target, replacement)
  }

  /** A string in which a character of `target` never occurs is left alone by replace. */
  lemma {:induction false} ReplaceAbsent(s: string, target: string, replacement: string, c: char)
    requires |target| > 0 && c in target && c !in s
    ensures ReplaceAll(s, target, replacement) == s
    decreases |s|
  {
    if |s| >= |target| {
      assert s[..|target|] != target by {
        var k :| 0 <= k < |target| && target[k] == c;
        assert s[..|target|][k] == s[k];
      }
      ReplaceAbsent(s[1..], target, replacement, c);
      assert [s[0]] + s[1..] == s;
    }
  }

  /** Characters String.trim removes: code points up to U+0020. */
  predicate IsTrimmed(c: char)
  {
    c <= ' '
  }

  /** The first index at or after `i` that holds no blank (or |s|). */
  function TrimFrom(s: string, i: nat): (k: nat)
    requires i <= |s|
    ensures i <= k <= |s|
    ensures k < |s| ==> !IsTrimmed(s[k])
    decreases |s| - i
  {
    if i < |s| && IsTrimmed(s[i]) then TrimFrom(s, i + 1) else i
  }

  /** The end of `s[lo..j]` with its trailing blanks dropped. */
  function TrimTo(s: string, lo: nat, j: nat): (k: nat)
    requires lo <= j <= |s|
    ensures lo <= k <= j
    ensures k > lo ==> !IsTrimmed(s[k - 1])
    decreases j
  {
    if j > lo && IsTrimmed(s[j - 1]) then TrimTo(s, lo, j - 1) else j
  }

  /** String.trim: the characters between the first and the last one above
      U+0020. */
  function Trim(s: string): (r: string)
  {
    var st := TrimFrom(s, 0);
    var len := TrimTo(s, st, |s|);
    s[st..len]
  }

  /** A trimmed string is a piece of the original with no blank at either end,
      so trimming it again changes nothing. */
  lemma TrimHasNoBlankEnds(s: string)
    ensures |Trim(s)| <= |s|
    ensures Trim(s) != [] ==> !IsTrimmed(Trim(s)[0]) && !IsTrimmed(Trim(s)[|Trim(s)| - 1])
    ensures Trim(Trim(s)) == Trim(s)
  {
    var r := Trim(s);
    TrimNoBlankEnds(r);
  }

  /** A string with no blank character at either end is its own trim. */
  lemma TrimNoBlankEnds(s: string)
    requires s != [] ==> !IsTrimmed(s[0]) && !IsTrimmed(s[|s| - 1])
    ensures Trim(s) == s
  {
  }

  // ---------------------------------------------------------------------------
  // Decimal numbers

  predicate IsDigit(c: char)
  {
    '0' <= c <= '9'
  }

  function DigitValue(c: char): (d: nat)
    requires IsDigit(c)
    ensures d < 10
  {
    (c as int) - ('0' as int)
  }

  function DigitChar(d: nat): (c: char)
    requires d < 10
    ensures IsDigit(c) && DigitValue(c) == d
  {
    (('0' as int) + d) as char
  }

  predicate AllDigits(s: string)
  {
    forall i :: 0 <= i < |s| ==> IsDigit(s[i])
  }

  /** The value of a run of decimal digits, most significant first. */
  function DigitsValue(s: string): (n: nat)
    requires AllDigits(s)
  {
    if s == [] then 0 else DigitsValue(s[..|s| - 1]) * 10 + DigitValue(s[|s| - 1])
  }

  /** The decimal digits of a natural number, without leading zeros. */
  function NatToString(n: nat): (s: string)
    ensures s != [] && AllDigits(s)
  {
    if n < 10 then [DigitChar(n)] else NatToString(n / 10) + [DigitChar(n % 10)]
  }

  /** Integer.toString / Long.toString. */
  function IntToString(x: int): (s: string)
    ensures s != []
  {
    if x < 0 then "-" + NatToString(-x) else NatToString(x)
  }

  lemma {:induction false} NatToStringValue(n: nat)
    ensures DigitsValue(NatToString(n)) == n
  {
    if n >= 10 {
      var s := NatToString(n);
      assert s[..|s| - 1] == NatToString(n / 10);
      NatToStringValue(n / 10);
    }
  }

  /** Integer.parseInt / Long.parseLong (radix 10) for a result range [lo, hi]:
      an optional sign then at least one ASCII digit. */
  function ParseDecimal(s: string, lo: int, hi: int): (r: Result<int>)
    ensures r.Ok? ==> lo <= r.value <= hi
    ensures r.Err? ==> r.error == NumberFormat
  {
    var negative := s != [] && s[0] == '-';
    var body := if s != [] && (s[0] == '-' || s[0] == '+') then s[1..] else s;
    if body == [] || !AllDigits(body) then Err(NumberFormat)
    else
      var v: int := if negative then 0 - DigitsValue(body) else DigitsValue(body);
      if lo <= v <= hi then Ok(v) else Err(NumberFormat)
  }

  function ParseInt(s: string): (r: Result<Int32>)
  {
    match ParseDecimal(s, MinInt32, MaxInt32)
    case Ok(v) => Ok(v)
    case Err(e) => Err(e)
  }

  function ParseLong(s: string): (r: Result<Long>)
  {
    match ParseDecimal(s, MinLong, MaxLong)
    case Ok(v) => Ok(v)
    case Err(e) => Err(e)
  }

  /** Parsing the decimal text of a number in range gives the number back. */
  lemma ParseDecimalOfToString(x: int, lo: int, hi: int)
    requires lo <= x <= hi
    ensures ParseDecimal(IntToString(x), lo, hi) == Ok(x)
  {
    var s := IntToString(x);
    if x < 0 {
      NatToStringValue(-x);
      assert s[1..] == NatToString(-x);
      assert s[0] == '-';
    } else {
      NatToStringValue(x);
      var t := NatToString(x);
      assert IsDigit(t[0]);
    }
  }

  lemma ParseIntOfToString(x: Int32)
    ensures ParseInt(IntToString(x)) == Ok(x)
  {
    ParseDecimalOfToString(x, MinInt32, MaxInt32);
  }

  lemma ParseLongOfToString(x: Long)
    ensures ParseLong(IntToString(x)) == Ok(x)
  {
    ParseDecimalOfToString(x, MinLong, MaxLong);
  }

  /** The decimal text of a number never holds `:` nor a blank. */
  lemma IntToStringChars(x: int)
    ensures ':' !in IntToString(x)
    ensures forall i :: 0 <= i < |IntToString(x)| ==> !IsTrimmed(IntToString(x)[i])
  {
    var s := IntToString(x);
    var d := if x < 0 then NatToString(-x) else NatToString(x);
    assert forall i :: 0 <= i < |d| ==> IsDigit(d[i]);
    if x < 0 {
      assert forall i :: 1 <= i < |s| ==> s[i] == d[i - 1];
    }
  }

  // ---------------------------------------------------------------------------
  // Lists

  /** List.subList(from, to). */
  function SubList<T>(s: seq<T>, from: int, to: int): (r: Result<seq<T>>)
    ensures r.Ok? <==> 0 <= from <= to <= |s|
    ensures r.Ok? ==> r.value == s[from..to]
  {
    if from < 0 || to > |s| then Err(IndexOutOfBounds)
    else if from > to then Err(IllegalArgument)
    else Ok(s[from..to])
  }

  /** Stream.limit(n). */
  function Limit<T>(s: seq<T>, n: nat): (r: seq<T>)
    ensures |r| <= n && r <= s
    ensures |r| == if |s| <= n then |s| else n
  {
    if |s| <= n then s else s[..n]
  }

  /** Map.getOrDefault. */
  function GetOrDefault<K, V>(m: map<K, V>, k: K, default: V): (v: V)
    ensures k in m ==> v == m[k]
    ensures k !in m ==> v == default
  {
    if k in m then m[k] else default
  }
}
