/**
 The handful of Python `str` operations the receipt pipeline relies on, over
 `string` (a `seq<char>`): `in` (substring test), `strip()`, `split(sep)` and
 `sep.join(parts)`, the last two for a one-character separator.
 */
module Text {

  /** Python's `str.isspace()` for one character: the characters `str.strip()`
      with no argument removes. */
  predicate IsSpace(c: char) {
    var n := c as int;
    (0x09 <= n <= 0x0D) || (0x1C <= n <= 0x20) || n == 0x85 || n == 0xA0
    || n == 0x1680 || (0x2000 <= n <= 0x200A) || n == 0x2028 || n == 0x2029
    || n == 0x202F || n == 0x205F || n == 0x3000
  }

  predicate AllSpace(s: string) {
    forall k :: 0 <= k < |s| ==> IsSpace(s[k])
  }

  /** Python's `pat in s`: `pat` occurs as a contiguous substring of `s`. */
  predicate Contains(s: string, pat: string) {
    exists i | 0 <= i <= |s| - |pat| :: OccursAt(s, pat, i)
  }

  /** `pat` occurs in `s` starting at index `i`. */
  predicate OccursAt(s: string, pat: string, i: nat) {
    i + |pat| <= |s| && s[i..i + |pat|] == pat
  }

  /** Index of the first non-space character at or after `i` (`|s|` when
      there is none). */
  function SkipSpaces(s: string, i: nat): (k: nat)
    requires i <= |s|
    ensures i <= k <= |s|
    ensures forall j :: i <= j < k ==> IsSpace(s[j])
    ensures k < |s| ==> !IsSpace(s[k])
    decreases |s| - i
  {
    if i < |s| && IsSpace(s[i]) then SkipSpaces(s, i + 1) else i
  }

  /** End of `s[lo..hi]` once its trailing whitespace is dropped. */
  function TrimEnd(s: string, lo: nat, hi: nat): (k: nat)
    requires lo <= hi <= |s|
    ensures lo <= k <= hi
    ensures forall j :: k <= j < hi ==> IsSpace(s[j])
    ensures lo < k ==> !IsSpace(s[k - 1])
    decreases hi
  {
    if lo < hi && IsSpace(s[hi - 1]) then TrimEnd(s, lo, hi - 1) else hi
  }

  /** Python's `s.strip()`: whitespace dropped at both ends (that the result
      is the middle slice of `s` and that only whitespace is dropped is
      `StripIsSlice`). */
  function Strip(s: string): (r: string)
    ensures |r| <= |s|
    ensures Trimmed(r)
  {
    var i := SkipSpaces(s, 0);
    var k := TrimEnd(s, i, |s|);
    assert |s[i..k]| > 0 ==> s[i..k][0] == s[i] && s[i..k][k - i - 1] == s[k - 1];
    s[i..k]
  }

  /** `strip()` keeps a slice of its argument and drops only whitespace
      around it. */
  lemma StripIsSlice(s: string)
    ensures exists i :: 0 <= i <= |s| - |Strip(s)| && Strip(s) == s[i..i + |Strip(s)|]
                        && AllSpace(s[..i]) && AllSpace(s[i + |Strip(s)|..])
  {
    var i := SkipSpaces(s, 0);
    var k := TrimEnd(s, i, |s|);
    assert Strip(s) == s[i..k];
    assert AllSpace(s[..i]) by {
      forall j | 0 <= j < i ensures IsSpace(s[..i][j]) {
        assert s[..i][j] == s[j];
      }
    }
    assert AllSpace(s[k..]) by {
      forall j | 0 <= j < |s| - k ensures IsSpace(s[k..][j]) {
        assert s[k..][j] == s[k + j];
      }
    }
  }

  /** Index of the first occurrence of `c` in `s`. */
  function IndexOf(s: string, c: char): (i: nat)
    requires c in s
    ensures i < |s| && s[i] == c && c !in s[..i]
  {
    if s[0] == c then 0 else 1 + IndexOf(s[1..], c)
  }

  /** Python's `sep.join(parts)` for a one-character separator. */
  function Join(parts: seq<string>, sep: char): string
  {
    if |parts| == 0 then ""
    else if |parts| == 1 then parts[0]
    else parts[0] + [sep] + Join(parts[1..], sep)
  }

  /** Python's `s.split(sep)` for a one-character separator: the maximal
      separator-free pieces of `s`, in order, which `Join` glues back into `s`.
      There is always at least one piece, and more than one exactly when the
      separator occurs. */
  function Split(s: string, sep: char): (parts: seq<string>)
    ensures |parts| >= 1
    ensures |parts| == 1 <==> sep !in s
    ensures forall k :: 0 <= k < |parts| ==> sep !in parts[k]
    ensures Join(parts, sep) == s
    decreases |s|
  {
    if sep !in s then [s]
    else
      var i := IndexOf(s, sep);
      var rest := Split(s[i + 1..], sep);
      var parts := [s[..i]] + rest;
      assert parts[1..] == rest;
      assert s == s[..i] + [sep] + s[i + 1..];
      parts
  }

  /** The text between the first occurrence of `sep` and the next one (or the
      end of `s`): an independent description of `s.split(sep)[1]`. */
  function SecondSegment(s: string, sep: char): string
    requires sep in s
  {
    var rest := s[IndexOf(s, sep) + 1..];
    if sep in rest then rest[..IndexOf(rest, sep)] else rest
  }

  /** `IndexOf` finds the first separator of a joined sequence at the end of
      its first piece. */
  lemma IndexOfJoin(head: string, tail: string, sep: char)
    requires sep !in head
    ensures sep in head + [sep] + tail
    ensures IndexOf(head + [sep] + tail, sep) == |head|
    ensures (head + [sep] + tail)[|head| + 1..] == tail
  {
    var s := head + [sep] + tail;
    assert s[|head|] == sep;
    assert s[..|head|] == head;
  }

  /** Splitting undoes joining whenever no piece contains the separator. */
  lemma {:induction false} SplitJoin(parts: seq<string>, sep: char)
    requires |parts| >= 1
    requires forall k :: 0 <= k < |parts| ==> sep !in parts[k]
    ensures Split(Join(parts, sep), sep) == parts
    decreases |parts|
  {
    if |parts| > 1 {
      var tail := Join(parts[1..], sep);
      assert Join(parts, sep) == parts[0] + [sep] + tail;
      SplitCons(parts[0], tail, sep);
      SplitJoin(parts[1..], sep);
      assert [parts[0]] + parts[1..] == parts;
    } else {
      var pieces := Split(parts[0], sep);
      assert |pieces| == 1 && Join(pieces, sep) == pieces[0];
      assert pieces == [parts[0]] == parts;
    }
  }

  /** A separator-free head followed by the separator splits off as the first
      piece. */
  lemma SplitCons(head: string, tail: string, sep: char)
    requires sep !in head
    ensures Split(head + [sep] + tail, sep) == [head] + Split(tail, sep)
  {
    var s := head + [sep] + tail;
    IndexOfJoin(head, tail, sep);
    assert s[..|head|] == head;
  }

  /** The second piece of a split is the text between the first and the second
      separator. */
  lemma SplitSecond(s: string, sep: char)
    requires sep in s
    ensures |Split(s, sep)| >= 2
    ensures Split(s, sep)[1] == SecondSegment(s, sep)
  {
    var i := IndexOf(s, sep);
    var rest := s[i + 1..];
    SplitUnfold(s, sep);
    if sep in rest {
      SplitUnfold(rest, sep);
    }
  }

  /** A text with a separator splits into the piece before the first
      separator, then the pieces of the text after it. */
  lemma SplitUnfold(s: string, sep: char)
    requires sep in s
    ensures Split(s, sep) == [s[..IndexOf(s, sep)]] + Split(s[IndexOf(s, sep) + 1..], sep)
  {
  }

  /** After a separator-free `a`, the second segment of `a:rest` is the
      first piece of `rest`. */
  lemma SecondSegmentAfter(a: string, rest: string, sep: char)
    requires sep !in a
    ensures sep in a + [sep] + rest
    ensures SecondSegment(a + [sep] + rest, sep)
            == if sep in rest then rest[..IndexOf(rest, sep)] else rest
  {
    IndexOfJoin(a, rest, sep);
  }

  /** The second segment of `a:b:c` (with no colon in `a` or `b`) is `b`,
      whatever follows the second separator. */
  lemma SecondSegmentBetween(a: string, b: string, c: string, sep: char)
    requires sep !in a && sep !in b
    ensures sep in a + [sep] + b + [sep] + c
    ensures SecondSegment(a + [sep] + b + [sep] + c, sep) == b
  {
    var rest := b + [sep] + c;
    assert a + [sep] + b + [sep] + c == a + [sep] + rest;
    SecondSegmentAfter(a, rest, sep);
    IndexOfJoin(b, c, sep);
    assert rest[..|b|] == b;
  }

  /** The second segment of `a:b` (with no colon in `a` or `b`) is `b`. */
  lemma SecondSegmentLast(a: string, b: string, sep: char)
    requires sep !in a && sep !in b
    ensures sep in a + [sep] + b
    ensures SecondSegment(a + [sep] + b, sep) == b
  {
    SecondSegmentAfter(a, b, sep);
  }

  /** `s` has no whitespace at either end. */
  predicate Trimmed(s: string)
  {
    |s| == 0 || (!IsSpace(s[0]) && !IsSpace(s[|s| - 1]))
  }

  /** `strip()` removes exactly the whitespace padding around trimmed text. */
  lemma StripPadded(a: string, s: string, b: string)
    requires AllSpace(a) && AllSpace(b) && Trimmed(s)
    ensures Strip(a + s + b) == s
  {
    var x := a + s + b;
    var i := SkipSpaces(x, 0);
    var k := TrimEnd(x, i, |x|);
    assert forall j :: 0 <= j < |a| ==> x[j] == a[j];
    assert forall j :: 0 <= j < |s| ==> x[|a| + j] == s[j];
    assert forall j :: 0 <= j < |b| ==> x[|a| + |s| + j] == b[j];
    if |s| == 0 {
      assert forall j :: 0 <= j < |x| ==> IsSpace(x[j]);
      assert i == |x|;
    } else {
      assert !IsSpace(x[|a|]) && !IsSpace(x[|a| + |s| - 1]);
      assert i == |a|;
      assert k == |a| + |s|;
      assert x[|a|..|a| + |s|] == s;
    }
  }

  /** A text that does not contain the first character of a non-empty
      pattern does not contain the pattern. */
  lemma NotContainsFirstChar(s: string, pat: string)
    requires |pat| > 0 && pat[0] !in s
    ensures !Contains(s, pat)
  {
    forall i | 0 <= i <= |s| - |pat|
      ensures !OccursAt(s, pat, i)
    {
      assert s[i..i + |pat|][0] == s[i];
    }
  }

  /** A text starting with the pattern contains it. */
  lemma ContainsPrefix(pat: string, rest: string)
    ensures Contains(pat + rest, pat)
  {
    assert OccursAt(pat + rest, pat, 0);
  }
}
