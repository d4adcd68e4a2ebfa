/** String operations of Python's `str` that the pipeline relies on:
    `strip()`, `split("\n")`, `startswith` and `"".join`. */
module Text {

  /** Characters for which Python's `str.isspace()` holds; `str.strip()`
      with no argument removes exactly these from both ends. */
  predicate IsSpace(c: char)
  {
    var n := c as int;
    || (0x09 <= n <= 0x0D)
    || (0x1C <= n <= 0x20)
    || n == 0x85 || n == 0xA0 || n == 0x1680
    || (0x2000 <= n <= 0x200A)
    || n == 0x2028 || n == 0x2029 || n == 0x202F || n == 0x205F || n == 0x3000
  }

  predicate AllSpace(s: string)
  {
    forall i :: 0 <= i < |s| ==> IsSpace(s[i])
  }

  /** The first position at or after `from` that does not hold whitespace. */
  function SkipSpace(s: string, from: nat): (i: nat)
    requires from <= |s|
    ensures from <= i <= |s|
    ensures forall k :: from <= k < i ==> IsSpace(s[k])
    ensures i == |s| || !IsSpace(s[i])
    decreases |s| - from
  {
    if from == |s| || !IsSpace(s[from]) then from else SkipSpace(s, from + 1)
  }

  /** The start of the whitespace run that ends at `stop`, not going below `lo`. */
  function SkipSpaceBack(s: string, lo: nat, stop: nat): (j: nat)
    requires lo <= stop <= |s|
    ensures lo <= j <= stop
    ensures forall k :: j <= k < stop ==> IsSpace(s[k])
    ensures j == lo || !IsSpace(s[j - 1])
    decreases stop
  {
    if stop == lo || !IsSpace(s[stop - 1]) then stop else SkipSpaceBack(s, lo, stop - 1)
  }

  /** `s.strip()`: `s` with its leading and trailing whitespace removed. */
  function Strip(s: string): (r: string)
  {
    var i := SkipSpace(s, 0);
    s[i..SkipSpaceBack(s, i, |s|)]
  }

  /** `strip()` gives the empty string exactly for all-whitespace text, and
      otherwise text that starts and ends with a non-whitespace character. */
  lemma StripSpec(s: string)
    ensures Strip(s) == [] <==> AllSpace(s)
    ensures Strip(s) == [] || (!IsSpace(Strip(s)[0]) && !IsSpace(Strip(s)[|Strip(s)| - 1]))
  {
    var i := SkipSpace(s, 0);
    var j := SkipSpaceBack(s, i, |s|);
    if i < |s| {
      assert !IsSpace(s[i]);
      assert j > i;
      assert Strip(s)[0] == s[i];
      assert Strip(s)[|Strip(s)| - 1] == s[j - 1];
    }
  }

  /** What `strip()` keeps is the slice of `s` between two whitespace runs. */
  lemma StripIsSlice(s: string)
    ensures exists i, j :: && 0 <= i <= j <= |s| && Strip(s) == s[i..j]
                           && (forall k :: 0 <= k < i ==> IsSpace(s[k]))
                           && (forall k :: j <= k < |s| ==> IsSpace(s[k]))
  {
    var i := SkipSpace(s, 0);
    var j := SkipSpaceBack(s, i, |s|);
    assert Strip(s) == s[i..j];
  }

  /** Stripping a line leaves a line. */
  lemma StripKeepsLine(s: string)
    requires '\n' !in s
    ensures '\n' !in Strip(s)
  {
    var i := SkipSpace(s, 0);
    var j := SkipSpaceBack(s, i, |s|);
    forall x | 0 <= x < j - i
      ensures Strip(s)[x] != '\n'
    {
      assert Strip(s)[x] == s[i + x];
    }
  }

  predicate StartsWith(s: string, prefix: string)
  {
    |prefix| <= |s| && s[..|prefix|] == prefix
  }

  /** Position of the first newline at or after `from`, or `|s|` when there is none. */
  function LineEndFrom(s: string, from: nat): (i: nat)
    requires from <= |s|
    ensures from <= i <= |s|
    ensures i < |s| ==> s[i] == '\n'
    ensures forall j :: from <= j < i ==> s[j] != '\n'
    decreases |s| - from
  {
    if from == |s| || s[from] == '\n' then from else LineEndFrom(s, from + 1)
  }

  /** Position of the first newline of `s`, or `|s|` when it has none. */
  function LineEnd(s: string): (i: nat)
    ensures i <= |s|
    ensures i < |s| ==> s[i] == '\n'
    ensures forall j :: 0 <= j < i ==> s[j] != '\n'
  {
    LineEndFrom(s, 0)
  }

  /** `s` holds a newline exactly when `LineEnd` stops before its end. */
  lemma LineEndFindsNewline(s: string)
    ensures '\n' in s <==> LineEnd(s) < |s|
  {
    if '\n' in s {
      var j :| 0 <= j < |s| && s[j] == '\n';
    }
  }

  /** Any position holding the first newline is the one `LineEnd` finds. */
  lemma LineEndUnique(s: string, i: nat)
    requires i <= |s|
    requires i < |s| ==> s[i] == '\n'
    requires forall j :: 0 <= j < i ==> s[j] != '\n'
    ensures LineEnd(s) == i
  {
  }

  /** `s.split("\n")`: the pieces of `s` between newlines, always at least one. */
  function Split(s: string): (parts: seq<string>)
    ensures |parts| >= 1
    decreases |s|
  {
    var i := LineEnd(s);
    if i < |s| then [s[..i]] + Split(s[i + 1..]) else [s]
  }

  /** No piece of a split holds a newline. */
  lemma {:induction false} SplitPiecesAreLines(s: string)
    ensures forall k :: 0 <= k < |Split(s)| ==> '\n' !in Split(s)[k]
    decreases |s|
  {
    var i := LineEnd(s);
    if i < |s| {
      SplitPiecesAreLines(s[i + 1..]);
      assert '\n' !in s[..i];
    } else {
      assert '\n' !in s;
    }
  }

  /** The lines of `s` that a newline has already terminated. */
  function Complete(s: string): (lines: seq<string>)
  {
    Split(s)[..|Split(s)| - 1]
  }

  /** The text after the last newline of `s` (all of `s` when it has none). */
  function Pending(s: string): (rest: string)
  {
    Split(s)[|Split(s)| - 1]
  }

  lemma PendingIsLine(s: string)
    ensures '\n' !in Pending(s)
  {
    SplitPiecesAreLines(s);
  }

  /** A split is its complete lines followed by the pending text. */
  lemma SplitIsCompleteThenPending(s: string)
    ensures Split(s) == Complete(s) + [Pending(s)]
  {
  }

  /** Cutting at the first newline: its left side is the first complete
      line, and the rest of the lines come from its right side. */
  lemma CutFirstLine(s: string)
    requires LineEnd(s) < |s|
    ensures Complete(s) == [s[..LineEnd(s)]] + Complete(s[LineEnd(s) + 1..])
    ensures Pending(s) == Pending(s[LineEnd(s) + 1..])
  {
    var i := LineEnd(s);
    var tail := Split(s[i + 1..]);
    SplitCons(s);
    ConsInitLast(s[..i], tail);
    assert Complete(s) == ([s[..i]] + tail)[..|tail|];
    assert Pending(s) == ([s[..i]] + tail)[|tail|];
  }

  lemma SplitCons(s: string)
    requires LineEnd(s) < |s|
    ensures Split(s) == [s[..LineEnd(s)]] + Split(s[LineEnd(s) + 1..])
  {
  }

  lemma ConsInitLast<T>(x: T, ys: seq<T>)
    requires |ys| >= 1
    ensures ([x] + ys)[..|ys|] == [x] + ys[..|ys| - 1]
    ensures ([x] + ys)[|ys|] == ys[|ys| - 1]
  {
  }

  /** `"\n".join(parts)`. */
  function Join(parts: seq<string>): (s: string)
    requires |parts| >= 1
  {
    if |parts| == 1 then parts[0] else parts[0] + "\n" + Join(parts[1..])
  }

  /** `"".join(ss)`. */
  function Concat(ss: seq<string>): (s: string)
  {
    if |ss| == 0 then "" else ss[0] + Concat(ss[1..])
  }

  /** Dropping the last element of `xs + ys + [z]` gives `xs + ys`. */
  lemma InitLast(xs: seq<string>, ys: seq<string>, z: string)
    ensures var all := xs + (ys + [z]);
      all[..|all| - 1] == xs + ys && all[|all| - 1] == z
  {
    var all := xs + (ys + [z]);
    assert all == (xs + ys) + [z];
  }

  lemma AppendAssoc<T>(a: seq<T>, b: seq<T>, c: seq<T>)
    ensures a + (b + c) == (a + b) + c
  {
  }

  lemma {:induction false} ConcatAppend(a: seq<string>, b: seq<string>)
    ensures Concat(a + b) == Concat(a) + Concat(b)
  {
    if |a| == 0 {
      assert a + b == b;
    } else {
      assert (a + b)[1..] == a[1..] + b;
      ConcatAppend(a[1..], b);
    }
  }

  /** Splitting and re-joining on newlines gives the text back. */
  lemma {:induction false} JoinSplit(s: string)
    ensures Join(Split(s)) == s
    decreases |s|
  {
    var i := LineEnd(s);
    if i < |s| {
      var rest := s[i + 1..];
      JoinSplit(rest);
      assert Split(s) == [s[..i]] + Split(rest);
      assert Join(Split(s)) == s[..i] + "\n" + Join(Split(rest));
      CutAt(s, i);
    }
  }

  /** A string is its part before position `i`, the character there, and the rest. */
  lemma CutAt(s: string, i: nat)
    requires i < |s|
    ensures s == s[..i] + [s[i]] + s[i + 1..]
  {
  }

  /** A newline-free line followed by a newline splits off as the first piece. */
  lemma SplitAfterLine(p: string, rest: string)
    requires '\n' !in p
    ensures Split(p + "\n" + rest) == [p] + Split(rest)
  {
    var s := p + "\n" + rest;
    assert forall j :: 0 <= j < |p| ==> s[j] == p[j];
    LineEndUnique(s, |p|);
    assert s[..|p|] == p;
    assert s[|p| + 1..] == rest;
  }

  /** A newline-free text splits into itself alone. */
  lemma SplitLine(p: string)
    requires '\n' !in p
    ensures Split(p) == [p]
  {
    assert forall j :: 0 <= j < |p| ==> p[j] != '\n';
    LineEndUnique(p, |p|);
  }

  /** Joining newline-free pieces and splitting again gives the pieces back. */
  lemma {:induction false} SplitJoin(parts: seq<string>)
    requires |parts| >= 1
    requires forall k :: 0 <= k < |parts| ==> '\n' !in parts[k]
    ensures Split(Join(parts)) == parts
  {
    if |parts| > 1 {
      SplitAfterLine(parts[0], Join(parts[1..]));
      SplitJoin(parts[1..]);
    } else {
      SplitLine(parts[0]);
    }
  }

  /** Appending text to `a` only touches its last piece: the complete lines
      of `a` stay as they are. */
  lemma {:induction false} SplitAppend(a: string, b: string)
    ensures Split(a + b) == Complete(a) + Split(Pending(a) + b)
    decreases |a|
  {
    var i := LineEnd(a);
    if i < |a| {
      var rest := a[i + 1..];
      assert forall j :: 0 <= j <= i ==> (a + b)[j] == a[j];
      LineEndUnique(a + b, i);
      assert (a + b)[..i] == a[..i];
      assert (a + b)[i + 1..] == rest + b;
      assert Split(a + b) == [a[..i]] + Split(rest + b);
      SplitAppend(rest, b);
      CutFirstLine(a);
      AppendAssoc([a[..i]], Complete(rest), Split(Pending(rest) + b));
    } else {
      assert Split(a) == [a];
      assert Complete(a) == [];
      assert [] + Split(a + b) == Split(a + b);
    }
  }
}
