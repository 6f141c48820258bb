/**
  A model of `MessageFormatter`: substitution of `{}` anchors in a message
  pattern by arguments, left to right, with backslash escapes.

  Arguments are modelled as the strings `StringBuffer.append` would render.
  `null` patterns and argument arrays are `None`; the
  `StringIndexOutOfBoundsException` that `substring` can throw is the
  `IndexOutOfBounds` outcome.
*/
module MessageFormatter {
  import opened Wrappers

  const DelimStart: char := '{'
  const DelimStop: char := '}'
  const EscapeChar: char := '\\'

  /** What `arrayFormat` can produce: a string, `null`, or the exception
      raised by `substring(begin, end)` when `end < begin`. */
  datatype Outcome = Text(s: string) | Null | IndexOutOfBounds(begin: int, end: int)

  /** `String.indexOf(c, from)`: the first index at or after `from` holding `c`, or -1. */
  function IndexOf(s: string, c: char, from: nat): int
    requires from <= |s|
    decreases |s| - from
  {
    if from == |s| then -1
    else if s[from] == c then from
    else IndexOf(s, c, from + 1)
  }

  /** `IndexOf` is -1 or an index at or after `from` holding `c`. */
  lemma {:induction false} IndexOfRange(s: string, c: char, from: nat)
    requires from <= |s|
    ensures IndexOf(s, c, from) == -1 || from <= IndexOf(s, c, from) < |s|
    ensures IndexOf(s, c, from) != -1 ==> s[IndexOf(s, c, from)] == c
    decreases |s| - from
  {
    if from < |s| && s[from] != c {
      IndexOfRange(s, c, from + 1);
    }
  }

  /** `IndexOf` finds the first occurrence: no `c` lies between `from` and
      the index found (or the end, when none is found). */
  lemma {:induction false} IndexOfIsFirst(s: string, c: char, from: nat)
    requires from <= |s|
    ensures forall k :: from <= k < |s| && (IndexOf(s, c, from) == -1 || k < IndexOf(s, c, from)) ==> s[k] != c
    decreases |s| - from
  {
    if from < |s| && s[from] != c {
      IndexOfIsFirst(s, c, from + 1);
    }
  }

  /** `String.substring(begin, end)`: `None` where Java throws. */
  function Substring(s: string, begin: int, end: int): (r: Option<string>)
    ensures r.Some? <==> 0 <= begin <= end <= |s|
    ensures r.Some? ==> r.value == s[begin..end]
  {
    if 0 <= begin <= end <= |s| then Some(s[begin..end]) else None
  }

  /** A delimiter start is escaped when a backslash precedes it; never at index 0. */
  predicate IsEscapedDelimiter(p: string, k: nat)
    requires k < |p|
    ensures IsEscapedDelimiter(p, k) ==> k >= 1 && p[k - 1] == EscapeChar
    ensures k >= 1 && p[k - 1] == EscapeChar ==> IsEscapedDelimiter(p, k)
  {
    if k == 0 then false
    else p[k - 1] == EscapeChar
  }

  /** Looks only at the character two places before the delimiter start; the
      caller has already checked the one right before it. */
  predicate IsDoubleEscaped(p: string, k: nat)
    requires k < |p|
    ensures IsDoubleEscaped(p, k) ==> k >= 2 && p[k - 2] == EscapeChar
    ensures k >= 2 && p[k - 2] == EscapeChar ==> IsDoubleEscaped(p, k)
  {
    k >= 2 && p[k - 2] == EscapeChar
  }

  /**
    What the loop of `arrayFormat` returns when it is entered with cursor
    `i`, `L` arguments used and `sbuf` in the buffer: once every argument
    is used the rest of the pattern is appended.
  */
  function FormatFrom(p: string, args: seq<string>, i: nat, L: nat, sbuf: string): (r: Outcome)
    requires i <= |p| && L <= |args|
    ensures !r.Null?
    decreases |p| - i, 1
  {
    if L == |args| then Text(sbuf + p[i..])
    else
      IndexOfRange(p, DelimStart, i);
      FormatAt(p, args, i, L, sbuf, IndexOf(p, DelimStart, i))
  }

  /**
    One iteration of the loop, where `j` is the first `{` at or after the
    cursor (or -1), followed by the rest of the loop.
  */
  function FormatAt(p: string, args: seq<string>, i: nat, L: nat, sbuf: string, j: int): (r: Outcome)
    requires i <= |p| && L < |args| && (j == -1 || i <= j < |p|)
    ensures !r.Null?
    decreases |p| - i, 0
  {
    if j == -1 || j + 1 == |p| then Text(sbuf + p[i..])
    else if IsEscapedDelimiter(p, j) then
      if j - 1 < i then IndexOutOfBounds(i, j - 1)
      else if !IsDoubleEscaped(p, j) then FormatFrom(p, args, j + 1, L, sbuf + (p[i..j - 1] + [DelimStart]))
      else FormatFrom(p, args, j + 2, L + 1, sbuf + (p[i..j - 1] + args[L]))
    else if p[j + 1] != DelimStop then Text(sbuf + p[i..])
    else FormatFrom(p, args, j + 2, L + 1, sbuf + (p[i..j] + args[L]))
  }

  /** `arrayFormat` as a function of its two (nullable) inputs. */
  function ArrayFormatSpec(pattern: Option<string>, args: Option<seq<string>>): (r: Outcome)
    ensures r.Null? <==> pattern.None?
    ensures pattern.Some? && (args.None? || args.value == []) ==> r == Text(pattern.value)
  {
    if pattern.None? then Null
    else if args.None? then Text(pattern.value)
    else
      var p := pattern.value;
      assert "" + p[0..] == p;
      assert args.value == [] ==> FormatFrom(p, args.value, 0, 0, "") == Text(p);
      FormatFrom(p, args.value, 0, 0, "")
  }

  /** An iteration that ends the loop by copying the rest: no `{` after the
      cursor, a `{` that is last, or one not followed by `}`. */
  lemma StopKeepsOutput(p: string, args: seq<string>, i: nat, L: nat, sbuf: string, j: int)
    requires i <= |p| && L < |args| && j == IndexOf(p, DelimStart, i) && (j == -1 || i <= j < |p|)
    requires j == -1 || j + 1 == |p| || (!IsEscapedDelimiter(p, j) && p[j + 1] != DelimStop)
    ensures FormatFrom(p, args, i, L, sbuf) == Text(sbuf + p[i..])
    ensures i == 0 && sbuf == "" ==> FormatFrom(p, args, i, L, sbuf) == Text(p)
  {
    if i == 0 && sbuf == "" {
      assert sbuf + p[i..] == p;
    }
  }

  /** An escaped `{` right at the cursor: `substring(i, j - 1)` throws. */
  lemma BadEscapeFails(p: string, args: seq<string>, i: nat, L: nat, sbuf: string, j: nat)
    requires i <= j < |p| && L < |args| && j == IndexOf(p, DelimStart, i) && j + 1 < |p|
    requires IsEscapedDelimiter(p, j) && j - 1 < i
    ensures FormatFrom(p, args, i, L, sbuf) == IndexOutOfBounds(i, j - 1)
  {
  }

  /** An iteration at a single escape `\{`: the text before the backslash and a
      literal `{` are appended, and no argument is used. */
  lemma SingleEscapeStep(p: string, args: seq<string>, i: nat, L: nat, sbuf: string, j: nat, head: string)
    requires i < j && j + 1 < |p| && L < |args| && j == IndexOf(p, DelimStart, i)
    requires IsEscapedDelimiter(p, j) && !IsDoubleEscaped(p, j) && head == p[i..j - 1]
    ensures FormatFrom(p, args, i, L, sbuf) == FormatFrom(p, args, j + 1, L, sbuf + (head + [DelimStart]))
  {
  }

  /** An iteration at a double escape `\\{`: the text before the second
      backslash and the next argument are appended. */
  lemma DoubleEscapeStep(p: string, args: seq<string>, i: nat, L: nat, sbuf: string, j: nat, head: string)
    requires i < j && j + 1 < |p| && L < |args| && j == IndexOf(p, DelimStart, i)
    requires IsEscapedDelimiter(p, j) && IsDoubleEscaped(p, j) && head == p[i..j - 1]
    ensures FormatFrom(p, args, i, L, sbuf) == FormatFrom(p, args, j + 2, L + 1, sbuf + (head + args[L]))
  {
  }

  /** An iteration at an anchor `{}`: the text before it and the next argument are appended. */
  lemma AnchorStep(p: string, args: seq<string>, i: nat, L: nat, sbuf: string, j: nat)
    requires i <= j && j + 1 < |p| && L < |args| && j == IndexOf(p, DelimStart, i)
    requires !IsEscapedDelimiter(p, j) && p[j + 1] == DelimStop
    ensures FormatFrom(p, args, i, L, sbuf) == FormatFrom(p, args, j + 2, L + 1, sbuf + (p[i..j] + args[L]))
  {
  }

  /** `arrayFormat`: walks the pattern with cursor `i` and argument index `L`,
      appending to a buffer. */
  method ArrayFormat(pattern: Option<string>, args: Option<seq<string>>) returns (r: Outcome)
    ensures r == ArrayFormatSpec(pattern, args)
  {
    if pattern.None? {
      return Null;
    }
    var p := pattern.value;
    var i := 0;
    var len := |p|;
    if args.None? {
      return Text(p);
    }
    var argv := args.value;
    var sbuf := "";
    var L := 0;
    ghost var whole := FormatFrom(p, argv, i, L, sbuf);
    while L < |argv|
      invariant 0 <= i <= len && 0 <= L <= |argv|
      invariant i == 0 ==> sbuf == ""
      invariant FormatFrom(p, argv, i, L, sbuf) == whole
      decreases len - i
    {
      IndexOfRange(p, DelimStart, i);
      var j := IndexOf(p, DelimStart, i);
      if j == -1 || j + 1 == len {
        // no more anchors: the tail is copied
        StopKeepsOutput(p, argv, i, L, sbuf, j);
        if i == 0 {
          return Text(p);
        } else {
          sbuf := sbuf + p[i..];
          return Text(sbuf);
        }
      }
      var delimStop := p[j + 1];
      if IsEscapedDelimiter(p, j) {
        var head := Substring(p, i, j - 1);
        if head.None? {
          BadEscapeFails(p, argv, i, L, sbuf, j);
          return IndexOutOfBounds(i, j - 1);
        }
        if !IsDoubleEscaped(p, j) {
          // the Java code's L-- cancels the loop's L++: no argument is used
          SingleEscapeStep(p, argv, i, L, sbuf, j, head.value);
          sbuf := sbuf + (head.value + [DelimStart]);
          i := j + 1;
        } else {
          // one of the two backslashes is consumed
          DoubleEscapeStep(p, argv, i, L, sbuf, j, head.value);
          sbuf := sbuf + (head.value + argv[L]);
          i := j + 2;
          L := L + 1;
        }
      } else if delimStop != DelimStop {
        // a delimiter start without its stop ends the substitution
        StopKeepsOutput(p, argv, i, L, sbuf, j);
        sbuf := sbuf + p[i..];
        return Text(sbuf);
      } else {
        AnchorStep(p, argv, i, L, sbuf, j);
        sbuf := sbuf + (p[i..j] + argv[L]);
        i := j + 2;
        L := L + 1;
      }
    }
    sbuf := sbuf + p[i..];
    r := Text(sbuf);
  }

  /** `format(String, Object)`. */
  method FormatOne(pattern: Option<string>, arg: string) returns (r: Outcome)
    ensures r == ArrayFormatSpec(pattern, Some([arg]))
  {
    r := ArrayFormat(pattern, Some([arg]));
  }

  /** `format(String, Object, Object)`. */
  method FormatTwo(pattern: Option<string>, arg1: string, arg2: string) returns (r: Outcome)
    ensures r == ArrayFormatSpec(pattern, Some([arg1, arg2]))
  {
    r := ArrayFormat(pattern, Some([arg1, arg2]));
  }
}
