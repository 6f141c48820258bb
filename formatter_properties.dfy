/**
  Properties of `MessageFormatter.arrayFormat`, proved about the model of
  its loop (`FormatFrom`) and stated against an independent, character by
  character reading of the pattern (`Render`).
*/
module FormatterProperties {
  import opened Wrappers
  import opened MessageFormatter

  /** A substitution token starts at `k`: an anchor start `{`, an escaped
      one `\{`, or a double-escaped one `\\{`. */
  predicate TokenAt(p: string, k: nat)
    requires k < |p|
  {
    || p[k] == DelimStart
    || (k + 1 < |p| && p[k] == EscapeChar && p[k + 1] == DelimStart)
    || (k + 2 < |p| && p[k] == EscapeChar && p[k + 1] == EscapeChar && p[k + 2] == DelimStart)
  }

  /**
    The reference reading of a pattern from position `i`, with the
    arguments from `L` on still unused: every character is copied except at
    a token. `\\{` becomes one backslash and the next argument (and the
    character after the `{` is dropped), `\{` a literal `{`, `{}` the next
    argument; a `{` that is last or not followed by `}`, or running out of
    arguments, ends substitution and the rest is copied.
  */
  function RenderFrom(p: string, a: seq<string>, i: nat, L: nat): string
    requires i <= |p| && L <= |a|
    decreases |p| - i
  {
    if i == |p| || L == |a| then p[i..]
    else if i + 2 < |p| && p[i] == EscapeChar && p[i + 1] == EscapeChar && p[i + 2] == DelimStart then
      if i + 3 == |p| then p[i..] else [EscapeChar] + a[L] + RenderFrom(p, a, i + 4, L + 1)
    else if i + 1 < |p| && p[i] == EscapeChar && p[i + 1] == DelimStart then
      if i + 2 == |p| then p[i..] else [DelimStart] + RenderFrom(p, a, i + 2, L)
    else if p[i] == DelimStart then
      if i + 1 == |p| || p[i + 1] != DelimStop then p[i..] else a[L] + RenderFrom(p, a, i + 2, L + 1)
    else [p[i]] + RenderFrom(p, a, i + 1, L)
  }

  /** The reference reading of a whole pattern. */
  function Render(p: string, a: seq<string>): string
  {
    RenderFrom(p, a, 0, 0)
  }

  /** No double-escaped anchor skips a backslash: the only shape on which
      the look-behind of `arrayFormat` reaches a character it already consumed. */
  predicate NoSkippedEscape(p: string)
  {
    forall k :: 2 <= k < |p| - 1 ==> !SkippedEscapeAt(p, k)
  }

  /** A double-escaped anchor start at `k` whose skipped character is a backslash. */
  predicate SkippedEscapeAt(p: string, k: nat)
    requires 2 <= k < |p| - 1
  {
    p[k - 2] == EscapeChar && p[k - 1] == EscapeChar && p[k] == DelimStart && p[k + 1] == EscapeChar
  }

  lemma ConcatAssoc(x: string, y: string, z: string)
    ensures x + (y + z) == x + y + z
  {
  }

  /** Appending a piece and then the rest is appending both at once. */
  lemma AppendPiece(acc: string, x: string, y: string, rest: string)
    ensures acc + (x + y) + rest == acc + (x + (y + rest))
  {
  }

  /** Text before the first token is copied unchanged. */
  lemma {:induction false} RenderSkip(p: string, a: seq<string>, i: nat, L: nat, m: nat)
    requires i <= m <= |p| && L < |a|
    requires forall k :: i <= k < m ==> !TokenAt(p, k)
    ensures RenderFrom(p, a, i, L) == p[i..m] + RenderFrom(p, a, m, L)
    decreases m - i
  {
    if i < m {
      assert !TokenAt(p, i);
      assert RenderFrom(p, a, i, L) == [p[i]] + RenderFrom(p, a, i + 1, L);
      RenderSkip(p, a, i + 1, L, m);
      assert p[i..m] == [p[i]] + p[i + 1..m];
      ConcatAssoc([p[i]], p[i + 1..m], RenderFrom(p, a, m, L));
    }
  }

  /** Where the token found by the loop starts, and that nothing before it is a token. */
  lemma TokenStart(p: string, i: nat, j: nat) returns (t: nat)
    requires i <= j < |p| && p[j] == DelimStart
    requires forall k :: i <= k < j ==> p[k] != DelimStart
    requires i == 0 || p[i - 1] != EscapeChar
    ensures i <= t <= j
    ensures t == if IsEscapedDelimiter(p, j) then (if IsDoubleEscaped(p, j) then j - 2 else j - 1) else j
    ensures forall k :: i <= k < t ==> !TokenAt(p, k)
  {
    t := if IsEscapedDelimiter(p, j) then (if IsDoubleEscaped(p, j) then j - 2 else j - 1) else j;
  }

  /** What `FormatFromRender` and its cases assume of the cursor. */
  predicate RenderableFrom(p: string, a: seq<string>, i: nat, L: nat)
  {
    i <= |p| && L <= |a| && NoSkippedEscape(p) && (i == 0 || p[i - 1] != EscapeChar)
  }

  /**
    The loop of `arrayFormat` computes `RenderFrom`, from any cursor that
    does not follow a backslash, as long as no double-escaped anchor skips
    a backslash: it appends that reading to the buffer.
  */
  lemma {:induction false} FormatFromRender(p: string, a: seq<string>, i: nat, L: nat, acc: string)
    requires RenderableFrom(p, a, i, L)
    ensures FormatFrom(p, a, i, L, acc) == Text(acc + RenderFrom(p, a, i, L))
    decreases |p| - i, 2
  {
    if L < |a| {
      IndexOfRange(p, DelimStart, i);
      var j := IndexOf(p, DelimStart, i);
      if j == -1 {
        NoTokenRender(p, a, i, L, acc);
      } else {
        TokenRender(p, a, i, L, acc, j);
      }
    }
  }

  /** With no `{` from the cursor on, no token starts there and the reading copies the rest. */
  lemma RenderWithoutBrace(p: string, a: seq<string>, i: nat, L: nat)
    requires i <= |p| && L < |a|
    requires forall k :: i <= k < |p| ==> p[k] != DelimStart
    ensures RenderFrom(p, a, i, L) == p[i..]
  {
    assert forall k :: i <= k < |p| ==> !TokenAt(p, k);
    RenderSkip(p, a, i, L, |p|);
    assert p[i..|p|] + RenderFrom(p, a, |p|, L) == p[i..];
  }

  /** The case of `FormatFromRender` where no `{` follows the cursor: both copy the rest. */
  lemma NoTokenRender(p: string, a: seq<string>, i: nat, L: nat, acc: string)
    requires RenderableFrom(p, a, i, L) && L < |a| && IndexOf(p, DelimStart, i) == -1
    ensures FormatFrom(p, a, i, L, acc) == Text(acc + RenderFrom(p, a, i, L))
  {
    IndexOfIsFirst(p, DelimStart, i);
    StopKeepsOutput(p, a, i, L, acc, -1);
    RenderWithoutBrace(p, a, i, L);
  }

  /** The case of `FormatFromRender` where the loop finds a `{` at `j`. */
  lemma {:induction false} TokenRender(p: string, a: seq<string>, i: nat, L: nat, acc: string, j: nat)
    requires RenderableFrom(p, a, i, L) && L < |a| && i <= j < |p|
    requires j == IndexOf(p, DelimStart, i)
    ensures FormatFrom(p, a, i, L, acc) == Text(acc + RenderFrom(p, a, i, L))
    decreases |p| - i, 1
  {
    IndexOfRange(p, DelimStart, i);
    IndexOfIsFirst(p, DelimStart, i);
    var t := TokenStart(p, i, j);
    if j + 1 == |p| || (!IsEscapedDelimiter(p, j) && p[j + 1] != DelimStop) {
      StopKeepsOutput(p, a, i, L, acc, j);
      StopRender(p, a, i, L, j, t);
    } else if IsEscapedDelimiter(p, j) && !IsDoubleEscaped(p, j) {
      SingleEscapeStep(p, a, i, L, acc, j, p[i..j - 1]);
      SingleEscapeRender(p, a, i, L, j, acc);
    } else if IsEscapedDelimiter(p, j) {
      DoubleEscapeStep(p, a, i, L, acc, j, p[i..j - 1]);
      assert !SkippedEscapeAt(p, j);
      DoubleEscapeRender(p, a, i, L, j, acc);
    } else {
      AnchorStep(p, a, i, L, acc, j);
      AnchorRender(p, a, i, L, j, acc);
    }
  }

  /** The case of `FormatFromRender` where the loop stops at a `{`: the reading copies the rest. */
  lemma StopRender(p: string, a: seq<string>, i: nat, L: nat, j: nat, t: nat)
    requires i <= t <= j < |p| && L < |a| && p[j] == DelimStart
    requires j + 1 == |p| || (!IsEscapedDelimiter(p, j) && p[j + 1] != DelimStop)
    requires t == if IsEscapedDelimiter(p, j) then (if IsDoubleEscaped(p, j) then j - 2 else j - 1) else j
    requires forall k :: i <= k < t ==> !TokenAt(p, k)
    ensures RenderFrom(p, a, i, L) == p[i..]
  {
    RenderSkip(p, a, i, L, t);
    assert RenderFrom(p, a, t, L) == p[t..];
    assert p[i..] == p[i..t] + p[t..];
  }

  /** `RenderFrom` at a single escape `\{` after plain text. */
  lemma RenderSingleEscape(p: string, a: seq<string>, i: nat, L: nat, j: nat)
    requires L < |a| && i < j && j + 1 < |p|
    requires p[j - 1] == EscapeChar && p[j] == DelimStart && (j < 2 || p[j - 2] != EscapeChar)
    requires forall k :: i <= k < j - 1 ==> !TokenAt(p, k)
    ensures RenderFrom(p, a, i, L) == p[i..j - 1] + ([DelimStart] + RenderFrom(p, a, j + 1, L))
  {
    RenderSkip(p, a, i, L, j - 1);
    assert RenderFrom(p, a, j - 1, L) == [DelimStart] + RenderFrom(p, a, j + 1, L);
  }

  /** The case of `FormatFromRender` where the loop meets `\{`. */
  lemma {:induction false} SingleEscapeRender(p: string, a: seq<string>, i: nat, L: nat, j: nat, acc: string)
    requires RenderableFrom(p, a, i, L) && L < |a| && i < j && j + 1 < |p|
    requires p[j - 1] == EscapeChar && p[j] == DelimStart && (j < 2 || p[j - 2] != EscapeChar)
    requires forall k :: i <= k < j - 1 ==> !TokenAt(p, k)
    ensures FormatFrom(p, a, j + 1, L, acc + (p[i..j - 1] + [DelimStart])) == Text(acc + RenderFrom(p, a, i, L))
    decreases |p| - i, 0
  {
    RenderSingleEscape(p, a, i, L, j);
    FormatFromRender(p, a, j + 1, L, acc + (p[i..j - 1] + [DelimStart]));
    AppendPiece(acc, p[i..j - 1], [DelimStart], RenderFrom(p, a, j + 1, L));
  }

  /** `RenderFrom` right at a double escape `\\{` that is not last. */
  lemma RenderAtDoubleEscape(p: string, a: seq<string>, k: nat, L: nat)
    requires L < |a| && k + 3 < |p|
    requires p[k] == EscapeChar && p[k + 1] == EscapeChar && p[k + 2] == DelimStart
    ensures RenderFrom(p, a, k, L) == [EscapeChar] + (a[L] + RenderFrom(p, a, k + 4, L + 1))
  {
    ConcatAssoc([EscapeChar], a[L], RenderFrom(p, a, k + 4, L + 1));
  }

  /** `RenderFrom` at a double escape `\\{` after plain text. */
  lemma RenderDoubleEscape(p: string, a: seq<string>, i: nat, L: nat, j: nat)
    requires L < |a| && i + 2 <= j && j + 1 < |p|
    requires p[j - 2] == EscapeChar && p[j - 1] == EscapeChar && p[j] == DelimStart
    requires forall k :: i <= k < j - 2 ==> !TokenAt(p, k)
    ensures RenderFrom(p, a, i, L) == p[i..j - 1] + (a[L] + RenderFrom(p, a, j + 2, L + 1))
  {
    RenderSkip(p, a, i, L, j - 2);
    RenderAtDoubleEscape(p, a, j - 2, L);
    assert p[i..j - 1] == p[i..j - 2] + [EscapeChar];
    ConcatAssoc(p[i..j - 2], [EscapeChar], a[L] + RenderFrom(p, a, j + 2, L + 1));
  }

  /** The case of `FormatFromRender` where the loop meets `\\{`. */
  lemma {:induction false} DoubleEscapeRender(p: string, a: seq<string>, i: nat, L: nat, j: nat, acc: string)
    requires RenderableFrom(p, a, i, L) && L < |a| && i + 2 <= j && j + 1 < |p|
    requires p[j - 2] == EscapeChar && p[j - 1] == EscapeChar && p[j] == DelimStart && p[j + 1] != EscapeChar
    requires forall k :: i <= k < j - 2 ==> !TokenAt(p, k)
    ensures FormatFrom(p, a, j + 2, L + 1, acc + (p[i..j - 1] + a[L])) == Text(acc + RenderFrom(p, a, i, L))
    decreases |p| - i, 0
  {
    RenderDoubleEscape(p, a, i, L, j);
    FormatFromRender(p, a, j + 2, L + 1, acc + (p[i..j - 1] + a[L]));
    AppendPiece(acc, p[i..j - 1], a[L], RenderFrom(p, a, j + 2, L + 1));
  }

  /** `RenderFrom` at an anchor `{}` after plain text. */
  lemma RenderAnchor(p: string, a: seq<string>, i: nat, L: nat, j: nat)
    requires L < |a| && i <= j && j + 1 < |p|
    requires p[j] == DelimStart && p[j + 1] == DelimStop && (j == 0 || p[j - 1] != EscapeChar)
    requires forall k :: i <= k < j ==> !TokenAt(p, k)
    ensures RenderFrom(p, a, i, L) == p[i..j] + (a[L] + RenderFrom(p, a, j + 2, L + 1))
  {
    RenderSkip(p, a, i, L, j);
    assert RenderFrom(p, a, j, L) == a[L] + RenderFrom(p, a, j + 2, L + 1);
  }

  /** The case of `FormatFromRender` where the loop meets `{}`. */
  lemma {:induction false} AnchorRender(p: string, a: seq<string>, i: nat, L: nat, j: nat, acc: string)
    requires RenderableFrom(p, a, i, L) && L < |a| && i <= j && j + 1 < |p|
    requires p[j] == DelimStart && p[j + 1] == DelimStop && (j == 0 || p[j - 1] != EscapeChar)
    requires forall k :: i <= k < j ==> !TokenAt(p, k)
    ensures FormatFrom(p, a, j + 2, L + 1, acc + (p[i..j] + a[L])) == Text(acc + RenderFrom(p, a, i, L))
    decreases |p| - i, 0
  {
    RenderAnchor(p, a, i, L, j);
    FormatFromRender(p, a, j + 2, L + 1, acc + (p[i..j] + a[L]));
    AppendPiece(acc, p[i..j], a[L], RenderFrom(p, a, j + 2, L + 1));
  }

  /** `arrayFormat` agrees with `Render` on every pattern without a skipped
      backslash; on those it never fails. */
  lemma ArrayFormatIsRender(p: string, a: seq<string>)
    requires NoSkippedEscape(p)
    ensures ArrayFormatSpec(Some(p), Some(a)) == Text(Render(p, a))
  {
    FormatFromRender(p, a, 0, 0, "");
    assert "" + Render(p, a) == Render(p, a);
  }

  /** A pattern without any `{` is returned as it is, whatever the arguments. */
  lemma NoAnchorUnchanged(p: string, a: seq<string>)
    requires forall k :: 0 <= k < |p| ==> p[k] != DelimStart
    ensures ArrayFormatSpec(Some(p), Some(a)) == Text(p)
  {
    if |a| > 0 {
      IndexOfRange(p, DelimStart, 0);
      StopKeepsOutput(p, a, 0, 0, "", -1);
    }
  }

  /**
    Where the loop can fail once entered at cursor `i`: `substring(b, b - 1)`
    at a `{` preceded by a backslash, either right at the cursor or right
    after a double-escaped anchor whose skipped character is that backslash.
  */
  ghost predicate FailsOnlyAtSkippedEscape(p: string, i: nat, r: Outcome)
  {
    r.IndexOutOfBounds? ==>
      && r.end == r.begin - 1 && i <= r.begin < |p| && 1 <= r.begin
      && p[r.begin - 1] == EscapeChar && p[r.begin] == DelimStart
      && (r.begin == i || (i + 3 <= r.begin && 4 <= r.begin && SkippedEscapeAt(p, r.begin - 2)))
  }

  /** The loop, entered anywhere, fails only at a skipped escape. */
  lemma {:induction false} FailureFrom(p: string, a: seq<string>, i: nat, L: nat, acc: string)
    requires i <= |p| && L <= |a|
    ensures FailsOnlyAtSkippedEscape(p, i, FormatFrom(p, a, i, L, acc))
    decreases |p| - i, 1
  {
    if L < |a| {
      IndexOfRange(p, DelimStart, i);
      var j := IndexOf(p, DelimStart, i);
      if j == -1 || j + 1 == |p| || (!IsEscapedDelimiter(p, j) && p[j + 1] != DelimStop) {
        StopKeepsOutput(p, a, i, L, acc, j);
      } else if IsEscapedDelimiter(p, j) && j - 1 < i {
        BadEscapeFails(p, a, i, L, acc, j);
      } else if IsEscapedDelimiter(p, j) && !IsDoubleEscaped(p, j) {
        SingleEscapeStep(p, a, i, L, acc, j, p[i..j - 1]);
        SingleEscapeFailure(p, a, i, L, acc, j);
      } else if IsEscapedDelimiter(p, j) {
        DoubleEscapeStep(p, a, i, L, acc, j, p[i..j - 1]);
        DoubleEscapeFailure(p, a, i, L, acc, j);
      } else {
        AnchorStep(p, a, i, L, acc, j);
        AnchorFailure(p, a, i, L, acc, j);
      }
    }
  }

  /** After `\{` the cursor follows `{`, so a failure there lies further on. */
  lemma {:induction false} SingleEscapeFailure(p: string, a: seq<string>, i: nat, L: nat, acc: string, j: nat)
    requires i < j && j + 1 < |p| && L < |a| && p[j] == DelimStart
    ensures FailsOnlyAtSkippedEscape(p, i, FormatFrom(p, a, j + 1, L, acc + (p[i..j - 1] + [DelimStart])))
    decreases |p| - i, 0
  {
    FailureFrom(p, a, j + 1, L, acc + (p[i..j - 1] + [DelimStart]));
  }

  /** After `\\{` the cursor follows the skipped character: a failure right
      there is the skipped-escape shape. */
  lemma {:induction false} DoubleEscapeFailure(p: string, a: seq<string>, i: nat, L: nat, acc: string, j: nat)
    requires i < j && j + 1 < |p| && L < |a| && p[j] == DelimStart
    requires IsEscapedDelimiter(p, j) && IsDoubleEscaped(p, j)
    ensures FailsOnlyAtSkippedEscape(p, i, FormatFrom(p, a, j + 2, L + 1, acc + (p[i..j - 1] + a[L])))
    decreases |p| - i, 0
  {
    FailureFrom(p, a, j + 2, L + 1, acc + (p[i..j - 1] + a[L]));
  }

  /** After `{}` the cursor follows `}`, so a failure there lies further on. */
  lemma {:induction false} AnchorFailure(p: string, a: seq<string>, i: nat, L: nat, acc: string, j: nat)
    requires i <= j && j + 1 < |p| && L < |a| && p[j + 1] == DelimStop
    ensures FailsOnlyAtSkippedEscape(p, i, FormatFrom(p, a, j + 2, L + 1, acc + (p[i..j] + a[L])))
    decreases |p| - i, 0
  {
    FailureFrom(p, a, j + 2, L + 1, acc + (p[i..j] + a[L]));
  }

  /**
    `arrayFormat` throws only at `\\{\{`: a double-escaped anchor whose
    skipped character is a backslash that escapes the next `{`; the
    exception is `substring(b, b - 1)` at that second `{`.
  */
  lemma FailureShape(p: string, a: seq<string>)
    ensures var r := ArrayFormatSpec(Some(p), Some(a));
      r.IndexOutOfBounds? ==>
        && r.end == r.begin - 1 && 4 <= r.begin < |p|
        && SkippedEscapeAt(p, r.begin - 2) && p[r.begin] == DelimStart
  {
    FailureFrom(p, a, 0, 0, "");
  }
}
