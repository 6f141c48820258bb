/**
  Patterns made of plain text and `{}` anchors only: `arrayFormat` fills
  the anchors with the arguments in order and leaves the anchors beyond the
  last argument in place.
*/
module FormatterAnchors {
  import opened Wrappers
  import opened MessageFormatter
  import opened FormatterProperties

  /** Text with neither a delimiter start nor a backslash. */
  predicate Plain(s: string)
  {
    forall k :: 0 <= k < |s| ==> s[k] != DelimStart && s[k] != EscapeChar
  }

  /** The segments joined by `{}` anchors. */
  function Anchored(segs: seq<string>): string
    decreases |segs|
  {
    if |segs| <= 1 then (if segs == [] then "" else segs[0])
    else segs[0] + ([DelimStart, DelimStop] + Anchored(segs[1..]))
  }

  /** The segments with the anchors between them filled by the arguments
      from `L` on; the anchors left once the arguments run out are kept. */
  function Filled(segs: seq<string>, a: seq<string>, L: nat): string
    requires L <= |a|
    decreases |segs|
  {
    if |segs| <= 1 || L == |a| then Anchored(segs)
    else segs[0] + (a[L] + Filled(segs[1..], a, L + 1))
  }

  /** `RenderFrom` reads only what lies at and after the cursor. */
  lemma {:induction false} RenderShift(p: string, a: seq<string>, i: nat, m: nat, L: nat)
    requires i + m <= |p| && L <= |a|
    ensures RenderFrom(p, a, i + m, L) == RenderFrom(p[i..], a, m, L)
    decreases |p| - i - m
  {
    var q := p[i..];
    assert p[i + m..] == q[m..];
    if i + m < |p| && L < |a| {
      assert p[i + m] == q[m];
      if i + m + 4 <= |p| {
        RenderShift(p, a, i, m + 4, L + 1);
      }
      if i + m + 2 <= |p| {
        assert p[i + m + 1] == q[m + 1];
        RenderShift(p, a, i, m + 2, L + 1);
        RenderShift(p, a, i, m + 2, L);
      }
      if i + m + 3 <= |p| {
        assert p[i + m + 2] == q[m + 2];
      }
      RenderShift(p, a, i, m + 1, L);
    }
  }

  /** Joining plain segments by anchors puts no backslash in the pattern. */
  lemma {:induction false} AnchoredHasNoEscape(segs: seq<string>)
    requires forall n :: 0 <= n < |segs| ==> Plain(segs[n])
    ensures forall k :: 0 <= k < |Anchored(segs)| ==> Anchored(segs)[k] != EscapeChar
    decreases |segs|
  {
    if |segs| > 1 {
      assert forall n :: 0 <= n < |segs[1..]| ==> Plain(segs[1..][n]) by {
        forall n | 0 <= n < |segs[1..]| ensures Plain(segs[1..][n]) {
          assert segs[1..][n] == segs[n + 1];
        }
      }
      AnchoredHasNoEscape(segs[1..]);
    }
  }

  /** The reference reading of plain segments joined by anchors fills the
      anchors in order. */
  lemma {:induction false} RenderAnchored(segs: seq<string>, a: seq<string>, L: nat)
    requires forall n :: 0 <= n < |segs| ==> Plain(segs[n])
    requires L <= |a|
    ensures RenderFrom(Anchored(segs), a, 0, L) == Filled(segs, a, L)
    decreases |segs|
  {
    var p := Anchored(segs);
    if L == |a| {
      assert p[0..] == p;
    } else if |segs| == 1 {
      var s := segs[0];
      assert forall k :: 0 <= k < |s| ==> !TokenAt(p, k);
      RenderSkip(p, a, 0, L, |s|);
      assert p[0..|s|] + RenderFrom(p, a, |s|, L) == s;
    } else if |segs| > 1 {
      var s, rest := segs[0], Anchored(segs[1..]);
      assert p == s + ([DelimStart, DelimStop] + rest);
      assert forall k :: 0 <= k < |s| ==> !TokenAt(p, k);
      RenderSkip(p, a, 0, L, |s|);
      assert p[0..|s|] == s;
      assert RenderFrom(p, a, |s|, L) == a[L] + RenderFrom(p, a, |s| + 2, L + 1);
      RenderShift(p, a, |s| + 2, 0, L + 1);
      assert p[|s| + 2..] == rest;
      assert forall n :: 0 <= n < |segs[1..]| ==> Plain(segs[1..][n]) by {
        forall n | 0 <= n < |segs[1..]| ensures Plain(segs[1..][n]) {
          assert segs[1..][n] == segs[n + 1];
        }
      }
      RenderAnchored(segs[1..], a, L + 1);
    }
  }

  /**
    Each `{}` of a pattern made of plain text and anchors is replaced by the
    next argument, in order; anchors beyond the last argument stay in the
    output as they are, and arguments beyond the last anchor are ignored.
  */
  lemma AnchorsFilledInOrder(segs: seq<string>, a: seq<string>)
    requires forall n :: 0 <= n < |segs| ==> Plain(segs[n])
    ensures ArrayFormatSpec(Some(Anchored(segs)), Some(a)) == Text(Filled(segs, a, 0))
  {
    AnchoredHasNoEscape(segs);
    ArrayFormatIsRender(Anchored(segs), a);
    RenderAnchored(segs, a, 0);
  }
}
