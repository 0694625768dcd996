/** The text handling the start scripts rely on: `strings.TrimSpace`, used to decode
    state and version files, and the `strings.Replace` call that marks a node as
    safe to bootstrap in `grastate.dat`. */
module Text {

  /** A file as a start finds it. */
  datatype FileView = Missing | Unreadable | Contents(text: string)

  // ---------------------------------------------------------------- trimming

  /** The code points of Unicode's White_Space property. */
  predicate IsSpace(c: char) {
    || '\t' <= c <= '\r' || c == ' ' || c == '\U{0085}' || c == '\U{00A0}' || c == '\U{1680}'
    || '\U{2000}' <= c <= '\U{200A}' || c == '\U{2028}' || c == '\U{2029}'
    || c == '\U{202F}' || c == '\U{205F}' || c == '\U{3000}'
  }

  /** They are, one by one, these twenty-five; six of them are ASCII. */
  lemma {:induction false} SpaceIsOneOf(c: char)
    ensures IsSpace(c) <==> c in [
      '\t', '\n', '\U{000B}', '\U{000C}', '\r', ' ', '\U{0085}', '\U{00A0}', '\U{1680}',
      '\U{2000}', '\U{2001}', '\U{2002}', '\U{2003}', '\U{2004}', '\U{2005}', '\U{2006}',
      '\U{2007}', '\U{2008}', '\U{2009}', '\U{200A}', '\U{2028}', '\U{2029}', '\U{202F}', '\U{205F}', '\U{3000}']
  {
    if '\t' <= c <= '\r' { assert c as int in [9, 10, 11, 12, 13]; }
    if '\U{2000}' <= c <= '\U{200A}' { assert c as int - 0x2000 in [0, 1, 2, 3, 4, 5, 6, 7, 8, 9, 10]; }
  }

  predicate AllSpace(s: string) {
    forall i :: 0 <= i < |s| ==> IsSpace(s[i])
  }

  predicate NoSpaceAtEnds(t: string) {
    t != [] ==> !IsSpace(t[0]) && !IsSpace(t[|t| - 1])
  }

  function TrimLeft(s: string): string {
    if s != [] && IsSpace(s[0]) then TrimLeft(s[1..]) else s
  }

  function TrimRight(s: string): string {
    if s != [] && IsSpace(s[|s| - 1]) then TrimRight(s[..|s| - 1]) else s
  }

  function Trim(s: string): string {
    TrimRight(TrimLeft(s))
  }

  /** `t` is what is left of `s` when the white space before position `i` and after
      `t` is dropped, and nothing more can be dropped. */
  ghost predicate StrippedAt(s: string, t: string, i: nat) {
    && i + |t| <= |s|
    && t == s[i..i + |t|]
    && (forall k :: 0 <= k < i || i + |t| <= k < |s| ==> IsSpace(s[k]))
    && NoSpaceAtEnds(t)
  }

  lemma {:induction false} TrimLeftStrips(s: string) returns (i: nat)
    ensures i <= |s| && TrimLeft(s) == s[i..]
    ensures forall k :: 0 <= k < i ==> IsSpace(s[k])
    ensures i < |s| ==> !IsSpace(s[i])
  {
    if s != [] && IsSpace(s[0]) {
      var tail := s[1..];
      var j := TrimLeftStrips(tail);
      i := j + 1;
      assert tail[j..] == s[i..];
      assert forall k :: 0 < k < |s| ==> s[k] == tail[k - 1];
    } else {
      i := 0;
    }
  }

  lemma {:induction false} TrimRightStrips(s: string) returns (j: nat)
    ensures j <= |s| && TrimRight(s) == s[..j]
    ensures forall k :: j <= k < |s| ==> IsSpace(s[k])
    ensures j > 0 ==> !IsSpace(s[j - 1])
  {
    if s != [] && IsSpace(s[|s| - 1]) {
      var init := s[..|s| - 1];
      j := TrimRightStrips(init);
      assert init[..j] == s[..j];
      assert forall k :: 0 <= k < |init| ==> s[k] == init[k];
    } else {
      j := |s|;
    }
  }

  lemma {:induction false} TrimStrips(s: string) returns (i: nat)
    ensures StrippedAt(s, Trim(s), i)
  {
    i := TrimLeftStrips(s);
    var left := TrimLeft(s);
    var j := TrimRightStrips(left);
    assert left[..j] == s[i..i + j];
    assert forall k :: i <= k < |s| ==> s[k] == left[k - i];
  }

  /** The stripped middle is unique. */
  lemma {:induction false} StrippedUnique(s: string, t: string, i: nat, t': string, i': nat)
    requires StrippedAt(s, t, i) && StrippedAt(s, t', i')
    ensures t == t'
  {
  }

  /** Any stripped middle of `s` is `Trim(s)`, so `StrippedAt` determines the result. */
  lemma {:induction false} TrimIsTheStrippedMiddle(s: string, t: string, i: nat)
    requires StrippedAt(s, t, i)
    ensures t == Trim(s)
  {
    var j := TrimStrips(s);
    StrippedUnique(s, t, i, Trim(s), j);
  }

  lemma {:induction false} TrimIdempotent(s: string)
    ensures Trim(Trim(s)) == Trim(s)
  {
    var i := TrimStrips(s);
    TrimIsTheStrippedMiddle(Trim(s), Trim(s), 0);
  }

  lemma {:induction false} TrimIgnoresPadding(before: string, s: string, after: string)
    requires AllSpace(before) && AllSpace(after)
    ensures Trim(before + s + after) == Trim(s)
  {
    var i := TrimStrips(s);
    var t, padded := Trim(s), before + s + after;
    var at := |before| + i;
    assert padded[at..at + |t|] == s[i..i + |t|];
    assert forall k :: |before| <= k < |before| + |s| ==> padded[k] == s[k - |before|];
    TrimIsTheStrippedMiddle(padded, t, at);
  }

  lemma {:induction false} TrimKeepsStripped(t: string)
    requires NoSpaceAtEnds(t)
    ensures Trim(t) == t
  {
  }

  /** `strings.TrimSpace` as the two scans it performs. */
  method TrimSpace(s: string) returns (t: string)
    ensures t == Trim(s)
    ensures exists i: nat :: StrippedAt(s, t, i)
  {
    var i, j := 0, |s|;
    while i < |s| && IsSpace(s[i])
      invariant 0 <= i <= |s|
      invariant forall k :: 0 <= k < i ==> IsSpace(s[k])
    {
      i := i + 1;
    }
    while j > i && IsSpace(s[j - 1])
      invariant i <= j <= |s|
      invariant forall k :: j <= k < |s| ==> IsSpace(s[k])
    {
      j := j - 1;
    }
    t := s[i..j];
    assert StrippedAt(s, t, i);
    TrimIsTheStrippedMiddle(s, t, i);
  }

  // ---------------------------------------------- the safe_to_bootstrap flag

  const UNSAFE := "safe_to_bootstrap: 0"
  const SAFE := "safe_to_bootstrap: 1"
  const FLAG_LENGTH := 20

  predicate OccursAt(s: string, pattern: string, i: int) {
    0 <= i && i + |pattern| <= |s| && s[i..i + |pattern|] == pattern
  }

  predicate Contains(s: string, pattern: string) {
    exists i :: 0 <= i <= |s| && OccursAt(s, pattern, i)
  }

  lemma {:induction false} ContainsExactly(s: string, pattern: string)
    ensures Contains(s, pattern) <==> exists i :: 0 <= i <= |s| && pattern <= s[i..]
  {
    if i :| 0 <= i <= |s| && pattern <= s[i..] {
      assert s[i..][..|pattern|] == s[i..i + |pattern|];
      assert OccursAt(s, pattern, i);
    }
    if i :| 0 <= i <= |s| && OccursAt(s, pattern, i) {
      assert s[i..][..|pattern|] == s[i..i + |pattern|];
      assert pattern <= s[i..];
    }
  }

  /** Position `k` holds the last character of an occurrence of `UNSAFE`. */
  predicate EndsUnsafeFlag(s: string, k: int) {
    OccursAt(s, UNSAFE, k - FLAG_LENGTH + 1)
  }

  /** What the rewrite should do, position by position. */
  function Rewritten(s: string): (r: string)
    ensures |r| == |s|
  {
    seq(|s|, k requires 0 <= k < |s| => if EndsUnsafeFlag(s, k) then '1' else s[k])
  }

  lemma {:induction false} FlagShape()
    ensures |UNSAFE| == |SAFE| == FLAG_LENGTH
    ensures forall d :: 0 <= d < FLAG_LENGTH - 1 ==>
      UNSAFE[d] == SAFE[d] && UNSAFE[d] != '0' && UNSAFE[d] != '1'
    ensures UNSAFE[FLAG_LENGTH - 1] == '0' && SAFE[FLAG_LENGTH - 1] == '1'
  {
  }

  lemma {:induction false} OccursAtChar(s: string, pattern: string, i: int, d: nat)
    requires OccursAt(s, pattern, i) && d < |pattern|
    ensures s[i + d] == pattern[d]
  {
  }

  /** Two occurrences of the flag never overlap: its `0` appears only at its end. */
  lemma {:induction false} FlagsDoNotOverlap(s: string, p: int, q: int)
    requires OccursAt(s, UNSAFE, p) && OccursAt(s, UNSAFE, q) && p < q
    ensures p + FLAG_LENGTH <= q
  {
    FlagShape();
    if q < p + FLAG_LENGTH {
      OccursAtChar(s, UNSAFE, p, FLAG_LENGTH - 1);
      OccursAtChar(s, UNSAFE, q, p + FLAG_LENGTH - 1 - q);
      assert false;
    }
  }

  /** Position by position, without reference to occurrences. */
  lemma {:induction false} RewrittenPointwise(s: string, k: nat)
    requires k < |s|
    ensures Rewritten(s)[k] == if k >= 19 && s[k - 19..k + 1] == "safe_to_bootstrap: 0" then '1' else s[k]
  {
  }

  /** `strings.Replace(s, UNSAFE, SAFE, -1)`: a greedy scan from left to right. */
  method ReplaceFlag(s: string) returns (r: string)
    ensures r == Rewritten(s) && |r| == |s|
    ensures forall k :: 0 <= k < |s| ==>
      r[k] == if k >= 19 && s[k - 19..k + 1] == "safe_to_bootstrap: 0" then '1' else s[k]
  {
    FlagShape();
    forall k: nat | k < |s|
      ensures Rewritten(s)[k] == if k >= 19 && s[k - 19..k + 1] == "safe_to_bootstrap: 0" then '1' else s[k]
    {
      RewrittenPointwise(s, k);
    }
    var i := 0;
    r := "";
    while i < |s|
      invariant 0 <= i <= |s|
      invariant r == Rewritten(s)[..i]
      invariant forall p :: OccursAt(s, UNSAFE, p) && p < i ==> p + FLAG_LENGTH <= i
    {
      if OccursAt(s, UNSAFE, i) {
        forall p | OccursAt(s, UNSAFE, p) && p < i + FLAG_LENGTH
          ensures p + FLAG_LENGTH <= i + FLAG_LENGTH
        {
          if p > i { FlagsDoNotOverlap(s, i, p); }
        }
        RewrittenOverFlag(s, i);
        r := r + SAFE;
        i := i + FLAG_LENGTH;
      } else {
        r := r + [s[i]];
        i := i + 1;
      }
    }
  }

  lemma {:induction false} RewrittenInFlag(s: string, i: int, d: nat)
    requires OccursAt(s, UNSAFE, i) && d < FLAG_LENGTH
    ensures |SAFE| == FLAG_LENGTH && i + FLAG_LENGTH <= |s| && Rewritten(s)[i + d] == SAFE[d]
  {
    FlagShape();
    OccursAtChar(s, UNSAFE, i, d);
    if d < FLAG_LENGTH - 1 && EndsUnsafeFlag(s, i + d) {
      OccursAtChar(s, UNSAFE, i + d - FLAG_LENGTH + 1, FLAG_LENGTH - 1);
      assert false;
    }
  }

  lemma {:induction false} RewrittenOverFlag(s: string, i: int)
    requires OccursAt(s, UNSAFE, i)
    ensures |SAFE| == FLAG_LENGTH && Rewritten(s)[i..i + FLAG_LENGTH] == SAFE
  {
    RewrittenInFlag(s, i, 0);
    forall d: nat | d < FLAG_LENGTH ensures Rewritten(s)[i..i + FLAG_LENGTH][d] == SAFE[d] {
      RewrittenInFlag(s, i, d);
    }
  }

  /** The rewrite leaves no unsafe flag behind, wherever it may stand. */
  lemma {:induction false} RewriteLeavesNoUnsafeFlag(s: string, before: string, after: string)
    ensures Rewritten(s) != before + "safe_to_bootstrap: 0" + after
  {
    if Rewritten(s) == before + UNSAFE + after {
      NoUnsafeFlagAt(s, |before|);
    }
  }

  lemma {:induction false} NoUnsafeFlagAt(s: string, i: int)
    ensures !OccursAt(Rewritten(s), UNSAFE, i)
  {
    FlagShape();
    var r := Rewritten(s);
    if OccursAt(r, UNSAFE, i) {
      OccursAtChar(r, UNSAFE, i, FLAG_LENGTH - 1);
      SameBeforeLastDigit(s, i, UNSAFE);
    }
  }

  /** A flag of either kind in the rewritten text was there before up to its digit. */
  lemma {:induction false} SameBeforeLastDigit(s: string, i: int, flag: string)
    requires flag in [UNSAFE, SAFE]
    requires OccursAt(Rewritten(s), flag, i)
    ensures |flag| == FLAG_LENGTH
    ensures OccursAt(s, flag[..FLAG_LENGTH - 1] + [s[i + FLAG_LENGTH - 1]], i)
  {
    FlagShape();
    var whole := flag[..FLAG_LENGTH - 1] + [s[i + FLAG_LENGTH - 1]];
    forall d | 0 <= d < FLAG_LENGTH ensures s[i + d] == whole[d] {
      OccursAtChar(Rewritten(s), flag, i, d);
    }
    assert s[i..i + FLAG_LENGTH] == whole;
  }

  /** Safe flags afterwards are exactly the safe and unsafe flags from before. */
  lemma {:induction false} RewriteMakesExactlyTheseSafe(s: string, i: nat)
    requires i + 20 <= |s|
    ensures Rewritten(s)[i..i + 20] == "safe_to_bootstrap: 1" <==>
      s[i..i + 20] == "safe_to_bootstrap: 1" || s[i..i + 20] == "safe_to_bootstrap: 0"
  {
    SafeFlagsExactly(s, i);
    assert OccursAt(s, UNSAFE, i) <==> s[i..i + 20] == "safe_to_bootstrap: 0";
  }

  /** A flag anywhere in the text is made safe and nothing around it changes. */
  lemma {:induction false} FlagIsMadeSafe(before: string, after: string)
    ensures var r := Rewritten(before + "safe_to_bootstrap: 0" + after);
      && r[|before|..|before| + 20] == "safe_to_bootstrap: 1"
      && r[..|before|] == Rewritten(before)
      && r[|before| + 20..] == Rewritten(after)
  {
    var s, n := before + UNSAFE + after, |before|;
    FlagShape();
    assert s[n..n + 20] == UNSAFE;
    assert OccursAt(s, UNSAFE, n);
    RewrittenOverFlag(s, n);
    forall k | 0 <= k < n ensures Rewritten(s)[k] == Rewritten(before)[k] {
      if k >= 19 { assert s[k - 19..k + 1] == before[k - 19..k + 1]; }
    }
    forall k: nat | k < |after| ensures Rewritten(s)[n + 20 + k] == Rewritten(after)[k] {
      RewrittenBehindFlag(before, after, k);
    }
  }

  /** No flag begins in an unsafe one and ends behind it. */
  lemma {:induction false} RewrittenBehindFlag(before: string, after: string, k: nat)
    requires k < |after|
    ensures Rewritten(before + UNSAFE + after)[|before| + 20 + k] == Rewritten(after)[k]
  {
    var s, n := before + UNSAFE + after, |before|;
    assert s[n + 20 + k] == after[k];
    if k >= 19 {
      assert s[n + 20 + k - 19..n + 20 + k + 1] == after[k - 19..k + 1];
    } else if OccursAt(s, UNSAFE, n + 1 + k) {
      assert s[n..n + 20] == UNSAFE;
      FlagsDoNotOverlap(s, n, n + 1 + k);
    }
  }

  lemma {:induction false} SafeFlagsExactly(s: string, i: int)
    ensures OccursAt(Rewritten(s), SAFE, i) <==> OccursAt(s, SAFE, i) || OccursAt(s, UNSAFE, i)
  {
    if OccursAt(s, UNSAFE, i) {
      RewrittenOverFlag(s, i);
    } else if OccursAt(s, SAFE, i) {
      SafeFlagIsKept(s, i);
    } else if OccursAt(Rewritten(s), SAFE, i) {
      SafeFlagComesFrom(s, i);
    }
  }

  lemma {:induction false} SafeFlagIsKept(s: string, i: int)
    requires OccursAt(s, SAFE, i)
    ensures OccursAt(Rewritten(s), SAFE, i)
  {
    FlagShape();
    forall d | 0 <= d < FLAG_LENGTH ensures Rewritten(s)[i + d] == SAFE[d] {
      OccursAtChar(s, SAFE, i, d);
      if EndsUnsafeFlag(s, i + d) {
        OccursAtChar(s, UNSAFE, i + d - FLAG_LENGTH + 1, FLAG_LENGTH - 1);
        assert false;
      }
    }
    assert Rewritten(s)[i..i + FLAG_LENGTH] == SAFE;
  }

  lemma {:induction false} SafeFlagComesFrom(s: string, i: int)
    requires OccursAt(Rewritten(s), SAFE, i)
    ensures OccursAt(s, SAFE, i) || OccursAt(s, UNSAFE, i)
  {
  }

  lemma {:induction false} RewriteIdempotent(s: string)
    ensures Rewritten(Rewritten(s)) == Rewritten(s)
  {
  }
}
