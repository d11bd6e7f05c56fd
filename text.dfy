/**
 * The string operations of Go's `strings` package that the configuration
 * engine uses: prefix tests, `strings.Replace(s, target, replacement, -1)` (the same as
 * `strings.ReplaceAll`) and `strings.ToLower`.
 * Strings are sequences of runes.
 */
module Text {

  predicate StartsWith(s: string, prefix: string)
  {
    |prefix| <= |s| && s[..|prefix|] == prefix
  }

  /**
   * `strings.Replace(s, target, replacement, -1)`: every non-overlapping occurrence of
   * `target`, scanned left to right, becomes `replacement`. An empty `target` matches at
   * the start of `s` and after every rune.
   */
  function ReplaceAll(s: string, target: string, replacement: string): string
  {
    if target == [] then InsertAtRuneBoundaries(s, replacement) else ReplaceOccurrences(s, target, replacement)
  }

  function ReplaceOccurrences(s: string, target: string, replacement: string): string
    requires target != []
    decreases |s|
  {
    if s == [] then []
    else if StartsWith(s, target) then replacement + ReplaceOccurrences(s[|target|..], target, replacement)
    else [s[0]] + ReplaceOccurrences(s[1..], target, replacement)
  }

  function InsertAtRuneBoundaries(s: string, replacement: string): (r: string)
    ensures |r| == |s| + (|s| + 1) * |replacement|
  {
    if s == [] then replacement else replacement + [s[0]] + InsertAtRuneBoundaries(s[1..], replacement)
  }

  /** Block `i` of the result, `k` being the length of the replacement, starts at `i * (k + 1)`. */
  lemma InsertAtRuneBoundariesBound(s: string, replacement: string, i: nat)
    requires i <= |s|
    ensures var k := |replacement|; i * (k + 1) + k <= |InsertAtRuneBoundaries(s, replacement)|
  {
    var k := |replacement|;
    var n := |s|;
    assert n * (k + 1) - i * (k + 1) == (n - i) * (k + 1);
    assert (n + 1) * k == n * (k + 1) - n + k;
  }

  /**
   * The replacement sits at the start of every block `i`, for each of the
   * `|s| + 1` boundaries.
   */
  lemma {:induction false} InsertAtRuneBoundariesBlock(s: string, replacement: string, i: nat)
    requires i <= |s|
    ensures var k := |replacement|; i * (k + 1) + k <= |InsertAtRuneBoundaries(s, replacement)|
    ensures var k := |replacement|;
      InsertAtRuneBoundaries(s, replacement)[i * (k + 1)..i * (k + 1) + k] == replacement
    decreases i
  {
    var k := |replacement|;
    var r := InsertAtRuneBoundaries(s, replacement);
    InsertAtRuneBoundariesBound(s, replacement, i);
    if i == 0 {
      assert r[..k] == replacement;
    } else {
      var pre := replacement + [s[0]];
      var r' := InsertAtRuneBoundaries(s[1..], replacement);
      assert r == pre + r';
      InsertAtRuneBoundariesBlock(s[1..], replacement, i - 1);
      var off := (i - 1) * (k + 1);
      BlockStep(i, k);
      InsertAtRuneBoundariesBound(s[1..], replacement, i - 1);
      assert i * (k + 1) == |pre| + off;
      SliceAfter(pre, r', off, off + k);
      assert r[|pre| + off..|pre| + off + k] == replacement;
    }
  }

  /** Rune `i` of `s` follows the replacement in block `i`. */
  lemma {:induction false} InsertAtRuneBoundariesRune(s: string, replacement: string, i: nat)
    requires i < |s|
    ensures var k := |replacement|; i * (k + 1) + k < |InsertAtRuneBoundaries(s, replacement)|
    ensures var k := |replacement|;
      InsertAtRuneBoundaries(s, replacement)[i * (k + 1) + k] == s[i]
    decreases i
  {
    var k := |replacement|;
    var r := InsertAtRuneBoundaries(s, replacement);
    InsertAtRuneBoundariesBound(s, replacement, i);
    var pre := replacement + [s[0]];
    var r' := InsertAtRuneBoundaries(s[1..], replacement);
    assert r == pre + r';
    if i > 0 {
      InsertAtRuneBoundariesRune(s[1..], replacement, i - 1);
      var off := (i - 1) * (k + 1);
      BlockStep(i, k);
      InsertAtRuneBoundariesBound(s[1..], replacement, i - 1);
      assert r[|pre| + off + k] == r'[off + k];
    }
  }

  lemma BlockStep(i: nat, k: nat)
    requires i > 0
    ensures i * (k + 1) == (i - 1) * (k + 1) + (k + 1)
  {
  }

  lemma SliceAfter(a: string, b: string, x: nat, y: nat)
    requires x <= y <= |b|
    ensures (a + b)[|a| + x..|a| + y] == b[x..y]
  {
  }

  /** Index of the first `c` in `s`, or |s| when there is none. */
  function RunBefore(s: string, c: char): (n: nat)
    ensures n <= |s|
    ensures forall i :: 0 <= i < n ==> s[i] != c
    ensures n < |s| ==> s[n] == c
  {
    if s == [] || s[0] == c then 0 else 1 + RunBefore(s[1..], c)
  }

  /** A text in which the first rune of `target` never appears is left as it is. */
  lemma {:induction false} ReplaceAllWithoutHead(s: string, target: string, replacement: string)
    requires target != [] && target[0] !in s
    ensures ReplaceAll(s, target, replacement) == s
  {
    if s != [] {
      assert !StartsWith(s, target);
      ReplaceAllWithoutHead(s[1..], target, replacement);
    }
  }

  /** A rune that cannot start the target is copied and replacement resumes after it. */
  lemma ReplaceAllStep(s: string, target: string, replacement: string)
    requires target != [] && s != [] && s[0] != target[0]
    ensures ReplaceAll(s, target, replacement) == [s[0]] + ReplaceAll(s[1..], target, replacement)
  {
    assert !StartsWith(s, target) by {
      if |target| <= |s| {
        assert s[..|target|][0] == s[0];
      }
    }
  }

  lemma ReplaceAllSkipsPrefix(a: string, b: string, target: string, replacement: string)
    requires target != [] && target[0] !in a
    ensures ReplaceAll(a + b, target, replacement) == a + ReplaceAll(b, target, replacement)
  {
    ReplaceAllSkipsRunes(a, b, target, replacement);
  }

  lemma {:induction false} ReplaceAllSkipsRunes(a: string, b: string, target: string, replacement: string)
    requires target != [] && forall i :: 0 <= i < |a| ==> a[i] != target[0]
    ensures ReplaceAll(a + b, target, replacement) == a + ReplaceAll(b, target, replacement)
  {
    if a == [] {
      assert a + b == b;
    } else {
      var s := a + b;
      assert s[0] == a[0] && s[1..] == a[1..] + b;
      ReplaceAllStep(s, target, replacement);
      ReplaceAllSkipsRunes(a[1..], b, target, replacement);
      HeadThenRest(a, ReplaceAll(b, target, replacement));
    }
  }

  lemma HeadThenRest(a: string, r: string)
    requires a != []
    ensures [a[0]] + (a[1..] + r) == a + r
  {
    assert a == [a[0]] + a[1..];
  }

  lemma ReplaceAllHeadOnly(s: string, target: string, replacement: string)
    requires target != [] && s != []
    requires forall i :: 1 <= i < |s| ==> s[i] != target[0]
    ensures ReplaceAll(s, target, replacement) == if StartsWith(s, target) then replacement + s[|target|..] else s
  {
    assert target[0] !in s[1..] by {
      forall k | 0 <= k < |s[1..]| ensures s[1..][k] != target[0] {
        assert s[1..][k] == s[k + 1];
      }
    }
    if StartsWith(s, target) {
      assert s[|target|..] == s[1..][|target| - 1..];
      ReplaceAllWithoutHead(s[|target|..], target, replacement);
    } else {
      ReplaceAllWithoutHead(s[1..], target, replacement);
    }
  }

  /** Neither part of `a + b` holds `c`, so neither does the whole, past its first rune. */
  lemma TailWithout(a: string, b: string, c: char)
    requires a != []
    requires forall i :: 1 <= i < |a| ==> a[i] != c
    requires forall i :: 0 <= i < |b| ==> b[i] != c
    ensures forall i :: 1 <= i < |a + b| ==> (a + b)[i] != c
  {
    forall i | 1 <= i < |a + b| ensures (a + b)[i] != c {
      if i < |a| {
        assert (a + b)[i] == a[i];
      } else {
        assert (a + b)[i] == b[i - |a|];
      }
    }
  }

  /**
   * A single occurrence of `target`, between texts that never start it, is
   * replaced and nothing else changes.
   */
  lemma ReplaceAround(before: string, target: string, after: string, replacement: string)
    requires target != []
    requires forall i :: 0 <= i < |before| ==> before[i] != target[0]
    requires forall i :: 1 <= i < |target| ==> target[i] != target[0]
    requires forall i :: 0 <= i < |after| ==> after[i] != target[0]
    ensures ReplaceAll(before + target + after, target, replacement) == before + replacement + after
  {
    var t := target + after;
    TailWithout(target, after, target[0]);
    ReplaceAllSkipsRunes(before, t, target, replacement);
    ReplaceAllHeadOnly(t, target, replacement);
    assert StartsWith(t, target) && t[|target|..] == after;
    assert before + target + after == before + t;
  }

  /**
   * Text that starts with `target`'s first rune only once, and differs from
   * `target` before either ends, is left as it is.
   */
  lemma ReplaceAroundOther(before: string, p: string, after: string, target: string, replacement: string, k: nat)
    requires target != [] && p != []
    requires k < |p| && k < |target| && p[k] != target[k]
    requires forall i :: 0 <= i < |before| ==> before[i] != target[0]
    requires forall i :: 1 <= i < |p| ==> p[i] != target[0]
    requires forall i :: 0 <= i < |after| ==> after[i] != target[0]
    ensures ReplaceAll(before + p + after, target, replacement) == before + p + after
  {
    var t := p + after;
    TailWithout(p, after, target[0]);
    ReplaceAllSkipsRunes(before, t, target, replacement);
    ReplaceAllHeadOnly(t, target, replacement);
    assert t[k] == p[k];
    assert !StartsWith(t, target);
    assert before + p + after == before + t;
  }

  predicate Without(s: string, c: char)
  {
    forall i :: 0 <= i < |s| ==> s[i] != c
  }

  /** An occurrence of `target` at the head is replaced and the scan resumes after it. */
  lemma ReplaceAtHead(target: string, rest: string, replacement: string)
    requires target != []
    ensures ReplaceAll(target + rest, target, replacement) == replacement + ReplaceAll(rest, target, replacement)
  {
    var t := target + rest;
    assert StartsWith(t, target) && t[|target|..] == rest;
  }

  /**
   * Text at the head that differs from `target` before either ends, and
   * holds `target`'s first rune at most at its start, is copied and the
   * scan resumes after it.
   */
  lemma ReplaceOtherAtHead(p: string, rest: string, target: string, replacement: string, k: nat)
    requires target != [] && p != []
    requires k < |p| && k < |target| && p[k] != target[k]
    requires forall i :: 1 <= i < |p| ==> p[i] != target[0]
    ensures ReplaceAll(p + rest, target, replacement) == p + ReplaceAll(rest, target, replacement)
  {
    var t := p + rest;
    assert t[k] == p[k];
    assert !StartsWith(t, target);
    assert t[1..] == p[1..] + rest;
    ReplaceAllSkipsRunes(p[1..], rest, target, replacement);
    HeadThenRest(p, ReplaceAll(rest, target, replacement));
  }

  /**
   * Replacing two occurrences of the same target, then that target again:
   * the first pass replaces both, and the second finds nothing left.
   */
  lemma ReplaceTwiceSame(before: string, p: string, mid: string, after: string, v: string, w: string)
    requires p != []
    requires Without(before, p[0]) && Without(mid, p[0]) && Without(after, p[0]) && Without(v, p[0])
    ensures ReplaceAll(ReplaceAll(before + (p + (mid + (p + after))), p, v), p, w)
      == before + (v + (mid + (v + after)))
  {
    var s1 := before + (v + (mid + (v + after)));
    assert ReplaceAll(before + (p + (mid + (p + after))), p, v) == s1 by {
      ReplaceAllSkipsRunes(before, p + (mid + (p + after)), p, v);
      ReplaceAtHead(p, mid + (p + after), v);
      ReplaceAllSkipsRunes(mid, p + after, p, v);
      ReplaceAtHead(p, after, v);
      ReplaceAllWithoutHead(after, p, v);
    }
    assert ReplaceAll(s1, p, w) == s1 by {
      ReplaceAllSkipsRunes(before, v + (mid + (v + after)), p, w);
      ReplaceAllSkipsRunes(v, mid + (v + after), p, w);
      ReplaceAllSkipsRunes(mid, v + after, p, w);
      ReplaceAllSkipsRunes(v, after, p, w);
      ReplaceAllWithoutHead(after, p, w);
    }
  }

  /**
   * Replacing `p1`, then a different `p2` with the same first rune: each
   * pass replaces only its own occurrence.
   */
  lemma ReplaceTwiceOther(before: string, p1: string, mid: string, p2: string, after: string, v1: string, v2: string, k: nat)
    requires p1 != [] && p2 != [] && p1[0] == p2[0]
    requires forall i :: 1 <= i < |p1| ==> p1[i] != p1[0]
    requires forall i :: 1 <= i < |p2| ==> p2[i] != p2[0]
    requires k < |p1| && k < |p2| && p1[k] != p2[k]
    requires Without(before, p1[0]) && Without(mid, p1[0]) && Without(after, p1[0]) && Without(v1, p1[0])
    ensures ReplaceAll(ReplaceAll(before + (p1 + (mid + (p2 + after))), p1, v1), p2, v2)
      == before + (v1 + (mid + (v2 + after)))
  {
    var s1 := before + (v1 + (mid + (p2 + after)));
    assert ReplaceAll(before + (p1 + (mid + (p2 + after))), p1, v1) == s1 by {
      ReplaceAllSkipsRunes(before, p1 + (mid + (p2 + after)), p1, v1);
      ReplaceAtHead(p1, mid + (p2 + after), v1);
      ReplaceAllSkipsRunes(mid, p2 + after, p1, v1);
      ReplaceOtherAtHead(p2, after, p1, v1, k);
      ReplaceAllWithoutHead(after, p1, v1);
    }
    assert ReplaceAll(s1, p2, v2) == before + (v1 + (mid + (v2 + after))) by {
      ReplaceAllSkipsRunes(before, v1 + (mid + (p2 + after)), p2, v2);
      ReplaceAllSkipsRunes(v1, mid + (p2 + after), p2, v2);
      ReplaceAllSkipsRunes(mid, p2 + after, p2, v2);
      ReplaceAtHead(p2, after, v2);
      ReplaceAllWithoutHead(after, p2, v2);
    }
  }

  /** Replacing a whole text by a value yields exactly that value. */
  lemma ReplaceAllWhole(s: string, replacement: string)
    requires s != []
    ensures ReplaceAll(s, s, replacement) == replacement
  {
    assert StartsWith(s, s) && s[|s|..] == [];
    assert ReplaceOccurrences(s, s, replacement) == replacement + ReplaceOccurrences([], s, replacement);
  }

  /** Replacing `target` by itself changes nothing. */
  lemma {:induction false} ReplaceAllSelf(s: string, target: string)
    ensures ReplaceAll(s, target, target) == s
  {
    if target == [] {
      InsertEmpty(s);
    } else if s != [] {
      if StartsWith(s, target) {
        ReplaceAllSelf(s[|target|..], target);
        assert s == target + s[|target|..];
      } else {
        ReplaceAllSelf(s[1..], target);
      }
    }
  }

  lemma {:induction false} InsertEmpty(s: string)
    ensures InsertAtRuneBoundaries(s, "") == s
  {
    if s != [] {
      InsertEmpty(s[1..]);
    }
  }

  predicate IsUpperAscii(c: char)
  {
    'A' <= c <= 'Z'
  }

  function LowerRune(c: char): char
  {
    if IsUpperAscii(c) then (c as int + 32) as char else c
  }

  /**
   * `strings.ToLower` restricted to ASCII: upper-case letters A-Z become
   * lower-case, every other rune is kept.
   */
  function ToLower(s: string): (r: string)
    ensures |r| == |s|
    ensures forall i :: 0 <= i < |r| ==> !IsUpperAscii(r[i])
    ensures forall i :: 0 <= i < |s| && !IsUpperAscii(s[i]) ==> r[i] == s[i]
    ensures forall i :: 0 <= i < |s| && IsUpperAscii(s[i]) ==> r[i] as int == s[i] as int + 32
  {
    seq(|s|, i requires 0 <= i < |s| => LowerRune(s[i]))
  }

}
