/**
 * The few JavaScript string operations the query transform relies on:
 * `toLowerCase` (restricted to ASCII letters), `includes`, and the
 * relational `>` on strings (comparison of code units, a proper prefix
 * being the smaller).
 */
module Text {

  /** Case mapping of one character: ASCII upper-case letters become lower-case. */
  function LowerChar(c: char): char {
    if 'A' <= c <= 'Z' then (c as int + 32) as char else c
  }

  predicate IsAsciiUpper(c: char) {
    'A' <= c <= 'Z'
  }

  /** `s.toLowerCase()` on the ASCII range. */
  function ToLower(s: string): (r: string)
    ensures |r| == |s|
    ensures forall i :: 0 <= i < |s| ==> r[i] == LowerChar(s[i])
    ensures forall i :: 0 <= i < |r| ==> !IsAsciiUpper(r[i])
  {
    if s == [] then [] else [LowerChar(s[0])] + ToLower(s[1..])
  }

  /** `t` occurs in `s` starting at index `i`. */
  ghost predicate OccursAt(s: string, t: string, i: int) {
    0 <= i && i + |t| <= |s| && s[i..i + |t|] == t
  }

  /** `s.includes(t)`: some contiguous run of `s` equals `t`. */
  function Includes(s: string, t: string): (b: bool)
    ensures b ==> |t| <= |s|
    decreases |s|
  {
    if |t| > |s| then false
    else if s[..|t|] == t then true
    else Includes(s[1..], t)
  }

  lemma {:induction false} IncludesIsOccurrence(s: string, t: string)
    ensures Includes(s, t) <==> exists i :: OccursAt(s, t, i)
    decreases |s|
  {
    if |t| > |s| {
      assert forall i :: !OccursAt(s, t, i);
    } else if s[..|t|] == t {
      assert OccursAt(s, t, 0);
    } else {
      IncludesIsOccurrence(s[1..], t);
      forall i | OccursAt(s[1..], t, i) ensures OccursAt(s, t, i + 1) {
        assert s[1..][i..i + |t|] == s[i + 1..i + 1 + |t|];
      }
      forall i | OccursAt(s, t, i) ensures i >= 1 && OccursAt(s[1..], t, i - 1) {
        assert s[1..][i - 1..i - 1 + |t|] == s[i..i + |t|];
      }
    }
  }

  /** The empty string occurs in every string. */
  lemma IncludesEmpty(s: string)
    ensures Includes(s, "")
  {
    assert s[..0] == "";
  }

  /** JavaScript's `a > b` on strings. */
  function LexGreater(a: string, b: string): (g: bool)
    ensures g ==> a != b
    decreases |a|
  {
    if |a| == 0 then false
    else if |b| == 0 then true
    else if a[0] != b[0] then a[0] > b[0]
    else LexGreater(a[1..], b[1..])
  }

  /** `a` and `b` agree before index `k` and `a` has the larger code unit at `k`. */
  ghost predicate GreaterAt(a: string, b: string, k: int) {
    0 <= k < |a| && k < |b| && a[..k] == b[..k] && a[k] > b[k]
  }

  /**
   * The recursive comparison agrees with the textbook definition: `b` is a
   * proper prefix of `a`, or the first position where they differ holds
   * the larger code unit in `a`.
   */
  lemma {:induction false} LexGreaterMeaning(a: string, b: string)
    ensures LexGreater(a, b) <==> (|b| < |a| && a[..|b|] == b) || exists k :: GreaterAt(a, b, k)
    decreases |a|
  {
    if |a| == 0 {
      assert forall k :: !GreaterAt(a, b, k);
    } else if |b| == 0 {
      assert a[..0] == b;
    } else if a[0] != b[0] {
      assert a[..0] == b[..0];
      if a[0] > b[0] {
        assert GreaterAt(a, b, 0);
      } else {
        forall k | 0 < k < |a| && k < |b| ensures a[..k] != b[..k] {
          assert a[..k][0] != b[..k][0];
        }
        assert |b| < |a| ==> a[..|b|][0] != b[0];
      }
    } else {
      LexGreaterMeaning(a[1..], b[1..]);
      forall k | GreaterAt(a[1..], b[1..], k) ensures GreaterAt(a, b, k + 1) {
        assert a[..k + 1] == [a[0]] + a[1..][..k];
        assert b[..k + 1] == [b[0]] + b[1..][..k];
      }
      forall k | GreaterAt(a, b, k) ensures k >= 1 && GreaterAt(a[1..], b[1..], k - 1) {
        if k == 0 {
          assert false;
        }
        assert a[..k][0] == b[..k][0];
        assert a[1..][..k - 1] == a[..k][1..];
        assert b[1..][..k - 1] == b[..k][1..];
      }
      if |b| < |a| && a[..|b|] == b {
        assert a[1..][..|b| - 1] == a[..|b|][1..];
      }
      if |b| - 1 < |a| - 1 && a[1..][..|b| - 1] == b[1..] {
        assert a[..|b|] == [a[0]] + a[1..][..|b| - 1];
      }
    }
  }

  lemma {:induction false} LexIrreflexive(a: string)
    ensures !LexGreater(a, a)
    decreases |a|
  {
    if |a| > 0 { LexIrreflexive(a[1..]); }
  }

  lemma {:induction false} LexAsymmetric(a: string, b: string)
    ensures LexGreater(a, b) ==> !LexGreater(b, a)
    decreases |a|
  {
    if |a| > 0 && |b| > 0 && a[0] == b[0] { LexAsymmetric(a[1..], b[1..]); }
  }

  lemma {:induction false} LexConnected(a: string, b: string)
    ensures a != b ==> LexGreater(a, b) || LexGreater(b, a)
    decreases |a|
  {
    if |a| > 0 && |b| > 0 && a[0] == b[0] {
      LexConnected(a[1..], b[1..]);
      if a[1..] == b[1..] { assert a == [a[0]] + a[1..] && b == [b[0]] + b[1..]; }
    }
  }

  lemma {:induction false} LexTransitive(a: string, b: string, c: string)
    ensures LexGreater(a, b) && LexGreater(b, c) ==> LexGreater(a, c)
    decreases |a|
  {
    if |a| > 0 && |b| > 0 && |c| > 0 && a[0] == b[0] == c[0] {
      LexTransitive(a[1..], b[1..], c[1..]);
    }
  }

  /** "not greater" is transitive, so `>` orders strings like a strict weak order. */
  lemma LexNotGreaterTransitive(a: string, b: string, c: string)
    ensures !LexGreater(a, b) && !LexGreater(b, c) ==> !LexGreater(a, c)
  {
    if !LexGreater(a, b) && !LexGreater(b, c) && LexGreater(a, c) {
      LexConnected(a, b);
      LexConnected(b, c);
      if a == b {
      } else if b == c {
      } else {
        LexTransitive(c, b, a);
        LexAsymmetric(a, c);
      }
    }
  }
}
