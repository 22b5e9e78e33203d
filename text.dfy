/**
 * Literal text search and global replacement.
 *
 * The generator calls a `replaceAll(key, value)` that a string helper installs
 * on every string.  That helper is not part of this model; it is modelled here
 * as literal (no pattern syntax), global, non-overlapping, left-to-right
 * replacement, and an empty key is taken to change nothing.
 */
module Text {

  /** `p` is a prefix of `s`. */
  predicate StartsWith(s: string, p: string)
  {
    |p| <= |s| && s[..|p|] == p
  }

  /** `key` occurs somewhere in `s` (an empty key occurs everywhere). */
  predicate Occurs(key: string, s: string)
    decreases |s|
  {
    StartsWith(s, key) || (|s| > 0 && Occurs(key, s[1..]))
  }

  /** No character of `s` is a character of `key`. */
  predicate SharesNoChar(s: string, key: string)
  {
    forall j :: 0 <= j < |s| ==> s[j] !in key
  }

  /** Every occurrence of `key` in `s`, scanning from the left, replaced by `value`. */
  function ReplaceAll(s: string, key: string, value: string): string
    decreases |s|
  {
    if key == [] || s == [] then s
    else if StartsWith(s, key) then value + ReplaceAll(s[|key|..], key, value)
    else [s[0]] + ReplaceAll(s[1..], key, value)
  }

  /** `s` with every character `c` dropped: the reference for removing one character. */
  function Without(s: string, c: char): (r: string)
    ensures c !in r
    ensures |r| <= |s|
  {
    if s == [] then []
    else if s[0] == c then Without(s[1..], c)
    else [s[0]] + Without(s[1..], c)
  }

  /** A text that does not contain the key is left unchanged. */
  lemma {:induction false} ReplaceAllAbsent(s: string, key: string, value: string)
    requires !Occurs(key, s)
    ensures ReplaceAll(s, key, value) == s
    decreases |s|
  {
    if key != [] && s != [] {
      ReplaceAllAbsent(s[1..], key, value);
    }
  }

  /** Replacing a one-character key by nothing is exactly dropping that character. */
  lemma {:induction false} ReplaceCharByNothing(s: string, c: char)
    ensures ReplaceAll(s, [c], "") == Without(s, c)
    decreases |s|
  {
    if s != [] {
      ReplaceCharByNothing(s[1..], c);
      if s[0] == c {
        assert StartsWith(s, [c]);
        assert s[|[c]|..] == s[1..];
      } else {
        assert !StartsWith(s, [c]);
      }
    }
  }

  lemma {:induction false} NotOccursInShorter(key: string, s: string)
    requires key != [] && |s| < |key|
    ensures !Occurs(key, s)
    decreases |s|
  {
    if s != [] {
      NotOccursInShorter(key, s[1..]);
    }
  }

  lemma {:induction false} NotOccursInSuffix(key: string, s: string, k: nat)
    requires k <= |s| && !Occurs(key, s)
    ensures !Occurs(key, s[k..])
    decreases k
  {
    if k > 0 {
      assert s[1..][k - 1..] == s[k..];
      NotOccursInSuffix(key, s[1..], k - 1);
    }
  }

  /** A text made of characters foreign to `key`, followed by a text without `key`, is without `key`. */
  lemma {:induction false} NotOccursAfterForeign(x: string, rest: string, key: string)
    requires key != []
    requires SharesNoChar(x, key)
    requires !Occurs(key, rest)
    ensures !Occurs(key, x + rest)
    decreases |x|
  {
    if x == [] {
      assert x + rest == rest;
    } else {
      assert (x + rest)[1..] == x[1..] + rest;
      NotOccursAfterForeign(x[1..], rest, key);
      assert key[0] in key;
      assert (x + rest)[0] == x[0];
      assert !StartsWith(x + rest, key);
    }
  }

  /**
   * A prefix `p` of the replaced text is a prefix of the original text when the
   * replacement value is not empty and its first character is not in `p`:
   * then no replacement can produce the start of `p`.
   */
  lemma {:induction false} PrefixSurvives(t: string, key: string, value: string, p: string)
    requires key != []
    requires p == [] || (value != [] && value[0] !in p)
    requires StartsWith(ReplaceAll(t, key, value), p)
    ensures StartsWith(t, p)
    decreases |t|
  {
    if p != [] {
      var r := ReplaceAll(t, key, value);
      assert t == [] ==> r == [];
      assert t != [];
      assert r[0] == p[0] && p[0] in p;
      assert !StartsWith(t, key);
      var rest := ReplaceAll(t[1..], key, value);
      assert r == [t[0]] + rest;
      assert StartsWith(rest, p[1..]);
      PrefixSurvives(t[1..], key, value, p[1..]);
    }
  }

  /**
   * Replacing `key` leaves no occurrence of `key` behind, provided the value
   * shares no character with the key and the value is not empty, or the key is
   * a single character.  (Without the second condition a removed occurrence can
   * join its neighbours into a new one; see `ReplaceAllCanLeaveKey`.)
   */
  lemma {:induction false} ReplaceAllLeavesNoKey(s: string, key: string, value: string)
    requires key != []
    requires SharesNoChar(value, key)
    requires |key| == 1 || value != []
    ensures !Occurs(key, ReplaceAll(s, key, value))
    decreases |s|
  {
    if s == [] {
      NotOccursInShorter(key, s);
    } else if StartsWith(s, key) {
      var rest := ReplaceAll(s[|key|..], key, value);
      ReplaceAllLeavesNoKey(s[|key|..], key, value);
      NotOccursAfterForeign(value, rest, key);
    } else {
      var rest := ReplaceAll(s[1..], key, value);
      ReplaceAllLeavesNoKey(s[1..], key, value);
      assert ([s[0]] + rest)[1..] == rest;
      if |key| > 1 && StartsWith(rest, key[1..]) {
        PrefixSurvives(s[1..], key, value, key[1..]);
      }
      assert s[0] == key[0] && StartsWith(s[1..], key[1..]) ==> StartsWith(s, key);
      assert !StartsWith([s[0]] + rest, key);
    }
  }

  /**
   * Replacing `key` does not create an occurrence of another key `other` that
   * was absent, under the same conditions on the value relative to `other`.
   */
  lemma {:induction false} ReplaceAllKeepsAbsent(s: string, key: string, value: string, other: string)
    requires key != [] && other != []
    requires SharesNoChar(value, other)
    requires |other| == 1 || value != []
    requires !Occurs(other, s)
    ensures !Occurs(other, ReplaceAll(s, key, value))
    decreases |s|
  {
    if s == [] {
    } else if StartsWith(s, key) {
      var rest := ReplaceAll(s[|key|..], key, value);
      NotOccursInSuffix(other, s, |key|);
      ReplaceAllKeepsAbsent(s[|key|..], key, value, other);
      NotOccursAfterForeign(value, rest, other);
    } else {
      var rest := ReplaceAll(s[1..], key, value);
      ReplaceAllKeepsAbsent(s[1..], key, value, other);
      assert ([s[0]] + rest)[1..] == rest;
      if |other| > 1 && StartsWith(rest, other[1..]) {
        PrefixSurvives(s[1..], key, value, other[1..]);
      }
      assert s[0] == other[0] && StartsWith(s[1..], other[1..]) ==> StartsWith(s, other);
      assert !StartsWith([s[0]] + rest, other);
    }
  }

  /**
   * The unconditional claim "a value that does not contain the key leaves no
   * occurrence of it" is false: the replacement can complete a new occurrence.
   */
  lemma ReplaceAllCanLeaveKey()
    ensures !Occurs("ab", "a")
    ensures ReplaceAll("abb", "ab", "a") == "ab"
    ensures Occurs("ab", ReplaceAll("abb", "ab", "a"))
  {
    assert !StartsWith("a", "ab");
    assert StartsWith("abb", "ab");
    assert "abb"[2..] == "b";
    assert !StartsWith("b", "ab");
    assert ReplaceAll("b", "ab", "a") == "b";
    assert StartsWith("ab", "ab");
  }
}
