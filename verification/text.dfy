/** String notions shared by the prompt and response models. Strings are
    sequences of Unicode scalar values; the lone surrogates a Python `str`
    can hold are not modelled. */
module Text {
  import opened Wrappers

  /** `w` occurs in `s` starting at index `i`. */
  predicate OccursAt(s: string, w: string, i: int) {
    0 <= i && i + |w| <= |s| && s[i..i + |w|] == w
  }

  /** `w` occurs somewhere in `s` (Python's `w in s`). */
  predicate Contains(s: string, w: string) {
    exists i | 0 <= i <= |s| :: OccursAt(s, w, i)
  }

  /** Python's `s.endswith(suffix)`. */
  predicate EndsWith(s: string, suffix: string) {
    |suffix| <= |s| && s[|s| - |suffix|..] == suffix
  }

  /** Python's slice `s[:n]` for a non-negative `n`. */
  function Take(s: string, n: nat): (r: string)
    ensures r <= s
    ensures |r| == if |s| < n then |s| else n
  {
    if n <= |s| then s[..n] else s
  }

  lemma ContainsInLeft(a: string, b: string, w: string)
    requires Contains(a, w)
    ensures Contains(a + b, w)
  {
    var i :| 0 <= i <= |a| && OccursAt(a, w, i);
    assert (a + b)[i..i + |w|] == a[i..i + |w|];
    assert OccursAt(a + b, w, i);
  }

  lemma ContainsInRight(a: string, b: string, w: string)
    requires Contains(b, w)
    ensures Contains(a + b, w)
  {
    var i :| 0 <= i <= |b| && OccursAt(b, w, i);
    assert (a + b)[|a| + i..|a| + i + |w|] == b[i..i + |w|];
    assert OccursAt(a + b, w, |a| + i);
  }

  /** Two suffixes of one string agree, read backwards, as far as the shorter one goes. */
  lemma {:induction false} SuffixesAgree(s: string, a: string, b: string, k: nat)
    requires EndsWith(s, a) && EndsWith(s, b)
    requires k < |a| && k < |b|
    ensures a[|a| - 1 - k] == b[|b| - 1 - k]
  {
    assert a[|a| - 1 - k] == s[|s| - 1 - k];
    assert b[|b| - 1 - k] == s[|s| - 1 - k];
  }

  lemma EndsWithTail(s: string, a: string, b: string)
    requires EndsWith(s, a + b)
    ensures EndsWith(s, b)
  {
    assert s[|s| - |b|..] == (a + b)[|a|..];
  }

  /** A string that starts with `h` and ends with `a`, with room for both, is
      `h`, its middle part and `a`. */
  lemma Splice(s: string, h: string, a: string)
    requires h <= s && |h| + |a| <= |s| && EndsWith(s, a)
    ensures s == h + s[|h|..|s| - |a|] + a
  {
    assert s == s[..|h|] + s[|h|..|s| - |a|] + s[|s| - |a|..];
  }

  lemma EmptyMiddle(a: string, b: string)
    ensures a + "" + b == a + b
  {
    assert a + "" == a;
  }

  lemma Regroup(a: string, b: string, c: string, d: string)
    ensures a + b + c + d == a + b + (c + d)
  {
  }

  /** Strings whose `k`-th characters from the end differ are never both suffixes of one string. */
  lemma NotBothSuffixes(s: string, a: string, b: string, k: nat)
    requires k < |a| && k < |b| && a[|a| - 1 - k] != b[|b| - 1 - k]
    requires EndsWith(s, a)
    ensures !EndsWith(s, b)
  {
    if EndsWith(s, b) {
      SuffixesAgree(s, a, b, k);
    }
  }

  /** The middle of `s` between a leading `head` and a trailing `tail`, if
      `s` has that shape. */
  function Unsplice(s: string, head: string, tail: string): (r: Option<string>)
    ensures r.Some? ==> |head| + |r.value| + |tail| == |s|
  {
    if head <= s && |head| + |tail| <= |s| && EndsWith(s, tail) then
      Some(s[|head|..|s| - |tail|])
    else
      None
  }

  lemma UnspliceSplice(head: string, m: string, tail: string)
    ensures Unsplice(head + m + tail, head, tail) == Some(m)
  {
    var s := head + m + tail;
    assert s[|s| - |tail|..] == tail;
    assert s[|head|..|s| - |tail|] == m;
  }

  lemma UnspliceSound(s: string, head: string, tail: string)
    requires Unsplice(s, head, tail).Some?
    ensures s == head + Unsplice(s, head, tail).value + tail
  {
    Splice(s, head, tail);
  }

  /** The first tag of `tags` for which `s` reads as `head`, some middle,
      and `tail(tag)`: that tag and that middle. */
  function FirstSplit<T>(s: string, head: string, tags: seq<T>, tail: T -> string): Option<(T, string)>
    decreases |tags|
  {
    if |tags| == 0 then None
    else
      match Unsplice(s, head, tail(tags[0]))
      case Some(m) => Some((tags[0], m))
      case None => FirstSplit(s, head, tags[1..], tail)
  }

  lemma {:induction false} FirstSplitSound<T>(s: string, head: string, tags: seq<T>, tail: T -> string, t: T, m: string)
    requires FirstSplit(s, head, tags, tail) == Some((t, m))
    ensures t in tags && Unsplice(s, head, tail(t)) == Some(m)
    decreases |tags|
  {
    if Unsplice(s, head, tail(tags[0])).None? {
      FirstSplitSound(s, head, tags[1..], tail, t, m);
    }
  }

  /** Of two suffixes of one string, the shorter is a suffix of the longer. */
  lemma SuffixOfSuffix(s: string, a: string, b: string)
    requires EndsWith(s, a) && EndsWith(s, b) && |b| <= |a|
    ensures EndsWith(a, b)
  {
    assert a[|a| - |b|..] == s[|s| - |b|..];
  }

  /** A string never ends with two strings neither of which ends with the other. */
  lemma NotBothEndings(s: string, a: string, b: string)
    requires !EndsWith(a, b) && !EndsWith(b, a) && EndsWith(s, a)
    ensures !EndsWith(s, b)
  {
    if EndsWith(s, b) {
      if |b| <= |a| {
        SuffixOfSuffix(s, a, b);
      } else {
        SuffixOfSuffix(s, b, a);
      }
    }
  }

  lemma EndsWithAppend(a: string, b: string)
    ensures EndsWith(a + b, b)
  {
    assert (a + b)[|a|..] == b;
  }

  /** When no tag's tail ends with another's, splitting a string built from
      `head`, a middle and one tag's tail finds exactly that tag and middle. */
  lemma {:induction false} FirstSplitOfSplice<T>(head: string, m: string, tags: seq<T>, tail: T -> string, t: T)
    requires t in tags
    requires forall x, y | x in tags && y in tags && x != y :: !EndsWith(tail(x), tail(y))
    ensures FirstSplit(head + m + tail(t), head, tags, tail) == Some((t, m))
    decreases |tags|
  {
    var s := head + m + tail(t);
    UnspliceSplice(head, m, tail(t));
    if tags[0] != t {
      NotBothEndings(s, tail(t), tail(tags[0]));
      assert t in tags[1..];
      FirstSplitOfSplice(head, m, tags[1..], tail, t);
    }
  }

  /** A word contained in the middle part is contained in the whole. */
  lemma ContainsInside(pre: string, a: string, w: string, b: string)
    ensures Contains(pre + (a + w + b), w)
  {
    var s := pre + (a + w + b);
    assert s[|pre| + |a|..|pre| + |a| + |w|] == w;
    assert OccursAt(s, w, |pre| + |a|);
  }

  /** When the first character of `w` occurs in neither `h` nor `a`, and `a`
      starts with a character foreign to `w`, then `w` occurs in `h + c + a`
      exactly when it occurs in `c`. */
  lemma {:induction false} ContainsOnlyInMiddle(h: string, c: string, a: string, w: string)
    requires |w| > 0 && w[0] !in h && w[0] !in a
    requires |a| > 0 && a[0] !in w
    ensures Contains(h + c + a, w) <==> Contains(c, w)
  {
    var s := h + c + a;
    if Contains(c, w) {
      ContainsInLeft(h + c, a, w) by {
        ContainsInRight(h, c, w);
      }
    }
    if Contains(s, w) {
      var i :| 0 <= i <= |s| && OccursAt(s, w, i);
      assert s[i] == w[0] by {
        assert s[i..i + |w|][0] == w[0];
      }
      assert |h| <= i < |h| + |c|;
      var q := |h| + |c|;
      assert s[q] == a[0];
      assert forall k | i <= k < i + |w| :: s[k] == w[k - i] by {
        forall k | i <= k < i + |w| ensures s[k] == w[k - i] {
          assert s[i..i + |w|][k - i] == s[k];
        }
      }
      assert i + |w| <= q;
      assert c[i - |h|..i - |h| + |w|] == s[i..i + |w|];
      assert OccursAt(c, w, i - |h|);
    }
  }
}
