/** Small vocabulary shared by the whole model: an optional value, the
    string tests the scraper applies to link texts and hrefs, and the
    subsequence relation used to compare filtered lists. */
module Common {

  datatype Option<+T> = None | Some(value: T)

  /** Python's `s.startswith(prefix)`. */
  predicate StartsWith(s: string, prefix: string)
  {
    |prefix| <= |s| && s[..|prefix|] == prefix
  }

  /** Python's `s.endswith(suffix)`. */
  predicate EndsWith(s: string, suffix: string)
  {
    |suffix| <= |s| && s[|s| - |suffix|..] == suffix
  }

  /** Python's `sub in s` on strings. */
  predicate Contains(s: string, sub: string)
    decreases |s|
  {
    StartsWith(s, sub) || (s != [] && Contains(s[1..], sub))
  }

  function LowerChar(c: char): char
  {
    if 'A' <= c <= 'Z' then (c as int + 32) as char else c
  }

  /** Python's `s.lower()`, restricted to the ASCII letters. */
  function Lower(s: string): (r: string)
    ensures |r| == |s|
    ensures forall i :: 0 <= i < |s| ==> r[i] == LowerChar(s[i])
  {
    seq(|s|, i requires 0 <= i < |s| => LowerChar(s[i]))
  }

  /** The index of the first element of `s` at or after `i` that is not
      `c` (`|s|` when there is none). */
  function LeadEnd(s: string, c: char, i: nat): (k: nat)
    requires i <= |s|
    ensures i <= k <= |s| && (k == |s| || s[k] != c)
    ensures forall j :: i <= j < k ==> s[j] == c
    decreases |s| - i
  {
    if i < |s| && s[i] == c then LeadEnd(s, c, i + 1) else i
  }

  /** Python's `s.lstrip(c)` for a single character `c`: every leading
      copy of `c` is removed. */
  function LStrip(s: string, c: char): (r: string)
    ensures |r| <= |s| && r == s[|s| - |r|..]
    ensures r == [] || r[0] != c
    ensures forall i :: 0 <= i < |s| - |r| ==> s[i] == c
  {
    s[LeadEnd(s, c, 0)..]
  }

  /** `a` is `b` with some elements left out, the rest kept in order. */
  predicate SubSeq<T(==)>(a: seq<T>, b: seq<T>)
    decreases |b|
  {
    if a == [] then true
    else if b == [] then false
    else SubSeq(a, b[1..]) || (a[0] == b[0] && SubSeq(a[1..], b[1..]))
  }

  lemma {:induction false} SubSeqRefl<T>(a: seq<T>)
    ensures SubSeq(a, a)
    decreases |a|
  {
    if a != [] {
      SubSeqRefl(a[1..]);
    }
  }

  lemma {:induction false} SubSeqCons<T>(x: T, a: seq<T>, b: seq<T>)
    requires SubSeq(a, b)
    ensures SubSeq(a, [x] + b) && SubSeq([x] + a, [x] + b)
  {
    assert ([x] + b)[1..] == b;
    assert ([x] + a)[1..] == a;
  }

  lemma {:induction false} SubSeqTrans<T>(a: seq<T>, b: seq<T>, c: seq<T>)
    requires SubSeq(a, b) && SubSeq(b, c)
    ensures SubSeq(a, c)
    decreases |c|
  {
    if a == [] {
    } else if SubSeq(b, c[1..]) {
      SubSeqTrans(a, b, c[1..]);
    } else {
      assert b[0] == c[0] && SubSeq(b[1..], c[1..]);
      if SubSeq(a, b[1..]) {
        SubSeqTrans(a, b[1..], c[1..]);
      } else {
        assert a[0] == b[0] && SubSeq(a[1..], b[1..]);
        SubSeqTrans(a[1..], b[1..], c[1..]);
      }
    }
  }

  /** Every element of a subsequence is an element of the whole. */
  lemma {:induction false} SubSeqMembers<T>(a: seq<T>, b: seq<T>)
    requires SubSeq(a, b)
    ensures forall x :: x in a ==> x in b
    decreases |b|
  {
    if a != [] {
      if SubSeq(a, b[1..]) {
        SubSeqMembers(a, b[1..]);
      } else {
        SubSeqMembers(a[1..], b[1..]);
        assert forall x :: x in a ==> x == a[0] || x in a[1..];
      }
    }
  }

  /** The last element alone is a subsequence of any sequence ending in it. */
  lemma {:induction false} SubSeqLast<T>(x: T, b: seq<T>)
    ensures SubSeq([x], b + [x])
    decreases |b|
  {
    if b == [] {
      assert [x] + [] == [x];
    } else {
      assert (b + [x])[1..] == b[1..] + [x];
      SubSeqLast(x, b[1..]);
    }
  }

  /** A subsequence stays one when the whole grows at the end, with or
      without the subsequence growing by the same element. */
  lemma {:induction false} SubSeqSnoc<T>(x: T, a: seq<T>, b: seq<T>)
    requires SubSeq(a, b)
    ensures SubSeq(a, b + [x]) && SubSeq(a + [x], b + [x])
    decreases |b|
  {
    if a == [] {
      SubSeqLast(x, b);
      assert a + [x] == [x];
    } else {
      assert (b + [x])[0] == b[0] && (b + [x])[1..] == b[1..] + [x];
      assert (a + [x])[0] == a[0] && (a + [x])[1..] == a[1..] + [x];
      if SubSeq(a, b[1..]) {
        SubSeqSnoc(x, a, b[1..]);
      } else {
        SubSeqSnoc(x, a[1..], b[1..]);
      }
    }
  }

  /** Subsequences of two parts make a subsequence of the whole. */
  lemma {:induction false} SubSeqConcat<T>(a: seq<T>, b: seq<T>, c: seq<T>, d: seq<T>)
    requires SubSeq(a, b) && SubSeq(c, d)
    ensures SubSeq(a + c, b + d)
    decreases |b|
  {
    if b == [] {
      assert a == [] && a + c == c && b + d == d;
    } else {
      assert (b + d)[0] == b[0] && (b + d)[1..] == b[1..] + d;
      if a == [] {
        SubSeqConcat(a, b[1..], c, d);
        assert a + c == c;
      } else if SubSeq(a, b[1..]) {
        SubSeqConcat(a, b[1..], c, d);
      } else {
        assert (a + c)[0] == a[0] && (a + c)[1..] == a[1..] + c;
        SubSeqConcat(a[1..], b[1..], c, d);
      }
    }
  }

  /** No element occurs twice. */
  predicate NoDup<T(==)>(s: seq<T>)
  {
    forall i, j :: 0 <= i < j < |s| ==> s[i] != s[j]
  }

  /** Concatenation is associative. */
  lemma AppendAssoc<T>(a: seq<T>, b: seq<T>, c: seq<T>)
    ensures (a + b) + c == a + (b + c)
  {
  }
}
