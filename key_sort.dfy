/** The order `Array.prototype.sort()` puts parameter names in when given no
    comparator: strings compared by their UTF-16 code units (lib/ecpay.ts:160-161). */
module KeySort {

  /** A character's place in UTF-16 code-unit order. Characters below the surrogate
      range keep their value; characters outside the Basic Multilingual Plane start
      with a high surrogate (0xD800-0xDBFF), so they sort before U+E000-U+FFFF, which
      are moved above them. */
  function Utf16Rank(c: char): (r: int)
    ensures (c as int) < 0xD800 ==> r == c as int
    ensures 0 <= r
  {
    var n := c as int;
    if n < 0xD800 then n
    else if n < 0x10000 then n + 0x100000
    else 0xD800 + (n - 0x10000)
  }

  lemma RankInjective(c: char, d: char)
    requires Utf16Rank(c) == Utf16Rank(d)
    ensures c == d
  {
    assert (c as int) == (d as int);
  }

  /** A character outside the Basic Multilingual Plane sorts after every character
      below U+D800 and before every character from U+E000 to U+FFFF. */
  lemma RankOfSupplementary(c: char, d: char)
    requires (c as int) >= 0x10000
    ensures (d as int) < 0xD800 ==> Utf16Rank(d) < Utf16Rank(c)
    ensures 0xE000 <= (d as int) < 0x10000 ==> Utf16Rank(c) < Utf16Rank(d)
  {
  }

  /** Lexicographic order over code units. */
  predicate KeyLess(a: string, b: string)
  {
    if a == [] then b != []
    else if b == [] then false
    else if a[0] != b[0] then Utf16Rank(a[0]) < Utf16Rank(b[0])
    else KeyLess(a[1..], b[1..])
  }

  lemma {:induction false} KeyLessIrreflexive(a: string)
    ensures !KeyLess(a, a)
  {
    if a != [] {
      KeyLessIrreflexive(a[1..]);
    }
  }

  lemma {:induction false} KeyLessTransitive(a: string, b: string, c: string)
    requires KeyLess(a, b) && KeyLess(b, c)
    ensures KeyLess(a, c)
  {
    if a != [] && b != [] && c != [] && a[0] == b[0] && b[0] == c[0] {
      KeyLessTransitive(a[1..], b[1..], c[1..]);
    }
  }

  lemma {:induction false} KeyLessTotal(a: string, b: string)
    ensures a == b || KeyLess(a, b) || KeyLess(b, a)
  {
    if a != [] && b != [] {
      if a[0] == b[0] {
        assert a == [a[0]] + a[1..] && b == [b[0]] + b[1..];
        KeyLessTotal(a[1..], b[1..]);
      } else if Utf16Rank(a[0]) == Utf16Rank(b[0]) {
        RankInjective(a[0], b[0]);
      }
    }
  }

  lemma KeyLessAsymmetric(a: string, b: string)
    requires KeyLess(a, b)
    ensures !KeyLess(b, a)
  {
    if KeyLess(b, a) {
      KeyLessTransitive(a, b, a);
      KeyLessIrreflexive(a);
    }
  }

  predicate SortedKeys(s: seq<string>)
  {
    forall i, j :: 0 <= i < j < |s| ==> !KeyLess(s[j], s[i])
  }

  function Insert(x: string, s: seq<string>): (r: seq<string>)
    requires SortedKeys(s)
    ensures SortedKeys(r)
    ensures multiset(r) == multiset(s) + multiset{x}
  {
    if s == [] then [x]
    else if !KeyLess(s[0], x) then
      NoneBelowHead(x, s);
      PrependSmallest(x, s);
      [x] + s
    else
      var t := Insert(x, s[1..]);
      NoneBelowSmaller(x, s, t);
      PrependSmallest(s[0], t);
      assert s == [s[0]] + s[1..];
      [s[0]] + t
  }

  /** Putting in front a key that no element sorts before keeps a list sorted. */
  lemma PrependSmallest(x: string, s: seq<string>)
    requires SortedKeys(s)
    requires forall j :: 0 <= j < |s| ==> !KeyLess(s[j], x)
    ensures SortedKeys([x] + s)
  {
    forall i, j | 0 <= i < j < |s| + 1 ensures !KeyLess(([x] + s)[j], ([x] + s)[i]) {
      assert ([x] + s)[j] == s[j - 1];
      if 0 < i {
        assert ([x] + s)[i] == s[i - 1];
      }
    }
  }

  /** No element of a sorted list sorts before a key that its head does not sort before. */
  lemma NoneBelowHead(x: string, s: seq<string>)
    requires SortedKeys(s) && s != [] && !KeyLess(s[0], x)
    ensures forall j :: 0 <= j < |s| ==> !KeyLess(s[j], x)
  {
    forall j | 0 < j < |s| ensures !KeyLess(s[j], x) {
      if KeyLess(s[j], x) {
        KeyLessTotal(s[j], s[0]);
        if KeyLess(s[0], s[j]) {
          KeyLessTransitive(s[0], s[j], x);
        }
      }
    }
  }

  /** The tail of a sorted list with a larger key added holds nothing below the head. */
  lemma NoneBelowSmaller(x: string, s: seq<string>, t: seq<string>)
    requires SortedKeys(s) && s != [] && KeyLess(s[0], x)
    requires multiset(t) == multiset(s[1..]) + multiset{x}
    ensures forall j :: 0 <= j < |t| ==> !KeyLess(t[j], s[0])
  {
    forall j | 0 <= j < |t| ensures !KeyLess(t[j], s[0]) {
      var y := t[j];
      assert y in multiset(t);
      if y != x {
        assert y in multiset(s[1..]);
        var k :| 0 <= k < |s[1..]| && s[1..][k] == y;
        assert s[k + 1] == y;
      } else {
        KeyLessAsymmetric(s[0], x);
      }
    }
  }

  /** `keys.sort()`: sorted in code-unit order, and a permutation of the keys. */
  function SortKeys(keys: seq<string>): (r: seq<string>)
    ensures SortedKeys(r)
    ensures multiset(r) == multiset(keys)
  {
    if keys == [] then []
    else
      assert keys == [keys[0]] + keys[1..];
      Insert(keys[0], SortKeys(keys[1..]))
  }

  /** Two sorted arrangements of the same keys are the same sequence: the sorted order
      does not depend on the order the keys were inserted in. */
  lemma {:induction false} SortedUnique(a: seq<string>, b: seq<string>)
    requires SortedKeys(a) && SortedKeys(b)
    requires multiset(a) == multiset(b)
    ensures a == b
  {
    if a != [] {
      SameHead(a, b);
      SortedTail(a);
      SortedTail(b);
      assert a == [a[0]] + a[1..] && b == [b[0]] + b[1..];
      assert multiset(a[1..]) == multiset(a) - multiset{a[0]};
      assert multiset(b[1..]) == multiset(b) - multiset{b[0]};
      SortedUnique(a[1..], b[1..]);
    } else {
      assert |b| == |multiset(b)| == 0;
    }
  }

  /** Two sorted arrangements of the same non-empty keys start with the same key. */
  lemma SameHead(a: seq<string>, b: seq<string>)
    requires SortedKeys(a) && SortedKeys(b)
    requires multiset(a) == multiset(b) && a != []
    ensures b != [] && a[0] == b[0]
  {
    assert a[0] in multiset(b);
    assert b[0] in multiset(a);
    var i :| 0 <= i < |b| && b[i] == a[0];
    var j :| 0 <= j < |a| && a[j] == b[0];
    assert i == 0 || !KeyLess(a[0], b[0]);
    assert j == 0 || !KeyLess(b[0], a[0]);
    KeyLessTotal(a[0], b[0]);
  }

  lemma SortedTail(a: seq<string>)
    requires SortedKeys(a) && a != []
    ensures SortedKeys(a[1..])
  {
    forall i, j | 0 <= i < j < |a| - 1 ensures !KeyLess(a[1..][j], a[1..][i]) {
      assert a[1..][j] == a[j + 1] && a[1..][i] == a[i + 1];
    }
  }

  lemma SortKeysPermutationInvariant(k1: seq<string>, k2: seq<string>)
    requires multiset(k1) == multiset(k2)
    ensures SortKeys(k1) == SortKeys(k2)
  {
    SortedUnique(SortKeys(k1), SortKeys(k2));
  }
}
