/**
 * The ordering Python's `sorted` and `list.sort` use on the tuple keys of the parser:
 * a beat (a float, here a real) followed by integer ranks, compared lexicographically,
 * and the stable sort itself.
 */
module Ordering {

  /** Lexicographic order on integer tuples; a proper prefix sorts first. */
  predicate RanksLe(a: seq<int>, b: seq<int>)
    decreases |a|
  {
    a == [] || (b != [] && (a[0] < b[0] || (a[0] == b[0] && RanksLe(a[1..], b[1..]))))
  }

  lemma {:induction false} RanksLeRefl(a: seq<int>)
    ensures RanksLe(a, a)
    decreases |a|
  {
    if a != [] {
      RanksLeRefl(a[1..]);
    }
  }

  lemma {:induction false} RanksLeTotal(a: seq<int>, b: seq<int>)
    ensures RanksLe(a, b) || RanksLe(b, a)
    decreases |a|
  {
    if a != [] && b != [] && a[0] == b[0] {
      RanksLeTotal(a[1..], b[1..]);
    }
  }

  lemma {:induction false} RanksLeTrans(a: seq<int>, b: seq<int>, c: seq<int>)
    requires RanksLe(a, b) && RanksLe(b, c)
    ensures RanksLe(a, c)
    decreases |a|
  {
    if a != [] && a[0] == b[0] && b[0] == c[0] {
      RanksLeTrans(a[1..], b[1..], c[1..]);
    }
  }

  lemma {:induction false} RanksLeAntisym(a: seq<int>, b: seq<int>)
    requires RanksLe(a, b) && RanksLe(b, a)
    ensures a == b
    decreases |a|
  {
    if a != [] {
      RanksLeAntisym(a[1..], b[1..]);
      assert a == [a[0]] + a[1..] && b == [b[0]] + b[1..];
    }
  }

  /** The first ranks are ordered, and when they agree the rest are. */
  lemma RanksLeHead(a: seq<int>, b: seq<int>)
    requires RanksLe(a, b) && a != [] && b != []
    ensures a[0] <= b[0] && (a[0] == b[0] ==> RanksLe(a[1..], b[1..]))
  {
  }

  /** A Python sort key `(beat, r1, r2, ...)`. */
  datatype SortKey = SortKey(beat: real, ranks: seq<int>)

  predicate KeyLe(a: SortKey, b: SortKey)
  {
    a.beat < b.beat || (a.beat == b.beat && RanksLe(a.ranks, b.ranks))
  }

  lemma KeyLeRefl(a: SortKey)
    ensures KeyLe(a, a)
  {
    RanksLeRefl(a.ranks);
  }

  lemma KeyLeTotal(a: SortKey, b: SortKey)
    ensures KeyLe(a, b) || KeyLe(b, a)
  {
    RanksLeTotal(a.ranks, b.ranks);
  }

  lemma KeyLeTrans(a: SortKey, b: SortKey, c: SortKey)
    requires KeyLe(a, b) && KeyLe(b, c)
    ensures KeyLe(a, c)
  {
    if a.beat == b.beat == c.beat {
      RanksLeTrans(a.ranks, b.ranks, c.ranks);
    }
  }

  lemma KeyLeAntisym(a: SortKey, b: SortKey)
    requires KeyLe(a, b) && KeyLe(b, a)
    ensures a == b
  {
    RanksLeAntisym(a.ranks, b.ranks);
  }

  ghost predicate SortedBy<T>(s: seq<T>, key: T -> SortKey)
  {
    forall i, j :: 0 <= i < j < |s| ==> KeyLe(key(s[i]), key(s[j]))
  }

  /** Keys strictly increase along `s`: sorted, and no key occurs twice. */
  ghost predicate StrictlySortedBy<T>(s: seq<T>, key: T -> SortKey)
  {
    forall i, j :: 0 <= i < j < |s| ==> KeyLe(key(s[i]), key(s[j])) && key(s[i]) != key(s[j])
  }

  /** Places `x` before the first element whose key is not below it (so ties keep `x` first). */
  function Insert<T>(x: T, s: seq<T>, key: T -> SortKey): (r: seq<T>)
    ensures multiset(r) == multiset(s) + multiset{x}
    ensures |r| == |s| + 1
  {
    if s == [] then [x]
    else if KeyLe(key(x), key(s[0])) then [x] + s
    else
      ConsMultiset(s);
      [s[0]] + Insert(x, s[1..], key)
  }

  /** A non-empty sequence is its head followed by its tail, as a multiset too. */
  lemma ConsMultiset<T>(s: seq<T>)
    requires s != []
    ensures multiset(s) == multiset{s[0]} + multiset(s[1..])
  {
    assert s == [s[0]] + s[1..];
  }

  lemma {:induction false} InsertSorted<T>(x: T, s: seq<T>, key: T -> SortKey)
    requires SortedBy(s, key)
    ensures SortedBy(Insert(x, s, key), key)
  {
    if s == [] {
    } else if KeyLe(key(x), key(s[0])) {
      forall j | 0 <= j < |s|
        ensures KeyLe(key(x), key(s[j]))
      {
        if j > 0 {
          KeyLeTrans(key(x), key(s[0]), key(s[j]));
        }
      }
    } else {
      KeyLeTotal(key(x), key(s[0]));
      var tail := s[1..];
      var t := Insert(x, tail, key);
      InsertSorted(x, tail, key);
      forall j | 0 <= j < |t|
        ensures KeyLe(key(s[0]), key(t[j]))
      {
        assert t[j] in multiset(t);
        if t[j] != x {
          assert t[j] in multiset(tail);
          var k :| 0 <= k < |tail| && tail[k] == t[j];
          assert tail[k] == s[k + 1];
        }
      }
    }
  }

  /** A prefix one longer is the prefix with the next element appended. */
  lemma PrefixSnoc<T>(s: seq<T>, j: nat)
    requires j < |s|
    ensures s[..j + 1] == s[..j] + [s[j]]
  {
  }

  /** What a three-part concatenation holds: its first part as a prefix, the parts' elements, its last element. */
  lemma AppendFacts<T>(a: seq<T>, b: seq<T>, c: seq<T>)
    ensures a <= a + b + c
    ensures forall x :: x in a + b + c <==> x in a || x in b || x in c
    ensures multiset(a + b + c) == multiset(a) + multiset(b) + multiset(c)
    ensures c != [] ==> (a + b + c)[|a + b + c| - 1] == c[|c| - 1]
  {
    assert a + b + c == a + (b + c);
  }

  /** A permutation has the same elements. */
  lemma SameElements<T>(a: seq<T>, b: seq<T>)
    requires multiset(a) == multiset(b)
    ensures forall x :: x in a <==> x in b
  {
    forall x ensures x in a <==> x in b {
      assert x in a <==> x in multiset(a);
      assert x in b <==> x in multiset(b);
    }
  }

  /** Python's stable sort by `key`: the result is ordered and is a permutation of `s`. */
  function SortBy<T>(s: seq<T>, key: T -> SortKey): (r: seq<T>)
    ensures multiset(r) == multiset(s)
    ensures |r| == |s|
    ensures SortedBy(r, key)
  {
    if s == [] then []
    else
      var rest := SortBy(s[1..], key);
      InsertSorted(s[0], rest, key);
      ConsMultiset(s);
      Insert(s[0], rest, key)
  }

  /** Two elements already in key order are left as they are. */
  lemma SortTwo<T>(a: T, b: T, key: T -> SortKey)
    requires KeyLe(key(a), key(b))
    ensures SortBy([a, b], key) == [a, b]
  {
    assert [a, b][1..] == [b] && [b][1..] == [];
  }

  /** Sorting a sequence whose keys are pairwise distinct orders the keys strictly. */
  lemma SortDistinctStrict<T>(s: seq<T>, key: T -> SortKey)
    requires forall i, j :: 0 <= i < j < |s| ==> key(s[i]) != key(s[j])
    ensures StrictlySortedBy(SortBy(s, key), key)
  {
    var r := SortBy(s, key);
    forall i, j | 0 <= i < j < |r|
      ensures key(r[i]) != key(r[j])
    {
      DistinctKeysSurvive(s, r, key, i, j);
    }
  }

  lemma DistinctKeysSurvive<T>(s: seq<T>, r: seq<T>, key: T -> SortKey, i: nat, j: nat)
    requires forall i, j :: 0 <= i < j < |s| ==> key(s[i]) != key(s[j])
    requires multiset(r) == multiset(s)
    requires i < j < |r|
    ensures key(r[i]) != key(r[j])
  {
    assert r[i] in multiset(s) && r[j] in multiset(s);
    var a :| 0 <= a < |s| && s[a] == r[i];
    var b :| 0 <= b < |s| && s[b] == r[j];
    if a == b {
      TwiceCounted(r, i, j);
      NotInOthers(s, a, key);
      assert false;
    }
  }

  lemma TwiceCounted<T>(r: seq<T>, i: nat, j: nat)
    requires i < j < |r| && r[i] == r[j]
    ensures multiset(r)[r[i]] >= 2
  {
    assert r == r[..i] + [r[i]] + r[i + 1..j] + [r[j]] + r[j + 1..];
  }

  lemma NotInOthers<T>(s: seq<T>, a: nat, key: T -> SortKey)
    requires a < |s|
    requires forall i, j :: 0 <= i < j < |s| ==> key(s[i]) != key(s[j])
    ensures multiset(s)[s[a]] == 1
  {
    var x := s[a];
    assert s == s[..a] + [x] + s[a + 1..];
    assert x !in s[..a];
    assert x !in s[a + 1..];
    assert multiset(s[..a])[x] == 0;
    assert multiset(s[a + 1..])[x] == 0;
  }
}
