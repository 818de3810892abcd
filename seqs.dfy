/** Facts about sequences used by several modules. */
module Seqs {

  /** No element occurs twice. */
  predicate Distinct<T(==)>(s: seq<T>) {
    forall i, j :: 0 <= i < j < |s| ==> s[i] != s[j]
  }

  function Elements<T>(s: seq<T>): set<T> {
    set x | x in s
  }

  /** A prefix one longer is the prefix followed by the next element. */
  lemma PrefixSnoc<T>(s: seq<T>, i: nat)
    requires i < |s|
    ensures s[..i + 1] == s[..i] + [s[i]]
  {
  }

  lemma DistinctTail<T>(s: seq<T>)
    requires s != [] && Distinct(s)
    ensures Distinct(s[1..])
  {
    forall i, j | 0 <= i < j < |s| - 1 ensures s[1..][i] != s[1..][j] {
      assert s[i + 1] != s[j + 1];
    }
  }

  lemma ElementsAppend<T>(s: seq<T>, x: T)
    ensures Elements(s + [x]) == Elements(s) + {x}
  {
    forall y ensures y in Elements(s + [x]) <==> y in Elements(s) || y == x {
      assert y in s + [x] <==> y in s || y == x;
    }
  }

  lemma DistinctSuffix<T>(s: seq<T>, k: nat)
    requires k <= |s| && Distinct(s)
    ensures Distinct(s[k..])
  {
    forall i, j | 0 <= i < j < |s| - k ensures s[k..][i] != s[k..][j] {
      assert s[k + i] != s[k + j];
    }
  }

  lemma DistinctConcat<T>(a: seq<T>, b: seq<T>)
    requires Distinct(a) && Distinct(b)
    requires forall i :: 0 <= i < |b| ==> b[i] !in a
    ensures Distinct(a + b)
  {
    var c := a + b;
    forall i, j | 0 <= i < j < |c| ensures c[i] != c[j] {
      if i < |a| && |a| <= j {
        assert c[j] == b[j - |a|] && c[i] == a[i];
      } else if |a| <= i {
        assert c[i] == b[i - |a|] && c[j] == b[j - |a|];
      }
    }
  }

  /** A sequence without repetitions has as many elements as its set. */
  lemma {:induction false} DistinctCard<T>(s: seq<T>)
    requires Distinct(s)
    ensures |Elements(s)| == |s|
  {
    if s != [] {
      DistinctCard(s[1..]);
      assert Elements(s) == {s[0]} + Elements(s[1..]);
      assert s[0] !in Elements(s[1..]) by {
        forall i | 0 <= i < |s[1..]| ensures s[1..][i] != s[0] {
          assert s[1..][i] == s[i + 1];
        }
      }
    }
  }

  lemma AppendAssoc<T>(a: seq<T>, b: seq<T>, c: seq<T>)
    ensures a + (b + c) == (a + b) + c
  {
  }

  /** The two parts of a sequence without repetitions share no element. */
  lemma DistinctParts<T>(a: seq<T>, b: seq<T>, i: nat)
    requires Distinct(a + b) && i < |a|
    ensures a[i] !in b
  {
    forall j | 0 <= j < |b| ensures b[j] != a[i] {
      assert (a + b)[i] == a[i] && (a + b)[|a| + j] == b[j];
    }
  }

  /** Leaving out the fifth element keeps a sequence without repetitions so. */
  lemma DistinctWithoutFifth<T>(x0: T, x1: T, x2: T, x3: T, x4: T, f: seq<T>)
    requires Distinct([x0, x1, x2, x3, x4] + f)
    ensures Distinct([x0, x1, x2, x3] + f)
    ensures Distinct([x0, x1, x2, x3])
  {
    var a, b := [x0, x1, x2, x3, x4] + f, [x0, x1, x2, x3] + f;
    forall i, j | 0 <= i < j < |b| ensures b[i] != b[j] {
      var i', j' := if i < 4 then i else i + 1, if j < 4 then j else j + 1;
      assert b[i] == a[i'] && b[j] == a[j'];
    }
    forall i, j | 0 <= i < j < 4 ensures [x0, x1, x2, x3][i] != [x0, x1, x2, x3][j] {
      assert [x0, x1, x2, x3][i] == b[i] && [x0, x1, x2, x3][j] == b[j];
    }
  }

  /** A display of four elements in front of `f`, one element at a time. */
  lemma ConsFour<T>(x0: T, x1: T, x2: T, x3: T, f: seq<T>)
    ensures [x0, x1, x2, x3] + f == [x0] + ([x1] + ([x2] + ([x3] + f)))
  {
  }

  lemma ConsFive<T>(x0: T, x1: T, x2: T, x3: T, x4: T, f: seq<T>)
    ensures [x0, x1, x2, x3, x4] + f == [x0] + ([x1, x2, x3, x4] + f)
  {
  }

  lemma ConsSeven<T>(x0: T, x1: T, x2: T, x3: T, x4: T, x5: T, x6: T, f: seq<T>)
    ensures [x0, x1, x2, x3, x4, x5, x6] + f == [x0, x1, x2, x3] + ([x4] + ([x5] + ([x6] + f)))
  {
    AppendAssoc([x0, x1, x2, x3], [x4, x5, x6], f);
    assert [x0, x1, x2, x3] + [x4, x5, x6] == [x0, x1, x2, x3, x4, x5, x6];
    assert [x4, x5, x6] + f == [x4] + ([x5] + ([x6] + f));
  }

  lemma ConsSingles<T>(x0: T, x1: T, x2: T, x3: T, x4: T)
    ensures [x0, x1, x2, x3] + [x4] == [x0] + ([x1] + ([x2] + ([x3] + [x4])))
    ensures [x0, x1, x2, x3] + [x4] == [x0, x1, x2, x3, x4]
  {
  }
}
