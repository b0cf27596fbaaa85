/** Small shared vocabulary: an optional value and two facts about sequences. */
module Base {

  /** A value that may be missing: JavaScript's `undefined`/`null` results of `find`. */
  datatype Option<T> = None | Some(value: T)

  /** No element occurs twice. */
  predicate NoDuplicates<T(==)>(s: seq<T>) {
    forall i, j :: 0 <= i < j < |s| ==> s[i] != s[j]
  }

  /** Concatenation regroups; stated once so proofs need not rediscover it element by element. */
  lemma ConcatAssoc<T>(x: seq<T>, y: seq<T>, z: seq<T>)
    ensures x + (y + z) == (x + y) + z
  {
  }

  /** A list with its head split off, then extended. */
  lemma ConsConcat<T>(x: T, t: seq<T>, b: seq<T>)
    ensures ([x] + t) + b == [x] + (t + b)
  {
  }

  /** A nonempty list is its prefix followed by its last element. */
  lemma SnocLast<T>(s: seq<T>)
    requires s != []
    ensures s == s[..|s| - 1] + [s[|s| - 1]]
  {
  }

  /** `a` is obtained from `b` by deleting elements, keeping the order of the rest. */
  predicate IsSubsequence<T(==)>(a: seq<T>, b: seq<T>)
    decreases |b|
  {
    if a == [] then true
    else if b == [] then false
    else if a[0] == b[0] then IsSubsequence(a[1..], b[1..])
    else IsSubsequence(a, b[1..])
  }

  /** Every element of a subsequence is an element of the sequence it came from. */
  lemma {:induction false} SubsequenceMembers<T>(a: seq<T>, b: seq<T>, x: T)
    requires IsSubsequence(a, b) && x in a
    ensures x in b
    decreases |b|
  {
    if a[0] == b[0] {
      if x != a[0] {
        SubsequenceMembers(a[1..], b[1..], x);
      }
    } else {
      SubsequenceMembers(a, b[1..], x);
    }
  }

  /** Prepending one element of `b` to a subsequence of the rest of `b` gives a subsequence of `b`. */
  lemma SubsequenceCons<T>(x: T, a: seq<T>, b: seq<T>)
    requires IsSubsequence(a, b)
    ensures IsSubsequence([x] + a, [x] + b)
  {
    assert ([x] + a)[1..] == a;
    assert ([x] + b)[1..] == b;
  }

  /** Any subsequence of the tail of `b` is a subsequence of `b`. */
  lemma {:induction false} SubsequenceSkip<T>(x: T, a: seq<T>, b: seq<T>)
    requires IsSubsequence(a, b)
    ensures IsSubsequence(a, [x] + b)
    decreases |b|, 1
  {
    assert ([x] + b)[1..] == b;
    if a != [] && a[0] == x {
      SubsequenceDropHead(a, b);
    }
  }

  /** Dropping the first element of a subsequence leaves a subsequence. */
  lemma {:induction false} SubsequenceDropHead<T>(a: seq<T>, b: seq<T>)
    requires a != [] && IsSubsequence(a, b)
    ensures IsSubsequence(a[1..], b)
    decreases |b|, 0
  {
    assert b == [b[0]] + b[1..];
    if a[0] == b[0] {
      SubsequenceSkip(b[0], a[1..], b[1..]);
    } else {
      SubsequenceDropHead(a, b[1..]);
      SubsequenceSkip(b[0], a[1..], b[1..]);
    }
  }

  /** A subsequence of a list without repeats has no repeats either. */
  lemma {:induction false} DistinctSubsequence<T>(a: seq<T>, b: seq<T>)
    requires IsSubsequence(a, b) && NoDuplicates(b)
    ensures NoDuplicates(a)
    decreases |b|
  {
    if a != [] {
      var tb := b[1..];
      assert NoDuplicates(tb) by {
        forall i, j | 0 <= i < j < |tb|
          ensures tb[i] != tb[j]
        {
          assert tb[i] == b[i + 1] && tb[j] == b[j + 1];
        }
      }
      if a[0] == b[0] {
        var ta := a[1..];
        DistinctSubsequence(ta, tb);
        forall i, j | 0 <= i < j < |a|
          ensures a[i] != a[j]
        {
          if i == 0 {
            assert a[j] == ta[j - 1];
            SubsequenceMembers(ta, tb, a[j]);
            var k :| 0 <= k < |tb| && tb[k] == a[j];
            assert b[k + 1] == a[j];
          } else {
            assert a[i] == ta[i - 1] && a[j] == ta[j - 1];
          }
        }
      } else {
        DistinctSubsequence(a, tb);
      }
    }
  }
}
