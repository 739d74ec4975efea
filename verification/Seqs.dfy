/** Sequences without repetition, and optional values: shared by the other modules. */
module Seqs {

  datatype Option<T> = None | Some(value: T)

  /** No element occurs twice. */
  predicate NoDup(s: seq<nat>) {
    s == [] || (s[0] !in s[1..] && NoDup(s[1..]))
  }

  lemma {:induction false} NoDupAt(s: seq<nat>)
    ensures NoDup(s) <==> forall i, j :: 0 <= i < j < |s| ==> s[i] != s[j]
    decreases |s|
  {
    if s != [] {
      NoDupAt(s[1..]);
      if NoDup(s) {
        forall i, j | 0 <= i < j < |s| ensures s[i] != s[j] {
          assert s[j] == s[1..][j - 1] && (i > 0 ==> s[i] == s[1..][i - 1]);
        }
      } else {
        assert forall i :: 0 <= i < |s[1..]| ==> s[1..][i] == s[i + 1];
      }
    }
  }

  lemma {:induction false} NoDupAppend(a: seq<nat>, b: seq<nat>)
    ensures NoDup(a + b) <==> NoDup(a) && NoDup(b) && forall x :: x in a ==> x !in b
    decreases |a|
  {
    if a == [] {
      assert a + b == b;
    } else {
      assert (a + b)[1..] == a[1..] + b && (a + b)[0] == a[0];
      NoDupAppend(a[1..], b);
      assert forall x :: x in a <==> x == a[0] || x in a[1..];
      assert a[0] in a[1..] + b <==> a[0] in a[1..] || a[0] in b;
    }
  }

  lemma {:induction false} NoDupMiddle(a: seq<nat>, x: nat, b: seq<nat>)
    ensures NoDup(a + [x] + b) <==> NoDup(a) && NoDup(b) && x !in a && x !in b && forall y :: y in a ==> y !in b
    ensures NoDup(a + [x] + b) <==> NoDup(a + b) && x !in a && x !in b
  {
    assert a + [x] + b == a + ([x] + b) && ([x] + b)[1..] == b;
    NoDupAppend(a, [x] + b);
    NoDupAppend(a, b);
    assert forall y :: y in [x] + b <==> y == x || y in b;
  }

  /** The sequence without the first occurrence of x, as list_del leaves a list. */
  function Without(s: seq<nat>, x: nat): seq<nat> {
    if s == [] then [] else if s[0] == x then s[1..] else [s[0]] + Without(s[1..], x)
  }

  lemma {:induction false} WithoutMiddle(a: seq<nat>, x: nat, b: seq<nat>)
    requires x !in a
    ensures Without(a + [x] + b, x) == a + b
    decreases |a|
  {
    var s := a + [x] + b;
    if a == [] {
      assert s[1..] == b && a + b == b;
    } else {
      assert s[1..] == a[1..] + [x] + b && s[0] == a[0];
      WithoutMiddle(a[1..], x, b);
      assert a + b == [a[0]] + (a[1..] + b);
    }
  }

  lemma {:induction false} SplitAround(s: seq<nat>, x: nat) returns (a: seq<nat>, b: seq<nat>)
    requires NoDup(s) && x in s
    ensures s == a + [x] + b && x !in a && x !in b && Without(s, x) == a + b
  {
    var i :| 0 <= i < |s| && s[i] == x;
    a, b := s[..i], s[i + 1..];
    assert s == a + [x] + b;
    NoDupMiddle(a, x, b);
    WithoutMiddle(a, x, b);
  }

  lemma {:induction false} WithoutIn(s: seq<nat>, x: nat)
    requires NoDup(s)
    ensures NoDup(Without(s, x)) && (forall y :: y in Without(s, x) <==> y in s && y != x)
    ensures |Without(s, x)| == if x in s then |s| - 1 else |s|
    decreases |s|
  {
    if s != [] {
      WithoutIn(s[1..], x);
      assert forall y :: y in s <==> y == s[0] || y in s[1..];
      if s[0] != x {
        assert ([s[0]] + Without(s[1..], x))[1..] == Without(s[1..], x);
      }
    }
  }

  /** The first index at which `stop` holds; until then `wait` does. */
  lemma {:induction false} FirstStop(n: nat, i: nat, wait: nat -> bool, stop: nat -> bool) returns (k: nat)
    requires i <= n && wait(i) && !wait(n) && forall j :: i <= j < n && wait(j) && !stop(j) ==> wait(j + 1)
    ensures i <= k < n && wait(k) && stop(k) && forall j :: i <= j < k ==> wait(j) && !stop(j)
    decreases n - i
  {
    if stop(i) {
      k := i;
    } else {
      k := FirstStop(n, i + 1, wait, stop);
    }
  }
}
