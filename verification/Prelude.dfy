/** Shared vocabulary: optional values, Python exceptions as results, text order and sorting. */
module Prelude {

  datatype Option<+T> = None | Some(value: T)

  // The exception classes the modelled code raises and its callers tell apart.
  datatype Error = ValueError | KeyError | PermissionError | ZeroDivisionError | RuntimeError | Unavailable

  datatype Result<+T> = Ok(value: T) | Raise(error: Error)

  // The ASCII members of the class of characters that str.strip() removes.
  predicate IsSpace(c: char) {
    var n := c as int;
    9 <= n <= 13 || 28 <= n <= 32
  }

  // value.strip() is not empty.
  predicate NonBlank(s: string) {
    exists i :: 0 <= i < |s| && !IsSpace(s[i])
  }

  // Python's order on strings: by code point, a proper prefix first.
  predicate TextLess(a: string, b: string) {
    if b == "" then false
    else if a == "" then true
    else a[0] < b[0] || (a[0] == b[0] && TextLess(a[1..], b[1..]))
  }

  lemma {:induction false} TextLessTotal(a: string, b: string)
    ensures TextLess(a, b) || TextLess(b, a) || a == b
    ensures !(TextLess(a, b) && TextLess(b, a))
    ensures !TextLess(a, a)
    decreases |a|
  {
    if a != "" && b != "" && a[0] == b[0] {
      TextLessTotal(a[1..], b[1..]);
      assert a == [a[0]] + a[1..] && b == [b[0]] + b[1..];
    }
    if a != "" {
      TextLessTotal(a[1..], a[1..]);
    }
  }

  lemma {:induction false} TextLessTransitive(a: string, b: string, c: string)
    requires TextLess(a, b) && TextLess(b, c)
    ensures TextLess(a, c)
    decreases |a|
  {
    if a != "" && a[0] == b[0] && b[0] == c[0] {
      TextLessTransitive(a[1..], b[1..], c[1..]);
    }
  }

  // a and b agree up to k, where a ends or has the smaller character.
  predicate LessAt(a: string, b: string, k: int) {
    0 <= k <= |a| && k < |b| && a[..k] == b[..k] && (k == |a| || a[k] < b[k])
  }

  lemma {:induction false} TextLessExactly(a: string, b: string)
    ensures TextLess(a, b) <==> exists k :: LessAt(a, b, k)
  {
    if a == "" {
      assert b != "" ==> LessAt(a, b, 0);
    } else if b != "" {
      TextLessExactly(a[1..], b[1..]);
      if k :| LessAt(a[1..], b[1..], k) && a[0] == b[0] {
        assert a[..k + 1] == [a[0]] + a[1..][..k] && b[..k + 1] == [b[0]] + b[1..][..k];
        assert LessAt(a, b, k + 1);
      }
      if a[0] < b[0] {
        assert LessAt(a, b, 0);
      }
      if k :| LessAt(a, b, k) && k > 0 {
        assert a[0] == a[..k][0] && b[0] == b[..k][0];
        assert a[1..][..k - 1] == a[..k][1..] && b[1..][..k - 1] == b[..k][1..];
        assert LessAt(a[1..], b[1..], k - 1);
      }
    }
  }

  // A strict order that tells any two different elements apart.
  ghost predicate StrictTotal<T(!new)>(less: (T, T) -> bool) {
    && (forall x :: !less(x, x))
    && (forall x, y :: less(x, y) || less(y, x) || x == y)
    && (forall x, y, z :: less(x, y) && less(y, z) ==> less(x, z))
  }

  predicate Ascending<T>(less: (T, T) -> bool, s: seq<T>) {
    forall i, j :: 0 <= i < j < |s| ==> less(s[i], s[j])
  }

  predicate Distinct<T(==)>(s: seq<T>) {
    forall i, j :: 0 <= i < j < |s| ==> s[i] != s[j]
  }

  function Insert<T>(less: (T, T) -> bool, x: T, s: seq<T>): seq<T> {
    if s == [] || less(x, s[0]) then [x] + s else [s[0]] + Insert(less, x, s[1..])
  }

  // sorted(...) under a strict total order.
  function Sorted<T>(less: (T, T) -> bool, s: seq<T>): seq<T> {
    if s == [] then [] else Insert(less, s[0], Sorted(less, s[1..]))
  }

  lemma {:induction false} InsertElements<T>(less: (T, T) -> bool, x: T, s: seq<T>)
    ensures multiset(Insert(less, x, s)) == multiset{x} + multiset(s)
    ensures |Insert(less, x, s)| == |s| + 1
  {
    if s == [] || less(x, s[0]) {
    } else {
      InsertElements(less, x, s[1..]);
      assert s == [s[0]] + s[1..];
    }
  }

  lemma {:induction false} InsertAscending<T(!new)>(less: (T, T) -> bool, x: T, s: seq<T>)
    requires StrictTotal(less) && Ascending(less, s) && x !in s
    ensures Ascending(less, Insert(less, x, s))
  {
    if s == [] || less(x, s[0]) {
    } else {
      InsertAscending(less, x, s[1..]);
      InsertElements(less, x, s[1..]);
      var rest := Insert(less, x, s[1..]);
      forall j | 0 <= j < |rest| ensures less(s[0], rest[j]) {
        assert rest[j] in multiset(rest);
        assert rest[j] == x || rest[j] in s[1..];
      }
    }
  }

  lemma {:induction false} SortedElements<T>(less: (T, T) -> bool, s: seq<T>)
    ensures multiset(Sorted(less, s)) == multiset(s)
    ensures |Sorted(less, s)| == |s|
  {
    if s != [] {
      SortedElements(less, s[1..]);
      InsertElements(less, s[0], Sorted(less, s[1..]));
      assert s == [s[0]] + s[1..];
    }
  }

  lemma {:induction false} SortedMembers<T>(less: (T, T) -> bool, s: seq<T>)
    ensures forall x :: x in Sorted(less, s) <==> x in s
  {
    SortedElements(less, s);
    forall x ensures x in Sorted(less, s) <==> x in s {
      assert x in Sorted(less, s) <==> x in multiset(Sorted(less, s));
      assert x in s <==> x in multiset(s);
    }
  }

  lemma {:induction false} SortedAscending<T(!new)>(less: (T, T) -> bool, s: seq<T>)
    requires StrictTotal(less) && Distinct(s)
    ensures Ascending(less, Sorted(less, s))
  {
    if s != [] {
      SortedAscending(less, s[1..]);
      SortedMembers(less, s[1..]);
      assert s[0] !in s[1..];
      InsertAscending(less, s[0], Sorted(less, s[1..]));
    }
  }

  // An ascending sequence is determined by its elements.
  lemma {:induction false} AscendingUnique<T(!new)>(less: (T, T) -> bool, s: seq<T>, t: seq<T>)
    requires StrictTotal(less) && Ascending(less, s) && Ascending(less, t)
    requires forall x :: x in s <==> x in t
    ensures s == t
  {
    assert t != [] ==> t[0] in t;
    if s != [] {
      assert s[0] in t;
      assert t[0] in s;
      var i :| 0 <= i < |t| && t[i] == s[0];
      var j :| 0 <= j < |s| && s[j] == t[0];
      assert s[0] == t[0];
      forall x ensures x in s[1..] <==> x in t[1..] {
        if x in s[1..] {
          var k :| 0 <= k < |s[1..]| && s[1..][k] == x;
          assert less(s[0], x) && x in s;
          var m :| 0 <= m < |t| && t[m] == x;
          assert m != 0;
          assert t[1..][m - 1] == x;
        }
        if x in t[1..] {
          var k :| 0 <= k < |t[1..]| && t[1..][k] == x;
          assert less(t[0], x) && x in t;
          var m :| 0 <= m < |s| && s[m] == x;
          assert m != 0;
          assert s[1..][m - 1] == x;
        }
      }
      AscendingUnique(less, s[1..], t[1..]);
      assert s == [s[0]] + s[1..] && t == [t[0]] + t[1..];
    }
  }

  lemma PrefixSnoc<T>(s: seq<T>, n: nat)
    requires n < |s|
    ensures s[..n + 1] == s[..n] + [s[n]]
  {
  }

  // ---------------------------------------------------------------- runs of a state machine

  function RunFrom<S, A>(step: (S, A) -> S, s: S, actions: seq<A>): S {
    if actions == [] then s
    else step(RunFrom(step, s, actions[..|actions| - 1]), actions[|actions| - 1])
  }

  lemma {:induction false} RunInvariant<S(!new), A(!new)>(step: (S, A) -> S, inv: S -> bool, s: S, actions: seq<A>)
    requires inv(s) && forall x, a :: inv(x) ==> inv(step(x, a))
    ensures inv(RunFrom(step, s, actions))
  {
    if actions != [] {
      RunInvariant(step, inv, s, actions[..|actions| - 1]);
    }
  }

  lemma {:induction false} RunConcat<S, A>(step: (S, A) -> S, s: S, first: seq<A>, rest: seq<A>)
    ensures RunFrom(step, s, first + rest) == RunFrom(step, RunFrom(step, s, first), rest)
    decreases |rest|
  {
    if rest == [] {
      assert first + rest == first;
    } else {
      var all := first + rest;
      assert all[..|all| - 1] == first + rest[..|rest| - 1];
      RunConcat(step, s, first, rest[..|rest| - 1]);
    }
  }

  lemma RunOne<S, A>(step: (S, A) -> S, s: S, a: A)
    ensures RunFrom(step, s, [a]) == step(s, a)
  {
    assert [a][..0] == [];
  }

  lemma RunThen<S, A>(step: (S, A) -> S, s: S, actions: seq<A>, a: A)
    ensures RunFrom(step, s, actions + [a]) == step(RunFrom(step, s, actions), a)
  {
    assert (actions + [a])[..|actions|] == actions;
  }

  predicate HoldsAt<S, A>(step: (S, A) -> S, good: S -> bool, s: S, actions: seq<A>, i: int) {
    0 <= i <= |actions| && good(RunFrom(step, s, actions[..i]))
  }

  predicate BrokenAt<S, A>(step: (S, A) -> S, breaks: (S, A) -> bool, s: S, actions: seq<A>, i: int) {
    0 <= i < |actions| && breaks(RunFrom(step, s, actions[..i]), actions[i])
  }

  predicate HoldsThroughout<S, A>(step: (S, A) -> S, good: S -> bool, s: S, actions: seq<A>) {
    forall i :: 0 <= i <= |actions| ==> HoldsAt(step, good, s, actions, i)
  }

  predicate NeverBroken<S, A>(step: (S, A) -> S, breaks: (S, A) -> bool, s: S, actions: seq<A>) {
    forall i :: 0 <= i < |actions| ==> !BrokenAt(step, breaks, s, actions, i)
  }

  lemma HoldsSnoc<S, A>(step: (S, A) -> S, good: S -> bool, s: S, actions: seq<A>, a: A)
    ensures HoldsThroughout(step, good, s, actions + [a])
       <==> HoldsThroughout(step, good, s, actions) && good(step(RunFrom(step, s, actions), a))
  {
    var all, n := actions + [a], |actions|;
    forall i | 0 <= i <= n ensures HoldsAt(step, good, s, all, i) == HoldsAt(step, good, s, actions, i) {
      assert all[..i] == actions[..i];
    }
    RunThen(step, s, actions, a);
    assert all[..n + 1] == all;
    assert HoldsAt(step, good, s, all, n + 1) == good(step(RunFrom(step, s, actions), a));
  }

  lemma BrokenSnoc<S, A>(step: (S, A) -> S, breaks: (S, A) -> bool, s: S, actions: seq<A>, a: A)
    ensures NeverBroken(step, breaks, s, actions + [a])
       <==> NeverBroken(step, breaks, s, actions) && !breaks(RunFrom(step, s, actions), a)
  {
    var all, n := actions + [a], |actions|;
    forall i | 0 <= i < n ensures BrokenAt(step, breaks, s, all, i) == BrokenAt(step, breaks, s, actions, i) {
      assert all[..i] == actions[..i];
    }
    assert all[..n] == actions;
    assert BrokenAt(step, breaks, s, all, n) == breaks(RunFrom(step, s, actions), a);
  }

  // What every step keeps unless it breaks it holds throughout a run exactly while no step breaks it.
  lemma {:induction false} UnbrokenExactly<S(!new), A(!new)>(
    step: (S, A) -> S, inv: S -> bool, good: S -> bool, breaks: (S, A) -> bool, s: S, actions: seq<A>)
    requires inv(s) && good(s) && forall x, a :: inv(x) ==> inv(step(x, a))
    requires forall x, a :: inv(x) && good(x) ==> (good(step(x, a)) <==> !breaks(x, a))
    ensures HoldsThroughout(step, good, s, actions) <==> NeverBroken(step, breaks, s, actions)
  {
    if actions == [] {
      assert actions[..0] == [];
    } else {
      var init, a := actions[..|actions| - 1], actions[|actions| - 1];
      assert init + [a] == actions;
      UnbrokenExactly(step, inv, good, breaks, s, init);
      HoldsSnoc(step, good, s, init, a);
      BrokenSnoc(step, breaks, s, init, a);
      RunInvariant(step, inv, s, init);
      if HoldsThroughout(step, good, s, init) {
        assert HoldsAt(step, good, s, init, |init|) && init[..|init|] == init;
      }
    }
  }
}
