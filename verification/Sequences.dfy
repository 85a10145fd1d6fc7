/** Sequence vocabulary shared by the other modules. */
module Sequences {

  datatype Option<+T> = None | Some(value: T)

  function Min(a: int, b: int): int {
    if a <= b then a else b
  }

  function Max(a: int, b: int): int {
    if a >= b then a else b
  }

  lemma Assoc<T>(a: seq<T>, b: seq<T>, c: seq<T>)
    ensures (a + b) + c == a + (b + c)
  {
  }

  /** The concatenation of a sequence of sequences. */
  function Flatten<T>(ss: seq<seq<T>>): seq<T> {
    if ss == [] then [] else ss[0] + Flatten(ss[1..])
  }

  lemma {:induction false} FlattenConcat<T>(a: seq<seq<T>>, b: seq<seq<T>>)
    ensures Flatten(a + b) == Flatten(a) + Flatten(b)
  {
    if a == [] {
      assert a + b == b;
    } else {
      assert (a + b)[1..] == a[1..] + b;
      FlattenConcat(a[1..], b);
    }
  }

  lemma FlattenSnoc<T>(a: seq<seq<T>>, x: seq<T>)
    ensures Flatten(a + [x]) == Flatten(a) + x
  {
    FlattenConcat(a, [x]);
    assert Flatten([x]) == x + Flatten<T>([]);
  }

  ghost predicate NoDup<T>(s: seq<T>) {
    forall i, j :: 0 <= i < j < |s| ==> s[i] != s[j]
  }

  /** The list without its first occurrence of x; the list itself when x is not on it. */
  function Without<T(==)>(s: seq<T>, x: T): (r: seq<T>)
    ensures x !in s ==> r == s
    ensures x in s ==> |r| == |s| - 1
    ensures forall i :: 0 <= i < |r| ==> r[i] in s
  {
    if s == [] then [] else if s[0] == x then s[1..] else [s[0]] + Without(s[1..], x)
  }

  lemma {:induction false} WithoutMembers<T>(s: seq<T>, x: T)
    requires NoDup(s)
    ensures NoDup(Without(s, x))
    ensures forall y :: y in Without(s, x) <==> y in s && y != x
  {
    if s != [] {
      assert NoDup(s[1..]);
      assert s == [s[0]] + s[1..];
      assert s[0] !in s[1..];
      WithoutMembers(s[1..], x);
    }
  }

  /** The length of the longest all-true prefix. */
  function TruePrefix(flags: seq<bool>): (n: nat)
    ensures n <= |flags|
    ensures forall i :: 0 <= i < n ==> flags[i]
    ensures n < |flags| ==> !flags[n]
  {
    if flags == [] || !flags[0] then 0 else 1 + TruePrefix(flags[1..])
  }

  lemma TruePrefixUnique(flags: seq<bool>, n: nat)
    requires n <= |flags|
    requires forall i :: 0 <= i < n ==> flags[i]
    requires n < |flags| ==> !flags[n]
    ensures TruePrefix(flags) == n
  {
  }
}
