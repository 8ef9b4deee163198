/** A value or none, and facts about sequences, for all modules. */
module Basics {

  datatype Option<+T> = None | Some(value: T)

  lemma Joined<T>(s: seq<T>, b: nat, m: nat, e: nat)
    requires b <= m <= e <= |s|
    ensures s[b..m] + s[m..e] == s[b..e]
  {
  }

  lemma Regroup<T>(x: seq<T>, y: seq<T>, z: seq<T>)
    ensures (x + y) + z == x + (y + z)
  {
  }

  lemma MultisetWithout<T>(s: seq<T>, k: nat)
    requires k < |s|
    ensures multiset(s) == multiset(s[..k] + s[k + 1..]) + multiset{s[k]}
    ensures multiset(s[..k] + s[k + 1..]) == multiset(s) - multiset{s[k]}
  {
    assert s == s[..k] + ([s[k]] + s[k + 1..]);
  }

  lemma Found<T>(x: T, s: seq<T>) returns (k: nat)
    requires x in multiset(s)
    ensures k < |s| && s[k] == x
  {
    k :| k < |s| && s[k] == x;
  }

  /** Of two lists with the same elements, the first element of the one is found in the other. */
  lemma FirstFound<T>(a: seq<T>, b: seq<T>) returns (k: nat)
    requires multiset(a) == multiset(b) && a != []
    ensures k < |b| && b[k] == a[0] && multiset(a[1..]) == multiset(b[..k] + b[k + 1..])
  {
    k := Found(a[0], b);
    MultisetWithout(b, k);
    MultisetWithout(a, 0);
    assert a[..0] + a[1..] == a[1..];
  }
}
