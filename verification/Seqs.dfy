/** The few sequence operations that the linked lists of a partition map refine to. */
module Seqs {

  /** No element occurs twice. */
  ghost predicate NoDup<T>(s: seq<T>) {
    forall i, j :: 0 <= i < j < |s| ==> s[i] != s[j]
  }

  function InsertAt<T>(s: seq<T>, k: nat, x: T): (r: seq<T>)
    requires k <= |s|
    ensures |r| == |s| + 1
  {
    s[..k] + [x] + s[k..]
  }

  function RemoveAt<T>(s: seq<T>, k: nat): (r: seq<T>)
    requires k < |s|
    ensures |r| == |s| - 1
  {
    s[..k] + s[k + 1..]
  }

  ghost function IndexOf<T>(s: seq<T>, x: T): (k: nat)
    requires x in Elements(s)
    ensures k < |s| && s[k] == x
  {
    ElementIn(s, x);
    var k :| 0 <= k < |s| && s[k] == x;
    k
  }

  ghost function Without<T>(s: seq<T>, x: T): (r: seq<T>)
    requires x in Elements(s)
    ensures |r| == |s| - 1
  {
    RemoveAt(s, IndexOf(s, x))
  }

  /** How many leading keys are below `k`: where a sorted list takes a new key. */
  function FirstAtLeast(keys: seq<int>, k: int): (p: nat)
    ensures p <= |keys|
    ensures forall j :: 0 <= j < p ==> keys[j] < k
    ensures p < |keys| ==> k <= keys[p]
  {
    if keys == [] || k <= keys[0] then 0 else 1 + FirstAtLeast(keys[1..], k)
  }

  lemma FirstAtLeastUnique(keys: seq<int>, k: int, p: nat)
    requires p <= |keys|
    requires forall j :: 0 <= j < p ==> keys[j] < k
    requires p < |keys| ==> k <= keys[p]
    ensures FirstAtLeast(keys, k) == p
  {
  }

  ghost function Elements<T>(s: seq<T>): set<T> {
    ElementsTo(s, |s|)
  }

  ghost function ElementsTo<T>(s: seq<T>, n: nat): set<T>
    requires n <= |s|
  {
    if n == 0 then {} else ElementsTo(s, n - 1) + {s[n - 1]}
  }

  lemma ElementsToAre<T>(s: seq<T>, n: nat)
    requires n <= |s|
    ensures ElementsTo(s, n) == set i | 0 <= i < n :: s[i]
  {
  }

  lemma ElementsAre<T>(s: seq<T>)
    ensures Elements(s) == set x | x in s
  {
    ElementsToAre(s, |s|);
  }

  lemma ElementIn<T>(s: seq<T>, x: T)
    ensures x in Elements(s) <==> x in s
  {
    ElementsAre(s);
  }

  lemma ElementAt<T>(s: seq<T>, i: nat)
    requires i < |s|
    ensures s[i] in Elements(s)
  {
    ElementIn(s, s[i]);
  }

  lemma InsertNoDup<T>(s: seq<T>, k: nat, x: T)
    requires NoDup(s) && k <= |s| && x !in Elements(s)
    ensures NoDup(InsertAt(s, k, x))
    ensures Elements(InsertAt(s, k, x)) == Elements(s) + {x}
  {
    var r := InsertAt(s, k, x);
    ElementIn(s, x);
    assert r == s[..k] + [x] + s[k..] && s == s[..k] + s[k..];
    ElementsAre(s);
    ElementsAre(r);
  }

  lemma RemoveNoDup<T>(s: seq<T>, k: nat)
    requires NoDup(s) && k < |s|
    ensures s[k] in Elements(s)
    ensures NoDup(RemoveAt(s, k))
    ensures Elements(RemoveAt(s, k)) == Elements(s) - {s[k]}
  {
    var r := RemoveAt(s, k);
    assert r == s[..k] + s[k + 1..] && s == s[..k] + [s[k]] + s[k + 1..];
    ElementsAre(s);
    ElementsAre(r);
  }

  lemma NoDupEmpty<T>()
    ensures NoDup<T>([])
  {
  }

  lemma NoDupFew<T>(x: T, y: T)
    ensures NoDup([x]) && (x != y ==> NoDup([x, y]))
    ensures Elements([x]) == {x} && Elements([x, y]) == {x, y}
  {
    ElementsAre([x]);
    ElementsAre([x, y]);
  }

  lemma IndexOfAt<T>(s: seq<T>, i: nat)
    requires NoDup(s) && i < |s|
    ensures s[i] in Elements(s) && IndexOf(s, s[i]) == i
  {
    ElementAt(s, i);
  }
}
