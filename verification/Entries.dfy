/**
 The entries of a partition map and their two pairs of list links
 (struct partition_map).
 */
module Entries {
  import opened Seqs
  import opened MapModel

  /** One entry; its disk buffer is held by value. */
  class Entry {
    var nextOnDisk: Entry?
    var prevOnDisk: Entry?
    var nextByBase: Entry?
    var prevByBase: Entry?
    var diskAddress: int
    var mapEntries: nat  // dpme_map_entries, the buffer field that depends on the whole map
    var data: Dpme

    constructor (data: Dpme, mapEntries: nat, address: int)
      ensures this.data == data && this.mapEntries == mapEntries && diskAddress == address
      ensures nextOnDisk == null && prevOnDisk == null && nextByBase == null && prevByBase == null
    {
      this.data, this.mapEntries, diskAddress := data, mapEntries, address;
      nextOnDisk, prevOnDisk, nextByBase, prevByBase := null, null, null, null;
    }
  }

  /** The element at position `i`, or null beyond either end. */
  ghost function At(s: seq<Entry>, i: int): Entry? {
    if 0 <= i < |s| then s[i] else null
  }

  /** The disk links thread exactly `s` from `first` on, in both directions. */
  ghost predicate OnDisk(first: Entry?, s: seq<Entry>)
    reads s`nextOnDisk, s`prevOnDisk
  {
    && first == At(s, 0)
    && (forall i {:trigger s[i].nextOnDisk} :: 0 <= i < |s| ==> s[i].nextOnDisk == At(s, i + 1))
    && (forall i {:trigger s[i].prevOnDisk} :: 0 <= i < |s| ==> s[i].prevOnDisk == At(s, i - 1))
  }

  /** The base links thread exactly `s` from `first` on, in both directions. */
  ghost predicate ByBase(first: Entry?, s: seq<Entry>)
    reads s`nextByBase, s`prevByBase
  {
    && first == At(s, 0)
    && (forall i {:trigger s[i].nextByBase} :: 0 <= i < |s| ==> s[i].nextByBase == At(s, i + 1))
    && (forall i {:trigger s[i].prevByBase} :: 0 <= i < |s| ==> s[i].prevByBase == At(s, i - 1))
  }

  /** The entries carry exactly these disk addresses. */
  ghost predicate Addressed(s: seq<Entry>, keys: seq<int>)
    reads s`diskAddress
  {
    |keys| == |s| && forall j :: 0 <= j < |s| ==> s[j].diskAddress == keys[j]
  }

  lemma AddressedInsert(s: seq<Entry>, keys: seq<int>, k: nat, e: Entry)
    requires Addressed(s, keys) && k <= |s|
    ensures Addressed(InsertAt(s, k, e), InsertAt(keys, k, e.diskAddress))
  {
  }

  // A list stays threaded when the links around an inserted or removed entry
  // are redirected and all others are as they were.

  lemma InsertedOnDisk(s: seq<Entry>, k: nat, e: Entry)
    requires k <= |s|
    requires forall j {:trigger s[j].nextOnDisk} :: 0 <= j < |s| && j + 1 != k ==> s[j].nextOnDisk == At(s, j + 1)
    requires forall j {:trigger s[j].prevOnDisk} :: 0 <= j < |s| && j != k ==> s[j].prevOnDisk == At(s, j - 1)
    requires e.nextOnDisk == At(s, k) && e.prevOnDisk == At(s, k - 1)
    requires (0 < k ==> s[k - 1].nextOnDisk == e) && (k < |s| ==> s[k].prevOnDisk == e)
    ensures OnDisk(At(InsertAt(s, k, e), 0), InsertAt(s, k, e))
  {
    var r := InsertAt(s, k, e);
    forall i | 0 <= i < |r| ensures r[i].nextOnDisk == At(r, i + 1) && r[i].prevOnDisk == At(r, i - 1) {
      assert i != k ==> r[i] == s[if i < k then i else i - 1];
    }
  }

  lemma InsertedByBase(s: seq<Entry>, k: nat, e: Entry)
    requires k <= |s|
    requires forall j {:trigger s[j].nextByBase} :: 0 <= j < |s| && j + 1 != k ==> s[j].nextByBase == At(s, j + 1)
    requires forall j {:trigger s[j].prevByBase} :: 0 <= j < |s| && j != k ==> s[j].prevByBase == At(s, j - 1)
    requires e.nextByBase == At(s, k) && e.prevByBase == At(s, k - 1)
    requires (0 < k ==> s[k - 1].nextByBase == e) && (k < |s| ==> s[k].prevByBase == e)
    ensures ByBase(At(InsertAt(s, k, e), 0), InsertAt(s, k, e))
  {
    var r := InsertAt(s, k, e);
    forall i | 0 <= i < |r| ensures r[i].nextByBase == At(r, i + 1) && r[i].prevByBase == At(r, i - 1) {
      assert i != k ==> r[i] == s[if i < k then i else i - 1];
    }
  }

  lemma RemovedOnDisk(s: seq<Entry>, k: nat)
    requires k < |s|
    requires forall j {:trigger s[j].nextOnDisk} :: 0 <= j < |s| && j != k && j + 1 != k ==>
      s[j].nextOnDisk == At(s, j + 1)
    requires forall j {:trigger s[j].prevOnDisk} :: 0 <= j < |s| && j != k && j != k + 1 ==>
      s[j].prevOnDisk == At(s, j - 1)
    requires 0 < k ==> s[k - 1].nextOnDisk == At(s, k + 1)
    requires k + 1 < |s| ==> s[k + 1].prevOnDisk == At(s, k - 1)
    ensures OnDisk(At(RemoveAt(s, k), 0), RemoveAt(s, k))
  {
    var r := RemoveAt(s, k);
    forall i | 0 <= i < |r| ensures r[i].nextOnDisk == At(r, i + 1) && r[i].prevOnDisk == At(r, i - 1) {
      assert r[i] == s[if i < k then i else i + 1];
      assert i + 1 < |r| ==> r[i + 1] == s[if i + 1 < k then i + 1 else i + 2];
      assert 0 < i ==> r[i - 1] == s[if i - 1 < k then i - 1 else i];
    }
  }

  lemma RemovedByBase(s: seq<Entry>, k: nat)
    requires k < |s|
    requires forall j {:trigger s[j].nextByBase} :: 0 <= j < |s| && j != k && j + 1 != k ==>
      s[j].nextByBase == At(s, j + 1)
    requires forall j {:trigger s[j].prevByBase} :: 0 <= j < |s| && j != k && j != k + 1 ==>
      s[j].prevByBase == At(s, j - 1)
    requires 0 < k ==> s[k - 1].nextByBase == At(s, k + 1)
    requires k + 1 < |s| ==> s[k + 1].prevByBase == At(s, k - 1)
    ensures ByBase(At(RemoveAt(s, k), 0), RemoveAt(s, k))
  {
    var r := RemoveAt(s, k);
    forall i | 0 <= i < |r| ensures r[i].nextByBase == At(r, i + 1) && r[i].prevByBase == At(r, i - 1) {
      assert r[i] == s[if i < k then i else i + 1];
      assert i + 1 < |r| ==> r[i + 1] == s[if i + 1 < k then i + 1 else i + 2];
      assert 0 < i ==> r[i - 1] == s[if i - 1 < k then i - 1 else i];
    }
  }
}
