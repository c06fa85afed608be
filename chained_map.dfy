/**
  The chained hash map of `Dsa/search.py`: `size` buckets, each a list of
  `[key, value]` pairs; a key lives in bucket `key % size`, inserting an existing
  key overwrites its value where it stands, and a new key is appended.
*/
module ChainedMap {
  import opened Options

  type Bucket = seq<(int, string)>

  /** The value of the first pair with the key, as `search` reports it. */
  function Lookup(bucket: Bucket, key: int): (r: Option<string>)
    ensures r.Some? ==> (key, r.value) in bucket
    ensures r.None? <==> forall i :: 0 <= i < |bucket| ==> bucket[i].0 != key
  {
    if bucket == [] then None
    else if bucket[0].0 == key then Some(bucket[0].1)
    else Lookup(bucket[1..], key)
  }

  /** No key appears twice in the bucket. */
  predicate UniqueKeys(bucket: Bucket) {
    forall i, j :: 0 <= i < j < |bucket| ==> bucket[i].0 != bucket[j].0
  }

  /** The position of the first pair with the key, or `|bucket|` when there is none. */
  function IndexOf(bucket: Bucket, key: int): (j: nat)
    ensures j <= |bucket|
    ensures j < |bucket| ==> bucket[j].0 == key
    ensures forall i :: 0 <= i < j ==> bucket[i].0 != key
  {
    if bucket == [] then 0
    else if bucket[0].0 == key then 0
    else IndexOf(bucket[1..], key) + 1
  }

  /**
    What `insert` does to a bucket: the first pair with the key gets the new value in
    place, or the pair is appended when the key is new.
  */
  function Put(bucket: Bucket, key: int, value: string): (r: Bucket)
    ensures |r| == if Lookup(bucket, key).Some? then |bucket| else |bucket| + 1
    ensures Lookup(r, key) == Some(value)
    ensures forall k :: k != key ==> Lookup(r, k) == Lookup(bucket, k)
    ensures UniqueKeys(bucket) ==> UniqueKeys(r)
  {
    var j := IndexOf(bucket, key);
    if j < |bucket| then
      var r := bucket[j := (key, value)];
      LookupUpdate(bucket, j, key, value);
      r
    else
      LookupAppend(bucket, key, value);
      bucket + [(key, value)]
  }

  lemma {:induction false} LookupUpdate(bucket: Bucket, j: nat, key: int, value: string)
    requires j < |bucket| && bucket[j].0 == key
    requires forall i :: 0 <= i < j ==> bucket[i].0 != key
    ensures Lookup(bucket[j := (key, value)], key) == Some(value)
    ensures forall k :: k != key ==> Lookup(bucket[j := (key, value)], k) == Lookup(bucket, k)
  {
    if j > 0 {
      LookupUpdate(bucket[1..], j - 1, key, value);
      assert bucket[j := (key, value)][1..] == bucket[1..][j - 1 := (key, value)];
    }
  }

  lemma {:induction false} LookupAppend(bucket: Bucket, key: int, value: string)
    requires forall i :: 0 <= i < |bucket| ==> bucket[i].0 != key
    ensures Lookup(bucket + [(key, value)], key) == Some(value)
    ensures forall k :: k != key ==> Lookup(bucket + [(key, value)], k) == Lookup(bucket, k)
  {
    if bucket != [] {
      LookupAppend(bucket[1..], key, value);
      assert (bucket + [(key, value)])[1..] == bucket[1..] + [(key, value)];
    }
  }

  /** `HashTable`. */
  class HashTable {
    const size: nat
    const table: array<Bucket>

    /** `size` buckets; every pair sits in bucket `key % size`; keys are unique per bucket. */
    ghost predicate Valid()
      reads this, table
    {
      table.Length == size
      && (forall i, k :: 0 <= i < size && 0 <= k < |table[i]| ==> table[i][k].0 % size == i)
      && (forall i :: 0 <= i < size ==> UniqueKeys(table[i]))
    }

    /** `__init__`: `size` empty buckets. */
    constructor (size: nat)
      ensures Valid() && this.size == size && fresh(table)
      ensures forall i :: 0 <= i < size ==> table[i] == []
    {
      this.size := size;
      table := new Bucket[size](_ => []);
    }

    /** `hash_function`: a bucket index for a table with at least one bucket. */
    function HashFunction(key: int): (index: int)
      requires size > 0
      ensures 0 <= index < size
    {
      key % size
    }

    /** `insert`: `updated` tells an overwrite of an existing key from an append. */
    method Insert(key: int, value: string) returns (updated: bool)
      requires Valid() && size > 0
      modifies table
      ensures Valid()
      ensures table[..] == old(table[..])[HashFunction(key) := Put(old(table[HashFunction(key)]), key, value)]
      ensures updated <==> Lookup(old(table[HashFunction(key)]), key).Some?
    {
      var index := HashFunction(key);
      var bucket := table[index];
      var j := 0;
      while j < |bucket|
        invariant 0 <= j <= |bucket|
        invariant forall i :: 0 <= i < j ==> bucket[i].0 != key
      {
        if bucket[j].0 == key {
          assert IndexOf(bucket, key) == j;
          table[index] := bucket[j := (key, value)];
          return true;
        }
        j := j + 1;
      }
      assert IndexOf(bucket, key) == |bucket|;
      table[index] := bucket + [(key, value)];
      return false;
    }

    /** `search`: the value stored under the key, looking only in the key's bucket. */
    method Search(key: int) returns (found: Option<string>)
      requires Valid() && size > 0
      ensures found == Lookup(table[HashFunction(key)], key)
      ensures found.None? <==> forall i, k :: 0 <= i < size && 0 <= k < |table[i]| ==> table[i][k].0 != key
    {
      var index := HashFunction(key);
      var bucket := table[index];
      var j := 0;
      while j < |bucket|
        invariant 0 <= j <= |bucket|
        invariant Lookup(bucket[j..], key) == Lookup(bucket, key)
      {
        if bucket[j].0 == key {
          return Some(bucket[j].1);
        }
        assert bucket[j..][1..] == bucket[j + 1..];
        j := j + 1;
      }
      return None;
    }
  }

  /** After `insert(k, v)`, `search(k)` finds `v`, and every other key reads as before. */
  lemma InsertThenSearch(bucket: Bucket, key: int, value: string, other: int)
    requires other != key
    ensures Lookup(Put(bucket, key, value), key) == Some(value)
    ensures Lookup(Put(bucket, key, value), other) == Lookup(bucket, other)
  {
  }

  /** Inserting the same pair twice is the same as inserting it once. */
  lemma PutIdempotent(bucket: Bucket, key: int, value: string)
    ensures Put(Put(bucket, key, value), key, value) == Put(bucket, key, value)
  {
    var once := Put(bucket, key, value);
    var j0 := IndexOf(bucket, key);
    assert once[j0] == (key, value);
    assert forall i :: 0 <= i < j0 ==> once[i] == bucket[i];
    assert IndexOf(once, key) == j0;
  }
}
