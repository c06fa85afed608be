/**
  The separate-chaining voter table of `n.py`: a fixed number of slots, each a
  list of voter records, keyed by house number (`house_no % size`). Voter IDs are
  not the key, so search and delete scan every slot in order, and every chain
  from its front, and act on the first record with the ID.
*/
module VoterTable {
  import opened Options

  /** One voter record (the dict built by `insert_record`). */
  datatype VoterRecord = VoterRecord(houseNo: int, id: int, name: string, address: string, age: int, members: int)

  /** The index of the first record in `chain` with the ID, or -1. */
  function FindInChain(chain: seq<VoterRecord>, id: int): (j: int)
    ensures -1 <= j < |chain|
    ensures j >= 0 ==> chain[j].id == id && forall k :: 0 <= k < j ==> chain[k].id != id
    ensures j == -1 ==> forall k :: 0 <= k < |chain| ==> chain[k].id != id
  {
    if chain == [] then -1
    else if chain[0].id == id then 0
    else
      var j := FindInChain(chain[1..], id);
      if j == -1 then -1 else j + 1
  }

  /** The first (slot, position) holding the ID, scanning slots from `from` upwards. */
  function FirstMatchFrom(slots: seq<seq<VoterRecord>>, id: int, from: nat): (r: Option<(int, int)>)
    ensures r.Some? ==> from <= r.value.0 < |slots| && 0 <= r.value.1 < |slots[r.value.0]|
    ensures r.Some? ==> slots[r.value.0][r.value.1].id == id
    decreases |slots| - from
  {
    if from >= |slots| then None
    else
      var j := FindInChain(slots[from], id);
      if j >= 0 then Some((from, j)) else FirstMatchFrom(slots, id, from + 1)
  }

  /** The record search and delete act on: the first in slot-then-chain order. */
  function FirstMatch(slots: seq<seq<VoterRecord>>, id: int): (r: Option<(int, int)>)
    ensures r.Some? ==> 0 <= r.value.0 < |slots| && 0 <= r.value.1 < |slots[r.value.0]|
    ensures r.Some? ==> slots[r.value.0][r.value.1].id == id
  {
    FirstMatchFrom(slots, id, 0)
  }

  /** Whether some record in some slot has the ID. */
  ghost predicate HasId(slots: seq<seq<VoterRecord>>, id: int) {
    exists i, k :: 0 <= i < |slots| && 0 <= k < |slots[i]| && slots[i][k].id == id
  }

  /** `(slot, position)` holds the ID and no record before it in slot-then-chain order does. */
  ghost predicate IsFirstMatch(slots: seq<seq<VoterRecord>>, id: int, i: int, j: int) {
    0 <= i < |slots| && 0 <= j < |slots[i]| && slots[i][j].id == id
    && (forall i', k :: 0 <= i' < i && 0 <= k < |slots[i']| ==> slots[i'][k].id != id)
    && (forall k :: 0 <= k < j ==> slots[i][k].id != id)
  }

  lemma {:induction false} FirstMatchFromSpec(slots: seq<seq<VoterRecord>>, id: int, from: nat)
    requires from <= |slots|
    requires forall i', k :: 0 <= i' < from && 0 <= k < |slots[i']| ==> slots[i'][k].id != id
    ensures FirstMatchFrom(slots, id, from).Some? ==>
              IsFirstMatch(slots, id, FirstMatchFrom(slots, id, from).value.0, FirstMatchFrom(slots, id, from).value.1)
    ensures FirstMatchFrom(slots, id, from).None? <==> !HasId(slots, id)
    decreases |slots| - from
  {
    if from < |slots| && FindInChain(slots[from], id) == -1 {
      FirstMatchFromSpec(slots, id, from + 1);
    }
  }

  /**
    Search and delete find the first record with the ID in slot-then-chain order,
    and find nothing exactly when no record has the ID.
  */
  lemma FirstMatchSpec(slots: seq<seq<VoterRecord>>, id: int)
    ensures FirstMatch(slots, id).Some? ==> IsFirstMatch(slots, id, FirstMatch(slots, id).value.0, FirstMatch(slots, id).value.1)
    ensures FirstMatch(slots, id).None? <==> !HasId(slots, id)
  {
    FirstMatchFromSpec(slots, id, 0);
  }

  /** `del chain[j]`: the record at `j` goes, the others keep their order. */
  function RemoveAt(chain: seq<VoterRecord>, j: int): (r: seq<VoterRecord>)
    requires 0 <= j < |chain|
    ensures |r| == |chain| - 1
    ensures forall k :: 0 <= k < j ==> r[k] == chain[k]
    ensures forall k :: j <= k < |r| ==> r[k] == chain[k + 1]
  {
    chain[..j] + chain[j + 1..]
  }

  /** The number of records in the table. */
  function Count(slots: seq<seq<VoterRecord>>): nat {
    if slots == [] then 0 else |slots[0]| + Count(slots[1..])
  }

  /** Replacing one slot's chain changes the record count by the difference in lengths. */
  lemma {:induction false} CountUpdate(slots: seq<seq<VoterRecord>>, i: int, chain: seq<VoterRecord>)
    requires 0 <= i < |slots|
    ensures Count(slots[i := chain]) == Count(slots) - |slots[i]| + |chain|
  {
    if i > 0 {
      CountUpdate(slots[1..], i - 1, chain);
      assert slots[i := chain][1..] == slots[1..][i - 1 := chain];
    }
  }

  /** Insertion adds one record; deleting a found record removes one. */
  lemma InsertAndDeleteCounts(slots: seq<seq<VoterRecord>>, i: int, r: VoterRecord, j: int)
    requires 0 <= i < |slots| && 0 <= j < |slots[i]|
    ensures Count(slots[i := slots[i] + [r]]) == Count(slots) + 1
    ensures Count(slots[i := RemoveAt(slots[i], j)]) == Count(slots) - 1
  {
    CountUpdate(slots, i, slots[i] + [r]);
    CountUpdate(slots, i, RemoveAt(slots[i], j));
  }

  /** Deleting an ID that is in no record leaves the table as it was. */
  lemma AbsentIdDeletesNothing(slots: seq<seq<VoterRecord>>, id: int)
    requires !HasId(slots, id)
    ensures FirstMatch(slots, id) == None
  {
    FirstMatchSpec(slots, id);
  }

  /** `VoterRecordHashTable`. */
  /** Every record sits in slot `house_no % len(slots)`. */
  ghost predicate Placed(slots: seq<seq<VoterRecord>>) {
    forall i, k :: 0 <= i < |slots| && 0 <= k < |slots[i]| ==> slots[i][k].houseNo % |slots| == i
  }

  /** Removing a record keeps every other record in its slot. */
  lemma RemoveKeepsPlaced(slots: seq<seq<VoterRecord>>, i: int, j: int)
    requires Placed(slots) && 0 <= i < |slots| && 0 <= j < |slots[i]|
    ensures Placed(slots[i := RemoveAt(slots[i], j)])
  {
    var after: seq<seq<VoterRecord>> := slots[i := RemoveAt(slots[i], j)];
    forall i': int, k: int | 0 <= i' < |after| && 0 <= k < |after[i']| ensures after[i'][k].houseNo % |after| == i' {
      if i' == i {
        assert after[i'][k] == slots[i][if k < j then k else k + 1];
      }
    }
  }

  class VoterRecordHashTable {
    const size: nat
    const hashTable: array<seq<VoterRecord>>

    /** There are `size` slots and every record sits in slot `house_no % size`. */
    ghost predicate Valid()
      reads this, hashTable
    {
      hashTable.Length == size && Placed(hashTable[..])
    }

    /** `__init__`: `size` empty slots. */
    constructor (size: nat)
      ensures Valid() && this.size == size && fresh(hashTable)
      ensures forall i :: 0 <= i < size ==> hashTable[i] == []
    {
      this.size := size;
      hashTable := new seq<VoterRecord>[size](_ => []);
    }

    /** `_hash_key`: `house_no % size`, always a slot index. */
    function HashKey(houseNo: int): (slot: int)
      requires size > 0
      ensures 0 <= slot < size
    {
      houseNo % size
    }

    /**
      `insert_record`: the record goes to the end of its house's chain, whether or not
      its voter ID is already present; `collision` says whether the chain was non-empty.
    */
    method InsertRecord(houseNo: int, voterId: int, name: string, address: string, members: int, age: int)
      returns (collision: bool)
      requires Valid() && size > 0
      modifies hashTable
      ensures Valid()
      ensures hashTable[..] == old(hashTable[..])[HashKey(houseNo) := old(hashTable[HashKey(houseNo)])
                                                   + [VoterRecord(houseNo, voterId, name, address, age, members)]]
      ensures collision == (old(hashTable[HashKey(houseNo)]) != [])
    {
      var location := HashKey(houseNo);
      collision := hashTable[location] != [];
      var record := VoterRecord(houseNo, voterId, name, address, age, members);
      hashTable[location] := hashTable[location] + [record];
    }

    /** `search_record_by_id`: the slot and the record first found, or nothing. */
    method SearchRecordById(voterId: int) returns (found: Option<(int, VoterRecord)>)
      requires Valid()
      ensures FirstMatch(hashTable[..], voterId).None? ==> found.None?
      ensures FirstMatch(hashTable[..], voterId).Some? ==>
                var (i, j) := FirstMatch(hashTable[..], voterId).value;
                found == Some((i, hashTable[i][j]))
    {
      ghost var slots := hashTable[..];
      var i := 0;
      while i < size
        invariant 0 <= i <= size
        invariant FirstMatchFrom(slots, voterId, i) == FirstMatch(slots, voterId)
      {
        var chain := hashTable[i];
        var j := 0;
        while j < |chain|
          invariant 0 <= j <= |chain|
          invariant forall k :: 0 <= k < j ==> chain[k].id != voterId
        {
          if chain[j].id == voterId {
            assert FindInChain(chain, voterId) == j;
            return Some((i, chain[j]));
          }
          j := j + 1;
        }
        i := i + 1;
      }
      return None;
    }

    /** `delete_record_by_id`: the first record with the ID is removed from its chain. */
    method DeleteRecordById(voterId: int) returns (deleted: bool)
      requires Valid()
      modifies hashTable
      ensures Valid()
      ensures FirstMatch(old(hashTable[..]), voterId).None? ==> !deleted && hashTable[..] == old(hashTable[..])
      ensures FirstMatch(old(hashTable[..]), voterId).Some? ==>
                var (i, j) := FirstMatch(old(hashTable[..]), voterId).value;
                deleted && hashTable[..] == old(hashTable[..])[i := RemoveAt(old(hashTable[i]), j)]
    {
      ghost var slots := hashTable[..];
      var i := 0;
      while i < size
        invariant 0 <= i <= size
        invariant hashTable[..] == slots
        invariant FirstMatchFrom(slots, voterId, i) == FirstMatch(slots, voterId)
      {
        var chain := hashTable[i];
        var j := 0;
        while j < |chain|
          invariant 0 <= j <= |chain|
          invariant forall k :: 0 <= k < j ==> chain[k].id != voterId
        {
          if chain[j].id == voterId {
            assert FindInChain(chain, voterId) == j;
            assert FirstMatch(slots, voterId) == Some((i, j));
            hashTable[i] := RemoveAt(chain, j);
            assert hashTable[..] == slots[i := RemoveAt(slots[i], j)];
            RemoveKeepsPlaced(slots, i, j);
            return true;
          }
          j := j + 1;
        }
        i := i + 1;
      }
      return false;
    }
  }
}
