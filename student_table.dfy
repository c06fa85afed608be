/**
  The 100-slot student cache of `student/management/hashing.py`. A student is
  stored in a dict under `hash(student_id) % 100`, overwriting whoever was in that
  slot. Python's string hash is randomised per process, so the hash is a parameter
  of the table. The dict is modelled as an association list in insertion order,
  which is the order `values()` reports.
*/
module StudentTable {
  import opened Options
  import opened Sets

  datatype Student = Student(studentId: string, name: string, email: string, course: string, age: int)

  /** The dict: (slot, student) pairs in insertion order. */
  type Dict = seq<(int, Student)>

  /** No slot appears twice. */
  predicate UniqueSlots(d: Dict) {
    d == [] || (d[0].0 !in Keys(d[1..]) && UniqueSlots(d[1..]))
  }

  /** The slots in use. */
  function Keys(d: Dict): set<int> {
    if d == [] then {} else {d[0].0} + Keys(d[1..])
  }

  /** `table.get(key, None)`. */
  function Get(d: Dict, key: int): (r: Option<Student>)
    ensures r.Some? ==> (key, r.value) in d
    ensures r.None? <==> forall i :: 0 <= i < |d| ==> d[i].0 != key
  {
    if d == [] then None
    else if d[0].0 == key then Some(d[0].1)
    else Get(d[1..], key)
  }

  /** `table[key] = value`: an existing key keeps its place, a new key goes last. */
  function Assign(d: Dict, key: int, value: Student): (r: Dict)
    ensures Get(r, key) == Some(value)
    ensures forall k :: k != key ==> Get(r, k) == Get(d, k)
    ensures Keys(r) == Keys(d) + {key}
  {
    if d == [] then [(key, value)]
    else if d[0].0 == key then [(key, value)] + d[1..]
    else [d[0]] + Assign(d[1..], key, value)
  }

  /** `del table[key]`. */
  function Remove(d: Dict, key: int): (r: Dict)
    ensures Get(r, key) == None
    ensures forall k :: k != key ==> Get(r, k) == Get(d, k)
    ensures Keys(r) == Keys(d) - {key}
  {
    if d == [] then []
    else if d[0].0 == key then Remove(d[1..], key)
    else [d[0]] + Remove(d[1..], key)
  }

  /** `table.values()`, in insertion order. */
  function Values(d: Dict): (r: seq<Student>)
    ensures |r| == |d|
    ensures forall i :: 0 <= i < |d| ==> r[i] == d[i].1
  {
    if d == [] then [] else [d[0].1] + Values(d[1..])
  }

  /** `hash(student_id) % 100`: always one of the 100 slots. */
  function Slot(hash: string -> int, studentId: string): (k: int)
    ensures 0 <= k < 100
  {
    hash(studentId) % 100
  }

  /** Python's string order `a <= b`: lexicographic by character. */
  predicate NameLe(a: string, b: string) {
    a == [] || (b != [] && (a[0] < b[0] || (a[0] == b[0] && NameLe(a[1..], b[1..]))))
  }

  lemma {:induction false} NameLeTotal(a: string, b: string)
    ensures NameLe(a, b) || NameLe(b, a)
  {
    if a != [] && b != [] && a[0] == b[0] {
      NameLeTotal(a[1..], b[1..]);
    }
  }

  lemma {:induction false} NameLeTransitive(a: string, b: string, c: string)
    requires NameLe(a, b) && NameLe(b, c)
    ensures NameLe(a, c)
  {
    if a != [] && b != [] && c != [] && a[0] == b[0] && b[0] == c[0] {
      NameLeTransitive(a[1..], b[1..], c[1..]);
    }
  }

  /** Non-decreasing by name. */
  predicate SortedByName(s: seq<Student>) {
    forall i, j :: 0 <= i < j < |s| ==> NameLe(s[i].name, s[j].name)
  }

  /** Places `x` before the first student whose name is not smaller. */
  function InsertByName(x: Student, s: seq<Student>): (r: seq<Student>)
    requires SortedByName(s)
    ensures SortedByName(r)
    ensures multiset(r) == multiset(s) + multiset{x}
  {
    if s == [] then [x]
    else if NameLe(x.name, s[0].name) then
      forall j | 0 < j < |s| ensures NameLe(x.name, s[j].name) {
        NameLeTransitive(x.name, s[0].name, s[j].name);
      }
      [x] + s
    else
      NameLeTotal(x.name, s[0].name);
      var rest := InsertByName(x, s[1..]);
      assert multiset(rest) == multiset(s[1..]) + multiset{x};
      assert s == [s[0]] + s[1..];
      LowerBoundKept(s[0], s[1..], x, rest);
      [s[0]] + rest
  }

  /** A name no greater than every name of `t` and than `x` is no greater than any name of a permutation of `t + [x]`. */
  lemma LowerBoundKept(y: Student, t: seq<Student>, x: Student, rest: seq<Student>)
    requires forall j :: 0 <= j < |t| ==> NameLe(y.name, t[j].name)
    requires NameLe(y.name, x.name)
    requires multiset(rest) == multiset(t) + multiset{x}
    ensures forall j :: 0 <= j < |rest| ==> NameLe(y.name, rest[j].name)
  {
    forall j | 0 <= j < |rest| ensures NameLe(y.name, rest[j].name) {
      assert rest[j] in multiset(rest);
      if rest[j] != x {
        assert rest[j] in multiset(t);
        var k :| 0 <= k < |t| && t[k] == rest[j];
      }
    }
  }

  /** `sorted(values, key=lambda s: s.name)`: a sort by name. */
  function SortByName(s: seq<Student>): (r: seq<Student>)
    ensures SortedByName(r)
    ensures multiset(r) == multiset(s)
  {
    if s == [] then []
    else
      assert s == [s[0]] + s[1..];
      InsertByName(s[0], SortByName(s[1..]))
  }

  /** `StudentHashTable`. */
  class StudentHashTable {
    const hash: string -> int
    var table: Dict

    /** Every key is one of the 100 slots and appears once. */
    ghost predicate Valid()
      reads this
    {
      UniqueSlots(table) && Keys(table) <= Between(0, 100)
    }

    /** `__init__`: an empty dict. */
    constructor (hash: string -> int)
      ensures Valid() && this.hash == hash && table == []
    {
      this.hash := hash;
      table := [];
    }

    /** `insert`: the student takes over the slot of their id. */
    method Insert(student: Student)
      requires Valid()
      modifies this
      ensures Valid()
      ensures table == Assign(old(table), Slot(hash, student.studentId), student)
    {
      var key := Slot(hash, student.studentId);
      AssignUnique(table, key, student);
      table := Assign(table, key, student);
    }

    /** `search` as written: whoever occupies the slot of the id, without comparing ids. */
    method Search(studentId: string) returns (found: Option<Student>)
      requires Valid()
      ensures found == Get(table, Slot(hash, studentId))
    {
      var key := Slot(hash, studentId);
      found := Get(table, key);
    }

    /** `delete`: the slot of the id is emptied; an empty slot stays empty. */
    method Delete(studentId: string)
      requires Valid()
      modifies this
      ensures Valid()
      ensures table == Remove(old(table), Slot(hash, studentId))
    {
      var key := Slot(hash, studentId);
      RemoveUnique(table, key);
      if Get(table, key).Some? {
        table := Remove(table, key);
      }
      else {
        RemoveAbsent(table, key);
      }
    }

    /** `get_all_sorted`: the stored students in name order. */
    method GetAllSorted() returns (students: seq<Student>)
      requires Valid()
      ensures SortedByName(students) && multiset(students) == multiset(Values(table))
      ensures |students| <= 100
    {
      SlotsBound(table);
      students := SortByName(Values(table));
      assert |students| == |multiset(students)|;
    }
  }

  /** Assigning a slot never makes a slot appear twice. */
  lemma {:induction false} AssignUnique(d: Dict, key: int, value: Student)
    requires UniqueSlots(d)
    ensures UniqueSlots(Assign(d, key, value))
  {
    if d != [] {
      if d[0].0 == key {
        assert Assign(d, key, value)[1..] == d[1..];
      } else {
        AssignUnique(d[1..], key, value);
        assert Assign(d, key, value)[1..] == Assign(d[1..], key, value);
      }
    }
  }

  /** Deleting a slot never makes a slot appear twice. */
  lemma {:induction false} RemoveUnique(d: Dict, key: int)
    requires UniqueSlots(d)
    ensures UniqueSlots(Remove(d, key))
  {
    if d != [] {
      RemoveUnique(d[1..], key);
      if d[0].0 != key {
        assert Remove(d, key)[1..] == Remove(d[1..], key);
      }
    }
  }

  lemma {:induction false} RemoveAbsent(d: Dict, key: int)
    requires forall i :: 0 <= i < |d| ==> d[i].0 != key
    ensures Remove(d, key) == d
  {
    if d != [] {
      RemoveAbsent(d[1..], key);
    }
  }

  /** With distinct keys drawn from 100 slots, the table never holds more than 100 students. */
  lemma SlotsBound(d: Dict)
    requires UniqueSlots(d) && Keys(d) <= Between(0, 100)
    ensures |d| <= 100
  {
    KeysCount(d);
    SubsetSize(Keys(d), Between(0, 100));
  }

  lemma {:induction false} KeysCount(d: Dict)
    requires UniqueSlots(d)
    ensures |Keys(d)| == |d|
  {
    if d != [] {
      KeysCount(d[1..]);
      assert d[0].0 !in Keys(d[1..]);
    }
  }

  /** Inserting a student and searching for their id finds that student. */
  lemma InsertThenSearch(d: Dict, hash: string -> int, s: Student)
    ensures Get(Assign(d, Slot(hash, s.studentId), s), Slot(hash, s.studentId)) == Some(s)
  {
  }

  /**
    The search compares slots, not ids: once a student is stored, searching for any
    other id that hashes to the same slot returns that student.
  */
  lemma SearchIgnoresIds(d: Dict, hash: string -> int, s: Student, otherId: string)
    requires otherId != s.studentId && Slot(hash, otherId) == Slot(hash, s.studentId)
    ensures var found := Get(Assign(d, Slot(hash, s.studentId), s), Slot(hash, otherId));
            found == Some(s) && found.value.studentId != otherId
  {
  }

  /** A concrete case: with a hash that depends only on the length, ids "A" and "B" collide. */
  lemma SearchReturnsWrongStudent()
    ensures var hash := (id: string) => |id|;
            var alice := Student("A", "Alice", "alice@example.com", "CS", 20);
            Get(Assign([], Slot(hash, "A"), alice), Slot(hash, "B")) == Some(alice)
  {
  }
}
