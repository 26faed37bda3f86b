/**
 * The student table behind `StudentRepository` and the Panache entity
 * operations the core calls on it. A database that cannot be reached makes
 * every call throw and change nothing.
 */
module Repository {
  import opened Wrappers
  import opened Entities

  datatype PersistenceException = DatabaseUnavailable {
    function Message(): string {
      "database unavailable"
    }
  }

  /** Some row carries the identifier `id`. */
  predicate HasId(rows: seq<Student>, id: int) {
    exists i :: 0 <= i < |rows| && rows[i].studentId == id
  }

  /** The rows left after deleting the one with identifier `id`, in table order. */
  function WithoutId(rows: seq<Student>, id: int): (r: seq<Student>)
    ensures forall s :: s in r <==> s in rows && s.studentId != id
    ensures !HasId(rows, id) ==> r == rows
    ensures UniqueIds(rows) && HasId(rows, id) ==> |r| == |rows| - 1
    ensures UniqueIds(rows) ==> UniqueIds(r)
    decreases |rows|
  {
    if rows == [] then []
    else if rows[0].studentId == id then WithoutId(rows[1..], id)
    else [rows[0]] + WithoutId(rows[1..], id)
  }

  /** Deleting from two consecutive stretches of the table deletes from each, in order. */
  lemma {:induction false} WithoutIdAppend(a: seq<Student>, b: seq<Student>, id: int)
    ensures WithoutId(a + b, id) == WithoutId(a, id) + WithoutId(b, id)
    decreases |a|
  {
    if a == [] {
      assert a + b == b;
    } else {
      assert (a + b)[0] == a[0];
      assert (a + b)[1..] == a[1..] + b;
      WithoutIdAppend(a[1..], b, id);
    }
  }

  /**
   * Deleting keeps the table order: the rows before a kept row stay before it
   * and the rows after it stay after it.
   */
  lemma WithoutIdKeepsOrder(before: seq<Student>, s: Student, after: seq<Student>, id: int)
    requires s.studentId != id
    ensures WithoutId(before + [s] + after, id) == WithoutId(before, id) + [s] + WithoutId(after, id)
  {
    WithoutIdAppend(before + [s], after, id);
    WithoutIdAppend(before, [s], id);
    assert WithoutId([s], id) == [s] + WithoutId([s][1..], id);
  }

  /** Positions of the rows a `name = ?` query returns, in table order. */
  ghost predicate NamedPositions(rows: seq<Student>, name: Option<string>, ps: seq<nat>) {
    && (forall k :: 0 <= k < |ps| ==> ps[k] < |rows| && name.Some? && rows[ps[k]].name == name)
    && (forall k, l :: 0 <= k < l < |ps| ==> ps[k] < ps[l])
    && (forall i :: 0 <= i < |rows| && name.Some? && rows[i].name == name ==> i in ps)
  }

  class StudentRepository {
    /** False while the database cannot be reached. */
    var online: bool
    /** The student table, in the order queries return its rows. */
    var rows: seq<Student>

    ghost predicate Valid()
      reads this
    {
      UniqueIds(rows)
    }

    constructor (initial: seq<Student>)
      requires UniqueIds(initial)
      ensures Valid() && online && rows == initial
    {
      online := true;
      rows := initial;
    }

    /** `listAll()`. */
    method ListAll() returns (r: Result<seq<Student>, PersistenceException>)
      ensures r == if online then Ok(rows) else Err(DatabaseUnavailable)
    {
      if !online {
        return Err(DatabaseUnavailable);
      }
      r := Ok(rows);
    }

    /**
     * `list("name", name)`: the matching rows, as positions of the managed
     * entities in the table. SQL equality never holds for a null name.
     */
    method ListByName(name: Option<string>) returns (r: Result<seq<nat>, PersistenceException>)
      ensures !online ==> r == Err(DatabaseUnavailable)
      ensures online ==> r.Ok? && NamedPositions(rows, name, r.value)
    {
      if !online {
        return Err(DatabaseUnavailable);
      }
      var found: seq<nat> := [];
      for i := 0 to |rows|
        invariant forall k :: 0 <= k < |found| ==> found[k] < i && name.Some? && rows[found[k]].name == name
        invariant forall k, l :: 0 <= k < l < |found| ==> found[k] < found[l]
        invariant forall j :: 0 <= j < i && name.Some? && rows[j].name == name ==> j in found
      {
        if name.Some? && rows[i].name == name {
          found := found + [i];
        }
      }
      r := Ok(found);
    }

    /** `persist(student)` on the managed entity at position `i`: the row takes the entity's new field values. */
    method Persist(i: nat, student: Student) returns (r: Outcome<PersistenceException>)
      requires Valid() && i < |rows| && student.studentId == rows[i].studentId
      modifies this
      ensures Valid() && online == old(online)
      ensures r == if old(online) then Pass else Fail(DatabaseUnavailable)
      ensures rows == if old(online) then old(rows)[i := student] else old(rows)
    {
      if !online {
        return Fail(DatabaseUnavailable);
      }
      rows := rows[i := student];
      r := Pass;
    }

    /** `deleteById(id)`: true when a row was removed. */
    method DeleteById(id: int) returns (r: Result<bool, PersistenceException>)
      requires Valid()
      modifies this
      ensures Valid() && online == old(online)
      ensures r == if old(online) then Ok(HasId(old(rows), id)) else Err(DatabaseUnavailable)
      ensures rows == if old(online) then WithoutId(old(rows), id) else old(rows)
    {
      if !online {
        return Err(DatabaseUnavailable);
      }
      r := Ok(HasId(rows, id));
      rows := WithoutId(rows, id);
    }
  }
}
