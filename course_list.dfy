/** The three transforms App.tsx applies to its course list after a confirmed
    mutation: replace by id (update), prepend (create) and remove by id (delete). */
module CourseList {
  import opened Types

  /** `courses.map(c => c.id === updated.id ? updated : c)`. */
  function ReplaceById(courses: seq<Course>, updated: Course): (r: seq<Course>)
    ensures |r| == |courses|
    ensures forall i :: 0 <= i < |courses| ==>
              r[i] == (if courses[i].id == updated.id then updated else courses[i])
  {
    if courses == [] then []
    else [if courses[0].id == updated.id then updated else courses[0]] + ReplaceById(courses[1..], updated)
  }

  /** `[created, ...courses]`. */
  function Prepend(created: Course, courses: seq<Course>): (r: seq<Course>)
    ensures |r| == |courses| + 1
    ensures r[0] == created && r[1..] == courses
  {
    [created] + courses
  }

  /** `courses.filter(c => c.id !== id)`. */
  function RemoveById(courses: seq<Course>, id: string): (r: seq<Course>)
    ensures |r| <= |courses|
    ensures forall i :: 0 <= i < |r| ==> r[i].id != id
  {
    if courses == [] then []
    else (if courses[0].id == id then [] else [courses[0]]) + RemoveById(courses[1..], id)
  }

  /** Every course without the removed id is kept, as often as it occurred; none with
      it is left. */
  lemma {:induction false} RemoveByIdCounts(courses: seq<Course>, id: string, c: Course)
    ensures multiset(RemoveById(courses, id))[c] == if c.id == id then 0 else multiset(courses)[c]
  {
    if courses != [] {
      var head := if courses[0].id == id then [] else [courses[0]];
      var tail := RemoveById(courses[1..], id);
      RemoveByIdCounts(courses[1..], id, c);
      assert multiset(RemoveById(courses, id)) == multiset(head) + multiset(tail);
      assert courses == [courses[0]] + courses[1..];
      assert multiset(courses) == multiset([courses[0]]) + multiset(courses[1..]);
    }
  }

  /** Removal keeps order: it works piece by piece over a concatenation. */
  lemma {:induction false} RemoveByIdConcat(a: seq<Course>, b: seq<Course>, id: string)
    ensures RemoveById(a + b, id) == RemoveById(a, id) + RemoveById(b, id)
  {
    if a != [] {
      var head := if a[0].id == id then [] else [a[0]];
      calc {
        RemoveById(a + b, id);
      == { assert (a + b)[0] == a[0]; assert (a + b)[1..] == a[1..] + b; }
        head + RemoveById(a[1..] + b, id);
      == { RemoveByIdConcat(a[1..], b, id); }
        head + (RemoveById(a[1..], id) + RemoveById(b, id));
      ==
        (head + RemoveById(a[1..], id)) + RemoveById(b, id);
      }
    } else {
      assert a + b == b;
    }
  }

  /** Removing an id no course carries changes nothing. */
  lemma {:induction false} RemoveAbsentId(courses: seq<Course>, id: string)
    requires forall i :: 0 <= i < |courses| ==> courses[i].id != id
    ensures RemoveById(courses, id) == courses
  {
    if courses != [] {
      RemoveAbsentId(courses[1..], id);
    }
  }

  /** Deleting a course just created restores the list it was added to, when no other
      course had its id. */
  lemma DeleteUndoesCreate(created: Course, courses: seq<Course>)
    requires forall i :: 0 <= i < |courses| ==> courses[i].id != created.id
    ensures RemoveById(Prepend(created, courses), created.id) == courses
  {
    var r := Prepend(created, courses);
    assert r[1..] == courses;
    RemoveAbsentId(courses, created.id);
  }

  /** Replacing twice with the same record is replacing once. */
  lemma ReplaceIsIdempotent(courses: seq<Course>, updated: Course)
    ensures ReplaceById(ReplaceById(courses, updated), updated) == ReplaceById(courses, updated)
  {
  }

  /** Deleting after an update removes the same courses as deleting without it. */
  lemma {:induction false} RemoveAfterReplace(courses: seq<Course>, updated: Course)
    ensures RemoveById(ReplaceById(courses, updated), updated.id) == RemoveById(courses, updated.id)
  {
    if courses != [] {
      RemoveAfterReplace(courses[1..], updated);
      var r := ReplaceById(courses, updated);
      assert r[1..] == ReplaceById(courses[1..], updated);
    }
  }
}
