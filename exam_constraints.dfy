/**
 * The binary exam constraint: a first-match chain of rules over two
 * variable names and their candidate values. Course attributes are looked
 * up by name in the course list, as the predicate does.
 */
module ExamConstraints {
  import opened TextOps
  import opened ExamModel

  /** Index of the first course named `n`, searching from index `from`. */
  function FindCourseFrom(cs: seq<Course>, n: string, from: nat): (r: Option<nat>)
    requires from <= |cs|
    ensures r.Some? ==> from <= r.value < |cs| && cs[r.value].name == n &&
                        forall j :: from <= j < r.value ==> cs[j].name != n
    ensures r.None? ==> forall j :: from <= j < |cs| ==> cs[j].name != n
    decreases |cs| - from
  {
    if from == |cs| then None
    else if cs[from].name == n then Some(from)
    else FindCourseFrom(cs, n, from + 1)
  }

  /** The first course record named `n`, if any. */
  function FindCourse(cs: seq<Course>, n: string): Option<nat>
  {
    FindCourseFrom(cs, n, 0)
  }

  /** Instructor of the first course named `n`; None when no course has that name. */
  function InstructorOf(cs: seq<Course>, n: string): Option<string>
  {
    match FindCourse(cs, n)
    case None => None
    case Some(i) => Some(cs[i].instructor)
  }

  /** Semester of the first course named `n`; None when no course has that name. */
  function SemesterOf(cs: seq<Course>, n: string): Option<string>
  {
    match FindCourse(cs, n)
    case None => None
    case Some(i) => Some(cs[i].semester)
  }

  /** Some course named `n` (not necessarily the first) is flagged difficult. */
  predicate IsDifficult(cs: seq<Course>, n: string)
  {
    exists i :: 0 <= i < |cs| && cs[i].name == n && cs[i].difficult == "TRUE"
  }

  /** `a` is recognised as the lab variable of `b`: it ends with the lab tag
      and removing every lab suffix from it gives `b`. */
  predicate Linked(a: string, b: string)
  {
    EndsWith(a, LabTag) && b == RemoveAll(a, LabSuffix)
  }

  function Abs(x: int): int
  {
    if x < 0 then -x else x
  }

  /** Whether variable A at value a and variable B at value b are compatible. */
  function Constraint(cs: seq<Course>, A: string, a: Value, B: string, b: Value): bool
  {
    if Linked(A, B) then a.day == b.day && a.slot == b.slot + 1
    else if Linked(B, A) then b.day == a.day && b.slot == a.slot + 1
    else if InstructorOf(cs, A) == InstructorOf(cs, B) && InstructorOf(cs, A).Some? then a.day != b.day
    else if IsDifficult(cs, A) && IsDifficult(cs, B) then Abs(a.day - b.day) >= 2
    else if SemesterOf(cs, A) == SemesterOf(cs, B) && SemesterOf(cs, A).Some? then a.day != b.day
    else if a == b then false
    else true
  }

  /** Every ordered pair of distinct assigned variables is compatible. */
  predicate AllConsistent(cs: seq<Course>, asg: map<string, Value>)
  {
    forall A, B :: A in asg && B in asg && A != B ==> Constraint(cs, A, asg[A], B, asg[B])
  }

  // ---------------------------------------------------------------------------
  // Lookups

  /** The lookups are None exactly when no course carries the name; a course
      whose instructor or semester text is empty still yields Some. */
  lemma LookupsMissing(cs: seq<Course>, n: string)
    ensures InstructorOf(cs, n).None? <==> forall i :: 0 <= i < |cs| ==> cs[i].name != n
    ensures SemesterOf(cs, n).None? <==> forall i :: 0 <= i < |cs| ==> cs[i].name != n
    ensures (forall i :: 0 <= i < |cs| ==> cs[i].name != n) ==> !IsDifficult(cs, n)
  {
  }

  /** When several courses share a name, the first one's fields are used. */
  lemma LookupsFirstMatch(cs: seq<Course>, n: string, i: nat)
    requires i < |cs| && cs[i].name == n
    requires forall j :: 0 <= j < i ==> cs[j].name != n
    ensures InstructorOf(cs, n) == Some(cs[i].instructor)
    ensures SemesterOf(cs, n) == Some(cs[i].semester)
  {
    assert FindCourse(cs, n) == Some(i);
  }

  // ---------------------------------------------------------------------------
  // Lab and theory

  /** A course name that does not itself contain the lab suffix. */
  predicate PlainName(name: string)
  {
    !Occurs(name, LabSuffix)
  }

  lemma LabSuffixHeadUnique()
    ensures HeadUnique(LabSuffix)
  {
  }

  /** A lab variable is recognised as the lab of exactly its own course, and
      a course is never recognised as the lab of its lab variable. */
  lemma LinkedLabIsOwnTheory(name: string, B: string)
    requires PlainName(name)
    ensures Linked(LabName(name), B) <==> B == name
    ensures !Linked(name, LabName(name))
  {
    LabSuffixHeadUnique();
    RemoveAppended(name, LabSuffix);
    var lab := LabName(name);
    assert lab[|lab| - |LabTag|..] == LabTag;
  }

  /** Lab-follows-theory, in either argument order: compatible exactly when
      both are on the same day and the lab is in the slot after the theory. */
  lemma LabTheoryRule(cs: seq<Course>, name: string, t: Value, l: Value)
    requires PlainName(name)
    ensures Constraint(cs, LabName(name), l, name, t) <==> l.day == t.day && l.slot == t.slot + 1
    ensures Constraint(cs, name, t, LabName(name), l) <==> l.day == t.day && l.slot == t.slot + 1
  {
    LinkedLabIsOwnTheory(name, name);
  }

  /** A theory exam in the last slot leaves no value of the domain for its lab. */
  lemma TheoryInLastSlotHasNoLab(cs: seq<Course>, name: string, day: int, l: Value)
    requires PlainName(name)
    ensures l in FullDomain() ==> !Constraint(cs, LabName(name), l, name, Value(day, SlotsPerDay))
    ensures l in FullDomain() ==> !Constraint(cs, name, Value(day, SlotsPerDay), LabName(name), l)
  {
    LabTheoryRule(cs, name, Value(day, SlotsPerDay), l);
    FullDomainMembers(l);
  }

  /** A lab variable has no course record of its own, so against any variable
      it is not linked with only slot exclusivity applies. */
  lemma LabAgainstOthers(cs: seq<Course>, name: string, a: Value, B: string, b: Value)
    requires forall i :: 0 <= i < |cs| ==> cs[i].name != LabName(name)
    requires !Linked(LabName(name), B) && !Linked(B, LabName(name))
    ensures Constraint(cs, LabName(name), a, B, b) <==> a != b
    ensures Constraint(cs, B, b, LabName(name), a) <==> a != b
  {
    LookupsMissing(cs, LabName(name));
  }

  // ---------------------------------------------------------------------------
  // The rest of the chain

  /** Same instructor (defined): compatible exactly when on different days. */
  lemma InstructorRule(cs: seq<Course>, A: string, a: Value, B: string, b: Value)
    requires !Linked(A, B) && !Linked(B, A)
    requires InstructorOf(cs, A).Some? && InstructorOf(cs, A) == InstructorOf(cs, B)
    ensures Constraint(cs, A, a, B, b) <==> a.day != b.day
  {
  }

  /** Both difficult, no shared instructor: at least two days apart. */
  lemma DifficultyRule(cs: seq<Course>, A: string, a: Value, B: string, b: Value)
    requires !Linked(A, B) && !Linked(B, A)
    requires InstructorOf(cs, A).None? || InstructorOf(cs, A) != InstructorOf(cs, B)
    requires IsDifficult(cs, A) && IsDifficult(cs, B)
    ensures Constraint(cs, A, a, B, b) <==> a.day - b.day >= 2 || b.day - a.day >= 2
  {
  }

  /** Same semester (defined), no earlier rule: different days. */
  lemma SemesterRule(cs: seq<Course>, A: string, a: Value, B: string, b: Value)
    requires !Linked(A, B) && !Linked(B, A)
    requires InstructorOf(cs, A).None? || InstructorOf(cs, A) != InstructorOf(cs, B)
    requires !(IsDifficult(cs, A) && IsDifficult(cs, B))
    requires SemesterOf(cs, A).Some? && SemesterOf(cs, A) == SemesterOf(cs, B)
    ensures Constraint(cs, A, a, B, b) <==> a.day != b.day
  {
  }

  /** No earlier rule applies: incompatible exactly when the values coincide. */
  lemma SlotRule(cs: seq<Course>, A: string, a: Value, B: string, b: Value)
    requires !Linked(A, B) && !Linked(B, A)
    requires InstructorOf(cs, A).None? || InstructorOf(cs, A) != InstructorOf(cs, B)
    requires !(IsDifficult(cs, A) && IsDifficult(cs, B))
    requires SemesterOf(cs, A).None? || SemesterOf(cs, A) != SemesterOf(cs, B)
    ensures Constraint(cs, A, a, B, b) <==> a != b
  {
  }

  /** Whatever rule decides, two variables at the very same value are
      incompatible. */
  lemma SameValueIncompatible(cs: seq<Course>, A: string, B: string, v: Value)
    ensures !Constraint(cs, A, v, B, v)
  {
  }

  /** The instructor rule decides before the difficulty rule: two difficult
      courses with one instructor may sit on consecutive days. */
  lemma InstructorPreemptsDifficulty()
    ensures var cs := [Course("A", "X", "1", "FALSE", "TRUE"), Course("B", "X", "2", "FALSE", "TRUE")];
            IsDifficult(cs, "A") && IsDifficult(cs, "B") &&
            Constraint(cs, "A", Value(1, 1), "B", Value(2, 1))
  {
    var cs := [Course("A", "X", "1", "FALSE", "TRUE"), Course("B", "X", "2", "FALSE", "TRUE")];
    assert cs[0].name == "A" && cs[1].name == "B";
    LookupsFirstMatch(cs, "A", 0);
    LookupsFirstMatch(cs, "B", 1);
  }

  // ---------------------------------------------------------------------------
  // Symmetry

  /** Two distinct names are never each other's lab. */
  lemma NotMutuallyLinked(A: string, B: string)
    requires A != B
    ensures !(Linked(A, B) && Linked(B, A))
  {
    if Linked(A, B) && Linked(B, A) {
      assert false;
    }
  }

  /** For distinct variables the predicate does not depend on argument order. */
  lemma ConstraintSymmetric(cs: seq<Course>, A: string, a: Value, B: string, b: Value)
    requires A != B
    ensures Constraint(cs, A, a, B, b) == Constraint(cs, B, b, A, a)
  {
    NotMutuallyLinked(A, B);
  }

  /** Symmetry fails for a variable paired with itself when its name ends with
      the lab tag but does not contain the lab suffix. */
  lemma SelfPairNotSymmetric(cs: seq<Course>)
    ensures Constraint(cs, LabTag, Value(1, 2), LabTag, Value(1, 1))
    ensures !Constraint(cs, LabTag, Value(1, 1), LabTag, Value(1, 2))
  {
    assert Linked(LabTag, LabTag);
  }

  /** A course whose own name contains the lab suffix loses its link:
      removing every suffix from its lab variable's name strips the course
      name too. */
  lemma SuffixedCourseLosesLab(name: string)
    requires !PlainName(name)
    ensures !Linked(LabName(name), name)
  {
    LabSuffixHeadUnique();
    RemoveAppendedAny(name, LabSuffix);
  }

  // ---------------------------------------------------------------------------
  // Consistent assignments

  /** No two distinct variables of a consistent assignment share a value. */
  lemma SolutionValuesDistinct(cs: seq<Course>, asg: map<string, Value>, A: string, B: string)
    requires AllConsistent(cs, asg)
    requires A in asg && B in asg && A != B
    ensures asg[A] != asg[B]
  {
    if asg[A] == asg[B] {
      SameValueIncompatible(cs, A, B, asg[A]);
    }
  }

  /** In a consistent assignment each lab sits on its course's day, one slot
      later, so the course itself is not in the last slot when the lab's value
      is in the domain. */
  lemma SolutionLabFollowsTheory(cs: seq<Course>, asg: map<string, Value>, name: string)
    requires AllConsistent(cs, asg)
    requires PlainName(name)
    requires name in asg && LabName(name) in asg
    ensures asg[LabName(name)].day == asg[name].day
    ensures asg[LabName(name)].slot == asg[name].slot + 1
    ensures asg[LabName(name)] in FullDomain() ==> asg[name].slot < SlotsPerDay
  {
    var lab := LabName(name);
    assert lab != name by {
      assert |lab| == |name| + |LabSuffix|;
    }
    assert Constraint(cs, lab, asg[lab], name, asg[name]);
    LabTheoryRule(cs, name, asg[name], asg[lab]);
    FullDomainMembers(asg[lab]);
  }

  /** In a consistent assignment, unlinked variables with one defined
      instructor sit on different days. */
  lemma SolutionSameInstructorDifferentDays(cs: seq<Course>, asg: map<string, Value>, A: string, B: string)
    requires AllConsistent(cs, asg)
    requires A in asg && B in asg && A != B
    requires !Linked(A, B) && !Linked(B, A)
    requires InstructorOf(cs, A).Some? && InstructorOf(cs, A) == InstructorOf(cs, B)
    ensures asg[A].day != asg[B].day
  {
    InstructorRule(cs, A, asg[A], B, asg[B]);
  }

  /** In a consistent assignment, distinct unlinked variables with one defined
      semester sit on different days, whichever of rules 2-4 decides. */
  lemma SolutionSameSemesterDifferentDays(cs: seq<Course>, asg: map<string, Value>, A: string, B: string)
    requires AllConsistent(cs, asg)
    requires A in asg && B in asg && A != B
    requires !Linked(A, B) && !Linked(B, A)
    requires SemesterOf(cs, A).Some? && SemesterOf(cs, A) == SemesterOf(cs, B)
    ensures asg[A].day != asg[B].day
  {
    assert Constraint(cs, A, asg[A], B, asg[B]);
  }

  /** In a consistent assignment, distinct unlinked difficult variables that
      do not share a defined instructor sit at least two days apart. */
  lemma SolutionDifficultApart(cs: seq<Course>, asg: map<string, Value>, A: string, B: string)
    requires AllConsistent(cs, asg)
    requires A in asg && B in asg && A != B
    requires !Linked(A, B) && !Linked(B, A)
    requires InstructorOf(cs, A).None? || InstructorOf(cs, A) != InstructorOf(cs, B)
    requires IsDifficult(cs, A) && IsDifficult(cs, B)
    ensures Abs(asg[A].day - asg[B].day) >= 2
  {
    assert Constraint(cs, A, asg[A], B, asg[B]);
  }
}
