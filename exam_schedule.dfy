/**
 * Building the exam CSP from a course list, and the CSP object's view of the
 * constraint: every check goes through one method that counts it.
 */
module ExamSchedule {
  import opened ExamModel
  import opened ExamConstraints

  /** Builds the variable list, the domains and the neighbour map, appending
      each course's variable (and, right after it, its lab variable) in input
      order. */
  method CreateExamCsp(courses: seq<Course>)
    returns (variables: seq<string>, domains: map<string, seq<Value>>, neighbors: map<string, set<string>>)
    ensures variables == VariablesOf(courses)
    ensures domains == DomainsOf(variables)
    ensures neighbors == NeighborsOf(variables)
  {
    variables, domains, neighbors := [], map[], map[];
    var i := 0;
    while i < |courses|
      invariant 0 <= i <= |courses|
      invariant variables == VariablesOf(courses[..i])
      invariant domains == DomainsOf(variables)
    {
      var course := courses[i];
      DomainsAppend(variables, course.name);
      variables := variables + [course.name];
      domains := domains[course.name := FullDomain()];
      if HasLab(course) {
        var lab := LabName(course.name);
        DomainsAppend(variables, lab);
        variables := variables + [lab];
        domains := domains[lab := FullDomain()];
      }
      VariablesStep(courses, i);
      i := i + 1;
    }
    assert courses[..i] == courses;

    var all := set u | u in variables;
    var j := 0;
    while j < |variables|
      invariant 0 <= j <= |variables|
      invariant neighbors == map v | v in variables[..j] :: all - {v}
    {
      var v := variables[j];
      NeighborsStep(variables, all, j);
      neighbors := neighbors[v := all - {v}];
      j := j + 1;
    }
    assert variables[..j] == variables;
  }

  lemma DomainsAppend(vars: seq<string>, x: string)
    ensures DomainsOf(vars + [x]) == DomainsOf(vars)[x := FullDomain()]
  {
  }

  lemma VariablesStep(cs: seq<Course>, i: nat)
    requires i < |cs|
    ensures VariablesOf(cs[..i + 1]) == VariablesOf(cs[..i]) + CourseVariables(cs[i])
  {
    assert cs[..i + 1][..i] == cs[..i];
  }

  lemma NeighborsStep(vars: seq<string>, all: set<string>, j: nat)
    requires j < |vars|
    ensures (map v | v in vars[..j + 1] :: all - {v})
         == (map v | v in vars[..j] :: all - {v})[vars[j] := all - {vars[j]}]
  {
    assert vars[..j + 1] == vars[..j] + [vars[j]];
  }

  /** The exam CSP: the course table the constraint consults, the model built
      from it, and the count of constraint checks made so far. */
  class ExamCsp {
    const courses: seq<Course>
    const variables: seq<string>
    const domains: map<string, seq<Value>>
    const neighbors: map<string, set<string>>
    var checkCount: nat

    /** The model is the one construction builds from the course table. */
    ghost predicate Valid()
    {
      variables == VariablesOf(courses) &&
      domains == DomainsOf(variables) &&
      neighbors == NeighborsOf(variables)
    }

    constructor (courses: seq<Course>)
      ensures this.courses == courses
      ensures Valid()
      ensures checkCount == 0
    {
      var vs, ds, ns := CreateExamCsp(courses);
      this.courses := courses;
      variables, domains, neighbors := vs, ds, ns;
      checkCount := 0;
    }

    /** One constraint check: counts itself once, whichever rule decides. */
    method Constraints(A: string, a: Value, B: string, b: Value) returns (ok: bool)
      modifies this`checkCount
      ensures checkCount == old(checkCount) + 1
      ensures ok == Constraint(courses, A, a, B, b)
    {
      checkCount := checkCount + 1;
      ok := Constraint(courses, A, a, B, b);
    }

    /** A complete assignment of domain values that satisfies every pair. */
    predicate IsSolution(asg: map<string, Value>)
    {
      asg.Keys == (set v | v in variables) &&
      (forall v :: v in asg ==> v in domains && asg[v] in domains[v]) &&
      AllConsistent(courses, asg)
    }

    /** In a solution a course with a lab sits on an exam day in one of the
        first two slots, and its lab sits on the same day one slot later. */
    lemma SolutionProperties(asg: map<string, Value>, name: string)
      requires Valid()
      requires IsSolution(asg)
      requires PlainName(name)
      requires name in asg && LabName(name) in asg
      ensures 1 <= asg[name].day < TotalDays && 1 <= asg[name].slot < SlotsPerDay
      ensures asg[LabName(name)] == Value(asg[name].day, asg[name].slot + 1)
    {
      assert asg[name] in FullDomain() && asg[LabName(name)] in FullDomain();
      FullDomainMembers(asg[name]);
      FullDomainMembers(asg[LabName(name)]);
      SolutionLabFollowsTheory(courses, asg, name);
    }
  }
}
