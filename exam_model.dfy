/**
 * The exam-timetabling instance: course records, the variables built from
 * them, the common (day, slot) domain and the complete neighbour relation.
 * The functions here say what construction produces; ExamSchedule builds
 * it step by step.
 */
module ExamModel {

  datatype Option<T> = None | Some(value: T)

  /** One row of the course table. Every field is the raw text of its column;
      the lab and difficulty flags count as set only when they are exactly
      "TRUE". */
  datatype Course = Course(
    name: string,        // the course column ("Μάθημα")
    instructor: string,  // the instructor column ("Καθηγητής")
    semester: string,    // the semester column ("Εξάμηνο")
    lab: string,         // the has-lab flag column
    difficult: string    // the difficulty flag column
  )

  /** A candidate value: an exam day and a slot within that day. */
  datatype Value = Value(day: int, slot: int)

  /** One more than the number of exam days: days run over 1 .. TotalDays - 1. */
  const TotalDays: int := 22
  /** Slots per day: slots run over 1 .. SlotsPerDay. */
  const SlotsPerDay: int := 3
  /** Size of every variable's domain. */
  const DomainSize: int := (TotalDays - 1) * SlotsPerDay

  /** What a lab variable's name ends with, and what is appended to a course
      name to make it. */
  const LabTag: string := "(Εργαστήριο)"
  const LabSuffix: string := " (Εργαστήριο)"

  predicate HasLab(c: Course)
  {
    c.lab == "TRUE"
  }

  function LabName(name: string): string
  {
    name + LabSuffix
  }

  /** The variables one course contributes, in the order they are appended. */
  function CourseVariables(c: Course): seq<string>
  {
    if HasLab(c) then [c.name, LabName(c.name)] else [c.name]
  }

  /** The variable list built from a course list, course by course. */
  function VariablesOf(cs: seq<Course>): seq<string>
  {
    if cs == [] then [] else VariablesOf(cs[..|cs| - 1]) + CourseVariables(cs[|cs| - 1])
  }

  function LabCount(cs: seq<Course>): nat
  {
    if cs == [] then 0 else LabCount(cs[..|cs| - 1]) + (if HasLab(cs[|cs| - 1]) then 1 else 0)
  }

  /** Index in VariablesOf(cs) at which course i's own variable sits. */
  function Position(cs: seq<Course>, i: nat): nat
    requires i <= |cs|
  {
    |VariablesOf(cs[..i])|
  }

  /** One variable per course plus one per lab. */
  lemma {:induction false} VariablesCount(cs: seq<Course>)
    ensures |VariablesOf(cs)| == |cs| + LabCount(cs)
    decreases |cs|
  {
    if cs != [] {
      VariablesCount(cs[..|cs| - 1]);
    }
  }

  /** The variables of a prefix of the courses are a prefix of the variables. */
  lemma {:induction false} VariablesPrefix(cs: seq<Course>, i: nat)
    requires i <= |cs|
    ensures VariablesOf(cs[..i]) <= VariablesOf(cs)
    decreases |cs|
  {
    if i < |cs| {
      var init := cs[..|cs| - 1];
      assert cs[..i] == init[..i];
      VariablesPrefix(init, i);
    } else {
      assert cs[..i] == cs;
    }
  }

  /** Course i's variable sits at Position(cs, i); when it has a lab, the lab
      variable comes right after it; the next course starts after both. */
  lemma VariablesLayout(cs: seq<Course>, i: nat)
    requires i < |cs|
    ensures Position(cs, i) < |VariablesOf(cs)|
    ensures VariablesOf(cs)[Position(cs, i)] == cs[i].name
    ensures HasLab(cs[i]) ==>
              Position(cs, i) + 1 < |VariablesOf(cs)| &&
              VariablesOf(cs)[Position(cs, i) + 1] == LabName(cs[i].name)
    ensures Position(cs, i + 1) == Position(cs, i) + (if HasLab(cs[i]) then 2 else 1)
  {
    var pre := cs[..i + 1];
    assert pre[..|pre| - 1] == cs[..i];
    assert VariablesOf(pre) == VariablesOf(cs[..i]) + CourseVariables(cs[i]);
    VariablesPrefix(cs, i + 1);
  }

  /** Courses keep their input order in the variable list. */
  lemma {:induction false} PositionsIncrease(cs: seq<Course>, i: nat, k: nat)
    requires i < k <= |cs|
    ensures Position(cs, i) < Position(cs, k)
    decreases k - i
  {
    VariablesLayout(cs, i);
    if i + 1 < k {
      PositionsIncrease(cs, i + 1, k);
    }
  }

  /** Every variable is either some course's own variable or the lab
      variable placed right after a course that has a lab. */
  lemma {:induction false} VariableOrigin(cs: seq<Course>, j: nat) returns (i: nat)
    requires j < |VariablesOf(cs)|
    ensures i < |cs|
    ensures (j == Position(cs, i) && VariablesOf(cs)[j] == cs[i].name)
         || (HasLab(cs[i]) && j == Position(cs, i) + 1 && VariablesOf(cs)[j] == LabName(cs[i].name))
    decreases |cs|
  {
    var init := cs[..|cs| - 1];
    var last := |cs| - 1;
    assert cs[..last] == init;
    if j < |VariablesOf(init)| {
      i := VariableOrigin(init, j);
      assert init[..i] == cs[..i];
      VariablesPrefix(cs, |cs| - 1);
    } else {
      i := last;
      VariablesLayout(cs, i);
    }
  }

  /** The three values of one day, in slot order. */
  function DaySlots(day: int): seq<Value>
  {
    [Value(day, 1), Value(day, 2), Value(day, 3)]
  }

  /** The values of days `day` .. TotalDays - 1, day-major. */
  function DomainFrom(day: int): seq<Value>
    requires 1 <= day <= TotalDays
    decreases TotalDays - day
  {
    if day == TotalDays then [] else DaySlots(day) + DomainFrom(day + 1)
  }

  /** The domain every variable starts with. */
  function FullDomain(): seq<Value>
  {
    DomainFrom(1)
  }

  lemma {:induction false} DomainFromIndex(day: int, k: nat)
    requires 1 <= day <= TotalDays
    ensures |DomainFrom(day)| == SlotsPerDay * (TotalDays - day)
    ensures k < |DomainFrom(day)| ==>
              DomainFrom(day)[k] == Value(day + k / SlotsPerDay, k % SlotsPerDay + 1)
    decreases TotalDays - day
  {
    if day < TotalDays {
      if k < SlotsPerDay {
        DomainFromIndex(day + 1, 0);
      } else {
        DomainFromIndex(day + 1, k - SlotsPerDay);
      }
    }
  }

  /** The domain has 63 values, the k-th being day k / 3 + 1, slot k % 3 + 1:
      day-major order. */
  lemma FullDomainShape()
    ensures |FullDomain()| == DomainSize == 63
    ensures forall k :: 0 <= k < |FullDomain()| ==>
              FullDomain()[k] == Value(k / SlotsPerDay + 1, k % SlotsPerDay + 1)
  {
    forall k | 0 <= k < |FullDomain()|
      ensures FullDomain()[k] == Value(k / SlotsPerDay + 1, k % SlotsPerDay + 1)
    {
      DomainFromIndex(1, k);
    }
    DomainFromIndex(1, 0);
  }

  /** A value is in the domain exactly when its day is 1 .. 21 and its slot 1 .. 3. */
  lemma FullDomainMembers(v: Value)
    ensures v in FullDomain() <==> 1 <= v.day < TotalDays && 1 <= v.slot <= SlotsPerDay
  {
    FullDomainShape();
    if 1 <= v.day < TotalDays && 1 <= v.slot <= SlotsPerDay {
      var k := (v.day - 1) * SlotsPerDay + v.slot - 1;
      assert FullDomain()[k] == v;
    }
  }

  /** Every variable gets the full domain. */
  function DomainsOf(vars: seq<string>): map<string, seq<Value>>
  {
    map v | v in vars :: FullDomain()
  }

  /** Every variable's neighbours are all the other variables. */
  function NeighborsOf(vars: seq<string>): map<string, set<string>>
  {
    map v | v in vars :: (set u | u in vars) - {v}
  }

  /** The neighbour relation is irreflexive and symmetric, relates any two
      distinct variables, and relates a variable to nothing else. */
  lemma NeighborsComplete(vars: seq<string>, u: string, v: string)
    requires u in vars && v in vars
    ensures u in NeighborsOf(vars) && v in NeighborsOf(vars)
    ensures v in NeighborsOf(vars)[u] <==> u != v
    ensures v in NeighborsOf(vars)[u] <==> u in NeighborsOf(vars)[v]
    ensures NeighborsOf(vars)[u] <= (set x | x in vars)
  {
  }
}
