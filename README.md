# Exam timetabling as a constraint model

This project models, in Dafny, how the exam-timetabling program turns a table
of courses into a constraint satisfaction problem (`create_exam_csp` in
`exam_schedule.py`), and proves properties of that problem.

- **Construction.** Each course row gives one variable, named after the course.
  A course whose has-lab column is exactly `"TRUE"` also gets a lab variable
  `"<name> (Εργαστήριο)"`, placed right after it. Every variable gets the same
  domain: the 63 `(day, slot)` pairs with day 1..21 and slot 1..3, in day-major
  order. Every variable's neighbours are all the other variables.
  `ExamSchedule.CreateExamCsp` builds these step by step, as the source's loops
  do. It is proved equal to the specification functions `VariablesOf`,
  `DomainsOf` and `NeighborsOf` in `ExamModel`. The lemmas in `ExamModel` say
  what those functions contain.
- **The constraint predicate.** `ExamConstraints.Constraint(courses, A, a, B, b)`
  is a first-match rule chain. The rules, in order:
  1. lab follows theory, tested in either argument order;
  2. same defined instructor;
  3. both courses difficult;
  4. same defined semester;
  5. slot exclusivity.

  It works on variable names, the way the source does: `endswith`, removing
  every `" (Εργαστήριο)"` as `str.replace(…, "")` does (`TextOps.RemoveAll`),
  first-match lookups for instructor and semester, and an any-match test for
  difficulty.
- **The check counter.** The class `ExamSchedule.ExamCsp` holds the course table
  and the built model. Its `Constraints` method adds exactly one to `checkCount`
  on each call, whichever rule decides, and returns the pure predicate's result.
- **Solutions.** `AllConsistent` says that every ordered pair of distinct
  assigned variables is compatible. `ExamCsp.IsSolution` adds that the
  assignment is complete and stays within the domains. No search is modelled.

A course name counts as *plain* (`PlainName`) when it does not itself contain
`" (Εργαστήριο)"`. The lab lemmas are stated for plain names. For any other
name, `str.replace` would strip more than the appended suffix.

Three consequences of the name-based rules, modelled as the code is written:
- The comments at `exam_schedule.py:52` and `:55` promise "at least 2 days
  apart for difficult courses". The same-instructor rule at `:49-50` decides
  before that rule. So two difficult courses with one instructor only need
  different days (`InstructorPreemptsDifficulty`).
- The predicate is symmetric only for two distinct variables. Symmetry fails
  for a variable paired with itself when its name ends with the lab tag but
  does not contain the lab suffix (`SelfPairNotSymmetric`). The neighbour
  relation never forms such a pair.
- A course whose own name contains the lab suffix loses its lab link: its lab
  variable's name strips down past the course name (`SuffixedCourseLosesLab`).

## Model

| member | source | states |
|---|---|---|
| TextOps.RemoveAll | exam_schedule.py:42-44 | removing every lab suffix leaves the name unchanged when the suffix does not occur, and shortens it by at least one suffix when it does |
| TextOps.RemoveAppended | exam_schedule.py:32-44 | removing the suffix from `name + " (Εργαστήριο)"` gives back `name` when `name` does not contain the suffix |
| ExamModel.VariablesCount | exam_schedule.py:23-34 | the variable list has one entry per course plus one per course whose lab flag is `"TRUE"` |
| ExamModel.VariablesPrefix | exam_schedule.py:23-34 | the variables built from a prefix of the courses are a prefix of the variable list (append-only construction) |
| ExamModel.VariablesLayout | exam_schedule.py:23-34 | course i's variable sits at its position; a lab variable comes immediately after its course; the next course starts one or two places later |
| ExamModel.PositionsIncrease | exam_schedule.py:23-25 | courses appear in the variable list in input order |
| ExamModel.VariableOrigin | exam_schedule.py:23-34 | every variable is some course's name, or the lab name placed right after a course with a lab |
| ExamModel.DomainFromIndex | exam_schedule.py:6-28 | the values from a given day onwards number 3 per remaining day, and the k-th is day `day + k/3`, slot `k%3 + 1` |
| ExamModel.FullDomainShape | exam_schedule.py:6-34 | every domain holds exactly 63 values, the k-th being `(k/3 + 1, k%3 + 1)`: day-major over days 1..21 and slots 1..3 |
| ExamModel.FullDomainMembers | exam_schedule.py:28-34 | a value is in the domain exactly when 1 <= day <= 21 and 1 <= slot <= 3 |
| ExamModel.NeighborsComplete | exam_schedule.py:36-37 | every variable has a neighbour entry holding only variables; `v` is a neighbour of `u` exactly when `u != v`; the relation is symmetric |
| ExamSchedule.CreateExamCsp | exam_schedule.py:16-37 | the loops build exactly the specified variable list, give every variable the full domain, and give every variable all the others as neighbours |
| ExamSchedule.ExamCsp.constructor | exam_schedule.py:16-69 | the object holds the course table and the model construction builds from it, and has made no checks yet |
| ExamSchedule.ExamCsp.Constraints | exam_schedule.py:39-66 | each call adds exactly one to the check counter and returns the rule chain's verdict |
| ExamSchedule.ExamCsp.SolutionProperties | exam_schedule.py:28-45 | in a solution, a course with a lab is on an exam day in slot 1 or 2, and its lab is on the same day one slot later |
| ExamConstraints.FindCourseFrom | exam_schedule.py:47-58 | the lookup returns the first course carrying the name, or none when no course carries it |
| ExamConstraints.LookupsMissing | exam_schedule.py:47-58 | instructor and semester lookups give None exactly when no course has the name, and such a name is not difficult; an empty field still counts as defined |
| ExamConstraints.LookupsFirstMatch | exam_schedule.py:47-58 | with duplicate names, the first matching row's instructor and semester are used |
| ExamConstraints.LinkedLabIsOwnTheory | exam_schedule.py:42-45 | a lab variable is linked to exactly its own course, and a course is never taken for the lab of its lab variable |
| ExamConstraints.LabTheoryRule | exam_schedule.py:42-45 | for a lab and its course, in either argument order: compatible iff same day and lab slot = theory slot + 1 |
| ExamConstraints.TheoryInLastSlotHasNoLab | exam_schedule.py:28-45 | a course in slot 3 has no compatible lab value in the domain, in either argument order |
| ExamConstraints.LabAgainstOthers | exam_schedule.py:47-66 | a lab variable without a course row, against a variable it is not linked with: compatible iff the values differ |
| ExamConstraints.InstructorRule | exam_schedule.py:47-50 | unlinked pair with the same defined instructor: compatible iff on different days |
| ExamConstraints.DifficultyRule | exam_schedule.py:53-55 | unlinked pair without a shared instructor, both difficult: compatible iff at least two days apart |
| ExamConstraints.SemesterRule | exam_schedule.py:57-60 | no earlier rule applies and same defined semester: compatible iff on different days |
| ExamConstraints.SlotRule | exam_schedule.py:62-66 | no earlier rule applies: incompatible iff both values are the same (day, slot) |
| ExamConstraints.SameValueIncompatible | exam_schedule.py:39-66 | whatever rule decides, two variables at the same value are incompatible |
| ExamConstraints.InstructorPreemptsDifficulty | exam_schedule.py:47-55 | two difficult courses with one instructor on consecutive days are accepted |
| ExamConstraints.NotMutuallyLinked | exam_schedule.py:42-45 | two distinct names are never each other's lab |
| ExamConstraints.ConstraintSymmetric | exam_schedule.py:39-66 | for distinct variables, swapping the arguments does not change the verdict |
| ExamConstraints.SelfPairNotSymmetric | exam_schedule.py:42-45 | for the name `(Εργαστήριο)` paired with itself, the verdict depends on argument order |
| ExamConstraints.SolutionValuesDistinct | exam_schedule.py:62-63 | in a consistent assignment no two distinct variables share a (day, slot) |
| ExamConstraints.SolutionLabFollowsTheory | exam_schedule.py:42-45 | in a consistent assignment a lab is on its course's day, one slot later, so the course is not in slot 3 when the lab's value is in the domain |
| ExamConstraints.SolutionSameInstructorDifferentDays | exam_schedule.py:47-50 | in a consistent assignment, unlinked variables with one defined instructor are on different days |
| ExamModel.HasLab | exam_schedule.py:31 | a course has a lab exactly when its lab column is the text "TRUE" |
| ExamModel.LabName | exam_schedule.py:32 | the lab variable's name: the course name followed by " (Εργαστήριο)" |
| ExamModel.CourseVariables | exam_schedule.py:24-33 | one loop pass: the course name, then its lab name when the course has a lab |
| ExamConstraints.FindCourse | exam_schedule.py:47-58 | the index of the first row of the whole table carrying the name, or None |
| TextOps.RemoveAppendedAny | exam_schedule.py:32-44 | removing every suffix from a name with one suffix appended gives the same as removing every suffix from the name |
| ExamModel.VariablesOf | exam_schedule.py:23-34 | the variable list: course by course, the course name, followed by its lab name when the lab flag is exactly "TRUE" |
| ExamModel.DomainFrom | exam_schedule.py:28 | the (day, slot) pairs for days from `day` to 21, day-major, slots 1..3 within each day |
| ExamModel.FullDomain | exam_schedule.py:6-34 | the domain list every theory and lab variable receives: days 1..21 (from `total_days = 22`), slots 1..3 |
| ExamModel.DomainsOf | exam_schedule.py:28-34 | every variable is mapped to the full domain list |
| ExamModel.NeighborsOf | exam_schedule.py:36-37 | every variable is mapped to the set of all variables minus itself |
| TextOps.EndsWith | exam_schedule.py:42-44 | `str.endswith`: the last characters of the string equal the suffix |
| ExamConstraints.Linked | exam_schedule.py:42-44 | the lab test: `A` ends with "(Εργαστήριο)" and `B` equals `A` with every " (Εργαστήριο)" removed |
| ExamConstraints.InstructorOf | exam_schedule.py:47-48 | the instructor field of the first row with that name, or None when no row has it |
| ExamConstraints.SemesterOf | exam_schedule.py:57-58 | the semester field of the first row with that name, or None when no row has it |
| ExamConstraints.IsDifficult | exam_schedule.py:53-54 | some row with that name has the difficulty flag exactly "TRUE" |
| ExamConstraints.Constraint | exam_schedule.py:39-66 | the first-match rule chain: lab after theory (both orders), same defined instructor, both difficult, same defined semester, identical value |
| ExamConstraints.AllConsistent | exam_schedule.py:36-66 | every ordered pair of distinct assigned variables passes the rule chain, as every variable neighbours every other |
| ExamSchedule.ExamCsp.IsSolution | exam_schedule.py:16-69 | the assignment covers exactly the variables, keeps each within its domain, and is consistent |
| ExamConstraints.SuffixedCourseLosesLab | exam_schedule.py:32-44 | a course whose name contains " (Εργαστήριο)" is not linked with its own lab variable, because removing every suffix from the lab's name strips the course name too |
| ExamConstraints.SolutionSameSemesterDifferentDays | exam_schedule.py:47-60 | in a consistent assignment, distinct unlinked variables with one defined semester are on different days, whichever of rules 2-4 decides |
| ExamConstraints.SolutionDifficultApart | exam_schedule.py:47-55 | in a consistent assignment, distinct unlinked difficult variables without a shared defined instructor are at least two days apart |

## Left out

- The search engine (backtracking, forward checking, MAC, MRV, dom/wdeg, min-conflicts) and the `CSP` class. They come from `csp.py`, which is not part of this model. `IsSolution` states what a solution must satisfy, without modelling how one is found.
- `read_courses` (file input, ISO-8859-7 decoding, CSV parsing). Its output is taken as a sequence of `Course` records whose fields are all text. Short rows, whose missing fields the CSV reader fills with None, are not modelled.
- `print_solution`, `solve_csp` and the main block. These cover console output, wall-clock timing, the metrics table and the counter resets between configurations.
- The `weights` table. It is created empty and only handed to the `CSP` class.
- The assignment counter `nassigns`. It belongs to the `CSP` class.
- The check counter lives on the module-global `csp` object, bound in the main block to what `create_exam_csp` returns. The model puts the counter on that object (`ExamCsp.checkCount`), matching the main block's single instance. A caller outside the main block, where `csp` is unbound and the increment raises an error, is not modelled.
- ExamSchedule.ExamCsp.constructor: the counter's starting value is set by the `CSP` class, which is not part of this model. It is taken to be 0.
- ExamConstraints.ConstraintSymmetric: symmetry is stated for distinct variables only. For a self-pair it can fail (see `SelfPairNotSymmetric`).
- ExamConstraints.LabTheoryRule: stated for plain course names only. For names that contain the lab suffix, `str.replace` removes more than the appended suffix.
- ExamConstraints.LabAgainstOthers: assumes the other variable is not linked with the lab in either direction. Contrived names can make the name-based test pair a lab with something other than its course.
