/**
 The job form's record and the pure part of its change handler: replacing one
 named text field, and adding or removing a skill in the list of checked
 skills.
 */
module FormRecord {

  /** The keys of the form record. */
  datatype Name =
    | FullName
    | Email
    | PhoneNumber
    | Position
    | RelevantExperience
    | PortfolioURL
    | ManagementExperience
    | AdditionalSkills
    | InterviewTime

  /** The keys that hold text: every input of the form except the skill checkboxes. */
  type ScalarName = n: Name | !n.AdditionalSkills? witness FullName

  /** The form record. Every field is the text its input holds, except
      `additionalSkills`, the list of the values of the checked skill boxes. */
  datatype FormData = FormData(
    fullName: string,
    email: string,
    phoneNumber: string,
    position: string,
    relevantExperience: string,
    portfolioURL: string,
    managementExperience: string,
    additionalSkills: seq<string>,
    interviewTime: string)

  /** The record the form starts with: every text field empty and no skill checked. */
  function Initial(): (f: FormData)
    ensures forall n: Name | !n.AdditionalSkills? :: Get(f, n) == ""
    ensures f.additionalSkills == []
  {
    FormData("", "", "", "", "", "", "", [], "")
  }

  /** An input event as the change handler reads it: a skill checkbox with its
      value and new checked state, or another input with its name and value. */
  datatype Change =
    | Checkbox(value: string, checked: bool)
    | Input(name: ScalarName, value: string)

  /** The text held under a text key. */
  function Get(f: FormData, n: ScalarName): string {
    match n
    case FullName => f.fullName
    case Email => f.email
    case PhoneNumber => f.phoneNumber
    case Position => f.position
    case RelevantExperience => f.relevantExperience
    case PortfolioURL => f.portfolioURL
    case ManagementExperience => f.managementExperience
    case InterviewTime => f.interviewTime
  }

  /** The record with the text under n replaced by v: that key now holds v,
      and every other key, the skill list included, holds what it held. */
  function SetField(f: FormData, n: ScalarName, v: string): (r: FormData)
    ensures Get(r, n) == v
    ensures forall m: Name | !m.AdditionalSkills? && m != n :: Get(r, m) == Get(f, m)
    ensures r.additionalSkills == f.additionalSkills
  {
    match n
    case FullName => f.(fullName := v)
    case Email => f.(email := v)
    case PhoneNumber => f.(phoneNumber := v)
    case Position => f.(position := v)
    case RelevantExperience => f.(relevantExperience := v)
    case PortfolioURL => f.(portfolioURL := v)
    case ManagementExperience => f.(managementExperience := v)
    case InterviewTime => f.(interviewTime := v)
  }

  /** The skill list without any occurrence of v: the list's `filter` with
      the test `skill !== v`. What is left is every other entry, each as often
      as before. */
  function Without(skills: seq<string>, v: string): (r: seq<string>)
    ensures v !in r
    ensures multiset(r) == multiset(skills)[v := 0]
  {
    if skills == [] then []
    else
      assert skills == [skills[0]] + skills[1..];
      (if skills[0] == v then [] else [skills[0]]) + Without(skills[1..], v)
  }

  /** Filtering a concatenation filters each part and keeps them in order:
      the entries that stay keep their relative order. */
  lemma {:induction false} WithoutAppend(a: seq<string>, b: seq<string>, v: string)
    ensures Without(a + b, v) == Without(a, v) + Without(b, v)
  {
    if a == [] {
      assert a + b == b;
    } else {
      assert (a + b)[1..] == a[1..] + b;
      WithoutAppend(a[1..], b, v);
    }
  }

  /** Filtering out a value that is not in the list leaves the list as it was. */
  lemma {:induction false} WithoutAbsent(skills: seq<string>, v: string)
    requires v !in skills
    ensures Without(skills, v) == skills
  {
    if skills != [] {
      WithoutAbsent(skills[1..], v);
      assert skills == [skills[0]] + skills[1..];
    }
  }

  /** The skill list after a checkbox event: a checked box appends its value
      at the end, an unchecked one removes every occurrence of its value. */
  function ToggleSkill(skills: seq<string>, v: string, checked: bool): (r: seq<string>)
    ensures checked ==> |r| == |skills| + 1 && r[..|skills|] == skills && r[|skills|] == v
    ensures !checked ==> v !in r && multiset(r) == multiset(skills)[v := 0]
  {
    if checked then skills + [v] else Without(skills, v)
  }

  /** Checking a box whose value was not in the list and then unchecking it
      gives back the original list. */
  lemma CheckThenUncheck(skills: seq<string>, v: string)
    requires v !in skills
    ensures ToggleSkill(ToggleSkill(skills, v, true), v, false) == skills
  {
    WithoutAppend(skills, [v], v);
    WithoutAbsent(skills, v);
    assert Without([v], v) == [];
  }

  /** No value occurs twice in the list. */
  predicate Distinct(skills: seq<string>) {
    forall i, j | 0 <= i < j < |skills| :: skills[i] != skills[j]
  }

  /** The skill boxes are controlled by the list (`checked` is whether the list
      includes the box's value), so a click on a box sends the opposite of
      whether its value is listed. Such a click keeps the list free of
      repetitions, flips the box's own membership and leaves every other
      skill's membership as it was. */
  lemma ClickKeepsDistinct(skills: seq<string>, v: string, checked: bool)
    requires Distinct(skills)
    requires checked <==> v !in skills
    ensures Distinct(ToggleSkill(skills, v, checked))
    ensures v in ToggleSkill(skills, v, checked) <==> checked
    ensures forall x | x != v :: x in ToggleSkill(skills, v, checked) <==> x in skills
  {
    var r := ToggleSkill(skills, v, checked);
    if v in skills {
      forall x | x != v ensures x in r <==> x in skills {
        assert x in multiset(r) <==> x in multiset(skills);
      }
      DistinctByCount(skills);
      forall x ensures multiset(r)[x] <= 1 {
        assert multiset(r)[x] <= multiset(skills)[x];
      }
      CountDistinct(r);
    } else {
      assert r == skills + [v];
      forall x | x != v ensures x in r <==> x in skills {
        assert x in r ==> x in r[..|skills|];
      }
    }
  }

  /** A list without repetitions has each value at most once in its multiset. */
  lemma {:induction false} DistinctByCount(s: seq<string>)
    requires Distinct(s)
    ensures forall x :: multiset(s)[x] <= 1
  {
    if s != [] {
      assert Distinct(s[1..]) by {
        forall i, j | 0 <= i < j < |s[1..]| ensures s[1..][i] != s[1..][j] {
          assert s[1..][i] == s[i + 1] && s[1..][j] == s[j + 1];
        }
      }
      DistinctByCount(s[1..]);
      assert s == [s[0]] + s[1..];
      assert s[0] !in s[1..] by {
        forall k | 0 <= k < |s[1..]| ensures s[1..][k] != s[0] {
          assert s[1..][k] == s[k + 1];
        }
      }
    }
  }

  /** A list whose multiset holds each value at most once has no repetitions. */
  lemma {:induction false} CountDistinct(s: seq<string>)
    requires forall x :: multiset(s)[x] <= 1
    ensures Distinct(s)
  {
    forall i, j | 0 <= i < j < |s| ensures s[i] != s[j] {
      var x := s[i];
      assert s == s[..i] + [s[i]] + s[i + 1..j] + [s[j]] + s[j + 1..];
      assert multiset(s)[x] >= multiset([s[i]])[x] + multiset([s[j]])[x];
    }
  }

  /** The record after one input event: a checkbox event changes only the
      skill list and no text field; any other event changes only the text
      under its own name. */
  function Apply(f: FormData, e: Change): (r: FormData)
    ensures e.Checkbox? ==> forall n: Name | !n.AdditionalSkills? :: Get(r, n) == Get(f, n)
    ensures e.Checkbox? ==> r.additionalSkills == ToggleSkill(f.additionalSkills, e.value, e.checked)
    ensures e.Input? ==> r.additionalSkills == f.additionalSkills && Get(r, e.name) == e.value
    ensures e.Input? ==> forall m: Name | !m.AdditionalSkills? && m != e.name :: Get(r, m) == Get(f, m)
  {
    match e
    case Checkbox(v, checked) => f.(additionalSkills := ToggleSkill(f.additionalSkills, v, checked))
    case Input(n, v) => SetField(f, n, v)
  }
}
