/** The database rows the completion observer reads and writes, and the two
    queries it issues against the `enrol` table. */
module Records {

  datatype Option<+T> = None | Some(value: T)

  /** Name of the enrolment plugin, as stored in the `enrol` column. */
  const PLUGIN: string := "coursecompleted"

  /** The developer diagnostic emitted when a rule names a role that does not exist. */
  const ROLE_MISSING: string := "Role does not exist"

  /** A row of the `enrol` table. `courseId` is the course the rule enrols into,
      `customInt1` the course whose completion triggers it, `customInt2 > 0`
      asks for a welcome message, `status == 0` means enabled. Times are Unix seconds. */
  datatype EnrolRule = EnrolRule(
    id: int,
    enrol: string,
    status: int,
    courseId: int,
    customInt1: int,
    customInt2: int,
    roleId: int,
    enrolPeriod: int,
    enrolStartDate: int,
    enrolEndDate: int)

  /** A row of the `groups` table. */
  datatype Group = Group(id: int, courseId: int, name: string)

  /** A grouping of a course, with the ids of the groups it contains. */
  datatype Grouping = Grouping(id: int, courseId: int, groupIds: seq<int>)

  /** What the plugin's `enrol_user` records for one (instance, user) pair. */
  datatype Enrolment = Enrolment(courseId: int, roleId: int, timeStart: int, timeEnd: int)

  /** The custom data of a queued `send_welcome` ad-hoc task. */
  datatype WelcomeJob = WelcomeJob(userId: int, enrolId: int, courseId: int, completedId: int)

  /** The `course_completed` event: the completed course and the user who completed it. */
  datatype CourseCompleted = CourseCompleted(courseId: int, relatedUserId: int)

  /** The condition of `get_records('enrol', ...)` in the completion handler. */
  predicate Matches(r: EnrolRule, completed: int)
  {
    r.enrol == PLUGIN && r.status == 0 && r.customInt1 == completed
  }

  /** The condition of `delete_records('enrol', ...)` in the deletion handler. */
  predicate DeletedWith(r: EnrolRule, deleted: int)
  {
    r.enrol == PLUGIN && r.customInt1 == deleted
  }

  /** The rules fired by the completion of `completed`, in table order. */
  function MatchingRules(rules: seq<EnrolRule>, completed: int): (m: seq<EnrolRule>)
    ensures |m| <= |rules|
    ensures forall r :: r in m <==> r in rules && Matches(r, completed)
  {
    if rules == [] then []
    else (if Matches(rules[0], completed) then [rules[0]] else []) + MatchingRules(rules[1..], completed)
  }

  /** The rule table after the rows deleted with course `deleted` are gone. */
  function RemainingRules(rules: seq<EnrolRule>, deleted: int): (m: seq<EnrolRule>)
    ensures |m| <= |rules|
    ensures forall r :: r in m <==> r in rules && !DeletedWith(r, deleted)
  {
    if rules == [] then []
    else (if DeletedWith(rules[0], deleted) then [] else [rules[0]]) + RemainingRules(rules[1..], deleted)
  }

  /** `id` is the primary key of the `enrol` table. */
  predicate UniqueRuleIds(rules: seq<EnrolRule>)
  {
    forall i, j :: 0 <= i < |rules| && 0 <= j < |rules| && i != j ==> rules[i].id != rules[j].id
  }

  /** Both queries are filters: they distribute over a split of the table,
      so each keeps the relative order of the rows it keeps. */
  lemma {:induction false} MatchingRulesConcat(a: seq<EnrolRule>, b: seq<EnrolRule>, completed: int)
    ensures MatchingRules(a + b, completed) == MatchingRules(a, completed) + MatchingRules(b, completed)
  {
    if a == [] {
      assert a + b == b;
    } else {
      assert (a + b)[1..] == a[1..] + b;
      MatchingRulesConcat(a[1..], b, completed);
    }
  }

  lemma {:induction false} RemainingRulesConcat(a: seq<EnrolRule>, b: seq<EnrolRule>, deleted: int)
    ensures RemainingRules(a + b, deleted) == RemainingRules(a, deleted) + RemainingRules(b, deleted)
  {
    if a == [] {
      assert a + b == b;
    } else {
      assert (a + b)[1..] == a[1..] + b;
      RemainingRulesConcat(a[1..], b, deleted);
    }
  }

  /** A completion that no row matches fires nothing. */
  lemma {:induction false} MatchingRulesNone(rules: seq<EnrolRule>, completed: int)
    requires forall r :: r in rules ==> !Matches(r, completed)
    ensures MatchingRules(rules, completed) == []
  {
    if rules != [] {
      MatchingRulesNone(rules[1..], completed);
    }
  }

  /** Prepending a row whose id is new keeps the ids unique. */
  lemma UniqueRuleIdsCons(h: EnrolRule, rest: seq<EnrolRule>)
    requires UniqueRuleIds(rest)
    requires forall r :: r in rest ==> r.id != h.id
    ensures UniqueRuleIds([h] + rest)
  {
    var t := [h] + rest;
    forall i, j | 0 <= i < |t| && 0 <= j < |t| && i != j
      ensures t[i].id != t[j].id
    {
      if i > 0 { assert t[i] == rest[i - 1]; }
      if j > 0 { assert t[j] == rest[j - 1]; }
    }
  }

  lemma UniqueRuleIdsTail(rules: seq<EnrolRule>)
    requires rules != [] && UniqueRuleIds(rules)
    ensures UniqueRuleIds(rules[1..])
    ensures forall r :: r in rules[1..] ==> r.id != rules[0].id
  {
    var t := rules[1..];
    forall i, j | 0 <= i < |t| && 0 <= j < |t| && i != j
      ensures t[i].id != t[j].id
    {
      assert t[i] == rules[i + 1] && t[j] == rules[j + 1];
    }
    forall r | r in t
      ensures r.id != rules[0].id
    {
      var k :| 0 <= k < |t| && t[k] == r;
      assert rules[k + 1] == r;
    }
  }

  /** A filter of a table with a primary key still has one. */
  lemma {:induction false} MatchingRulesUniqueIds(rules: seq<EnrolRule>, completed: int)
    requires UniqueRuleIds(rules)
    ensures UniqueRuleIds(MatchingRules(rules, completed))
  {
    if rules != [] {
      UniqueRuleIdsTail(rules);
      MatchingRulesUniqueIds(rules[1..], completed);
      if Matches(rules[0], completed) {
        UniqueRuleIdsCons(rules[0], MatchingRules(rules[1..], completed));
      }
    }
  }

  lemma {:induction false} RemainingRulesUniqueIds(rules: seq<EnrolRule>, deleted: int)
    requires UniqueRuleIds(rules)
    ensures UniqueRuleIds(RemainingRules(rules, deleted))
  {
    if rules != [] {
      UniqueRuleIdsTail(rules);
      RemainingRulesUniqueIds(rules[1..], deleted);
      if !DeletedWith(rules[0], deleted) {
        UniqueRuleIdsCons(rules[0], RemainingRules(rules[1..], deleted));
      }
    }
  }
}
