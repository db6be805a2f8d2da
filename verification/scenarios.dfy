/** Concrete sites in the shape of the plugin's own test cases, with the outcome
    the completion handler gives them. Course 1 is the rule's course, course 2
    the completed one, role 5 the student role, user 7 the student. */
module Scenarios {
  import opened Records
  import opened Groups
  import opened Observer
  import opened Properties

  function Site(rules: seq<EnrolRule>, groups: seq<Group>, members: set<(int, int)>): SiteState
  {
    SiteState(rules, {5}, {1, 2}, groups, [], members, map[], [], [], {})
  }

  /** A table with one matching rule runs the loop body once. */
  lemma OneRule(s: SiteState, rule: EnrolRule, user: int, now: int)
    ensures ApplyRules(s, [rule], user, now) == ApplyRule(s, rule, user, now)
  {
    assert [rule][..0] == [];
  }

  /** A rule naming role 9999, which does not exist: one diagnostic, no enrolment,
      no job, no dirty mark. */
  lemma InvalidRoleScenario(now: int)
    ensures var rule := EnrolRule(10, PLUGIN, 0, 1, 2, 0, 9999, 0, 0, 0);
      var s := Site([rule], [], {});
      OnCourseCompleted(s, CourseCompleted(2, 7), now) == s.(debug := [ROLE_MISSING])
  {
    var rule := EnrolRule(10, PLUGIN, 0, 1, 2, 0, 9999, 0, 0, 0);
    assert MatchingRules([rule], 2) == [rule];
    OneRule(Site([rule], [], {}), rule, 7, now);
  }

  /** The groups of the next scenario: "A group" in course 1 and in course 2. */
  function TwoGroups(): seq<Group>
  {
    [Group(21, 1, "A group"), Group(22, 2, "A group")]
  }

  /** A member of group 22 of course 2 is mirrored into group 21 of course 1. */
  lemma TwoGroupsMirror()
    ensures Mirrored(TwoGroups(), 1, 7, Flatten(UserGroupings(TwoGroups(), [], {(22, 7)}, 2, 7))) == {(21, 7)}
  {
    var groups := TwoGroups();
    assert UserGroupIds(groups, {(22, 7)}, 2, 7) == [22];
    assert GroupingSlices([], 2, [22]) == [];
    assert UserGroupings(groups, [], {(22, 7)}, 2, 7) == [[22]];
    assert Flatten([[22]]) == [22] by { assert [[22]][..0] == []; }
    assert MirrorTarget(groups, 1, 22) == Some(21) by {
      assert GroupName(groups, 22) == Some("A group");
      assert GroupByName(groups, 1, "A group") == Some(21);
    }
    assert [22][..0] == [];
  }

  /** Both courses have a group called "A group"; the student is in the one of the
      completed course and ends up in the one of the rule's course as well. */
  lemma GroupsChildScenario(now: int)
    ensures var rule := EnrolRule(10, PLUGIN, 0, 1, 2, 0, 5, 0, 0, 0);
      var s := Site([rule], TwoGroups(), {(22, 7)});
      var t := OnCourseCompleted(s, CourseCompleted(2, 7), now);
      && t.members == {(21, 7), (22, 7)}
      && t.enrolments == map[(10, 7) := Enrolment(1, 5, 0, 0)]
      && t.dirty == {7}
  {
    var rule := EnrolRule(10, PLUGIN, 0, 1, 2, 0, 5, 0, 0, 0);
    var s := Site([rule], TwoGroups(), {(22, 7)});
    assert MatchingRules([rule], 2) == [rule];
    OneRule(s, rule, 7, now);
    TwoGroupsMirror();
    RuleGranted(s, rule, 7, now);
  }

  /** A rule with a 300000-second period and a welcome message, started in the past:
      the enrolment ends 300000 seconds from now and exactly one job is queued. */
  lemma PeriodAndWelcomeScenario(now: int)
    requires now >= 0
    ensures var rule := EnrolRule(10, PLUGIN, 0, 1, 2, 1, 5, 300000, 0, 0);
      var t := OnCourseCompleted(Site([rule], [], {}), CourseCompleted(2, 7), now);
      && t.enrolments == map[(10, 7) := Enrolment(1, 5, 0, now + 300000)]
      && t.jobs == [WelcomeJob(7, 10, 1, 2)]
  {
    var rule := EnrolRule(10, PLUGIN, 0, 1, 2, 1, 5, 300000, 0, 0);
    assert MatchingRules([rule], 2) == [rule];
    OneRule(Site([rule], [], {}), rule, 7, now);
  }

  /** Of the rules triggered by courses 2 and 3, completing course 2 fires only the
      first, and it queues no job because its `customInt2` is 0. */
  lemma NoWelcomeScenario(now: int)
    ensures var quiet := EnrolRule(10, PLUGIN, 0, 1, 2, 0, 5, 0, 0, 0);
      var loud := EnrolRule(11, PLUGIN, 0, 1, 3, 1, 5, 0, 0, 0);
      var t := OnCourseCompleted(Site([quiet, loud], [], {}), CourseCompleted(2, 7), now);
      && t.jobs == []
      && t.enrolments.Keys == {(10, 7)}
  {
    var quiet := EnrolRule(10, PLUGIN, 0, 1, 2, 0, 5, 0, 0, 0);
    var loud := EnrolRule(11, PLUGIN, 0, 1, 3, 1, 5, 0, 0, 0);
    assert MatchingRules([quiet, loud], 2) == [quiet];
    OneRule(Site([quiet, loud], [], {}), quiet, 7, now);
  }

  /** A disabled rule (`status` 1) fires nothing. */
  lemma DisabledScenario(now: int)
    ensures var rule := EnrolRule(10, PLUGIN, 1, 1, 2, 1, 5, 0, 0, 0);
      var s := Site([rule], [], {});
      OnCourseCompleted(s, CourseCompleted(2, 7), now) == s
  {
    var rule := EnrolRule(10, PLUGIN, 1, 1, 2, 1, 5, 0, 0, 0);
    assert MatchingRules([rule], 2) == [];
  }
}
