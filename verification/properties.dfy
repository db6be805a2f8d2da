/** What the completion and deletion handlers guarantee, proved about the
    functions their methods are verified against. */
module Properties {
  import opened Records
  import opened Groups
  import opened Observer

  /** The rules of `rs` that `keep` selects, in order. */
  function Filter(rs: seq<EnrolRule>, keep: EnrolRule -> bool): seq<EnrolRule>
  {
    if rs == [] then [] else Filter(rs[..|rs| - 1], keep) + (if keep(rs[|rs| - 1]) then [rs[|rs| - 1]] else [])
  }

  /** One welcome job per rule, in the order of the rules. */
  function WelcomesFor(rs: seq<EnrolRule>, user: int): seq<WelcomeJob>
  {
    seq(|rs|, k requires 0 <= k < |rs| => WelcomeFor(rs[k], user))
  }

  /** The enrolment keys written by the rules of `rs` that pass both checks. */
  function GrantedKeys(roles: set<int>, courses: set<int>, rs: seq<EnrolRule>, user: int): set<(int, int)>
  {
    set r | r in rs && RuleOutcome(roles, courses, r) == Granted :: (r.id, user)
  }

  /** The memberships mirrored by the rules of `rs` that pass both checks, each
      computed in state `s`. */
  function MirroredAll(s: SiteState, rs: seq<EnrolRule>, user: int): set<(int, int)>
  {
    if rs == [] then {}
    else
      var r := rs[|rs| - 1];
      MirroredAll(s, rs[..|rs| - 1], user) + (if RuleOutcome(s.roles, s.courses, r) == Granted then MirrorOf(s, r, user) else {})
  }

  lemma {:induction false} FilterMembers(rs: seq<EnrolRule>, keep: EnrolRule -> bool)
    ensures forall r :: r in Filter(rs, keep) <==> r in rs && keep(r)
  {
    if rs != [] {
      var front := rs[..|rs| - 1];
      FilterMembers(front, keep);
      assert rs == front + [rs[|rs| - 1]];
    }
  }

  // ---------------------------------------------------------------------------
  // One rule

  /** A matched rule whose role does not exist leaves one diagnostic and changes nothing else. */
  lemma RuleMissingRole(s: SiteState, r: EnrolRule, user: int, now: int)
    requires r.roleId !in s.roles
    ensures ApplyRule(s, r, user, now) == s.(debug := s.debug + [ROLE_MISSING])
  {
  }

  /** A matched rule with an existing role but a missing course is skipped silently. */
  lemma RuleMissingCourse(s: SiteState, r: EnrolRule, user: int, now: int)
    requires r.roleId in s.roles && r.courseId !in s.courses
    ensures ApplyRule(s, r, user, now) == s
  {
  }

  /** A rule that passes both checks enrols the user into its course with its role,
      from its stored start date to the computed end; queues a welcome job exactly
      when `customInt2 > 0`; adds the mirrored memberships; marks the user dirty;
      and leaves the tables and the debugging log as they were. */
  lemma RuleGranted(s: SiteState, r: EnrolRule, user: int, now: int)
    requires r.roleId in s.roles && r.courseId in s.courses
    ensures var t := ApplyRule(s, r, user, now);
      && t.enrolments == s.enrolments[(r.id, user) := Enrolment(r.courseId, r.roleId, r.enrolStartDate, EnrolEnd(r, now))]
      && t.jobs == s.jobs + (if r.customInt2 > 0 then [WelcomeJob(user, r.id, r.courseId, r.customInt1)] else [])
      && t.members == s.members + MirrorOf(s, r, user)
      && t.dirty == s.dirty + {user}
      && t.debug == s.debug
      && t.rules == s.rules && t.roles == s.roles && t.courses == s.courses
      && t.groups == s.groups && t.groupings == s.groupings
  {
  }

  // ---------------------------------------------------------------------------
  // The loop over the matched rules

  /** Processing rules never changes the rule, role, course, group or grouping
      tables, and only adds memberships, jobs, diagnostics and dirty users. */
  lemma {:induction false} ApplyRulesFrame(s: SiteState, rs: seq<EnrolRule>, user: int, now: int)
    ensures var t := ApplyRules(s, rs, user, now);
      && t.rules == s.rules && t.roles == s.roles && t.courses == s.courses
      && t.groups == s.groups && t.groupings == s.groupings
      && s.members <= t.members && s.dirty <= t.dirty
      && s.jobs <= t.jobs && s.debug <= t.debug
  {
    if rs != [] {
      ApplyRulesFrame(s, rs[..|rs| - 1], user, now);
    }
  }

  /** Exactly one welcome job is queued per rule that passes both checks and has
      `customInt2 > 0`, in rule order, with the user, the rule id, the rule's course
      and the completed course as its data. */
  lemma {:induction false} ApplyRulesJobs(s: SiteState, rs: seq<EnrolRule>, user: int, now: int)
    ensures ApplyRules(s, rs, user, now).jobs
            == s.jobs + WelcomesFor(Filter(rs, r => RuleOutcome(s.roles, s.courses, r) == Granted && r.customInt2 > 0), user)
  {
    var keep := (r: EnrolRule) => RuleOutcome(s.roles, s.courses, r) == Granted && r.customInt2 > 0;
    if rs != [] {
      var front, x := rs[..|rs| - 1], rs[|rs| - 1];
      ApplyRulesJobs(s, front, user, now);
      ApplyRulesFrame(s, front, user, now);
      var kept := Filter(front, keep);
      if keep(x) {
        assert WelcomesFor(kept + [x], user) == WelcomesFor(kept, user) + [WelcomeFor(x, user)];
      }
    }
  }

  /** One `Role does not exist` diagnostic per rule whose role is missing, and no other. */
  lemma {:induction false} ApplyRulesDebug(s: SiteState, rs: seq<EnrolRule>, user: int, now: int)
    ensures ApplyRules(s, rs, user, now).debug
            == s.debug + seq(|Filter(rs, (r: EnrolRule) => r.roleId !in s.roles)|, _ => ROLE_MISSING)
  {
    var keep := (r: EnrolRule) => r.roleId !in s.roles;
    if rs != [] {
      var front, x := rs[..|rs| - 1], rs[|rs| - 1];
      ApplyRulesDebug(s, front, user, now);
      ApplyRulesFrame(s, front, user, now);
      var n := |Filter(front, keep)|;
      if keep(x) {
        assert seq(n + 1, _ => ROLE_MISSING) == seq(n, _ => ROLE_MISSING) + [ROLE_MISSING];
      }
    }
  }

  /** The user is marked dirty exactly when some rule passes both checks. */
  lemma {:induction false} ApplyRulesDirty(s: SiteState, rs: seq<EnrolRule>, user: int, now: int)
    ensures ApplyRules(s, rs, user, now).dirty
            == s.dirty + (if exists r :: r in rs && RuleOutcome(s.roles, s.courses, r) == Granted then {user} else {})
  {
    if rs != [] {
      var front, x := rs[..|rs| - 1], rs[|rs| - 1];
      ApplyRulesDirty(s, front, user, now);
      ApplyRulesFrame(s, front, user, now);
      assert forall r :: r in rs <==> r in front || r == x;
    }
  }

  /** With distinct rule ids, every rule that passes both checks leaves the user
      enrolled in its instance with its course, role, start date and computed end;
      every other enrolment is as it was. */
  lemma {:induction false} ApplyRulesEnrolments(s: SiteState, rs: seq<EnrolRule>, user: int, now: int)
    requires UniqueRuleIds(rs)
    ensures var t := ApplyRules(s, rs, user, now);
      && t.enrolments.Keys == s.enrolments.Keys + GrantedKeys(s.roles, s.courses, rs, user)
      && (forall r :: r in rs && RuleOutcome(s.roles, s.courses, r) == Granted ==>
            t.enrolments[(r.id, user)] == Enrolment(r.courseId, r.roleId, r.enrolStartDate, EnrolEnd(r, now)))
      && (forall k :: k in s.enrolments && k !in GrantedKeys(s.roles, s.courses, rs, user) ==>
            t.enrolments[k] == s.enrolments[k])
  {
    if rs != [] {
      var front, x := rs[..|rs| - 1], rs[|rs| - 1];
      assert UniqueRuleIds(front) by {
        forall i, j | 0 <= i < |front| && 0 <= j < |front| && i != j
          ensures front[i].id != front[j].id
        {
          assert front[i] == rs[i] && front[j] == rs[j];
        }
      }
      ApplyRulesEnrolments(s, front, user, now);
      ApplyRulesFrame(s, front, user, now);
      assert forall r :: r in rs <==> r in front || r == x;
      forall r | r in front
        ensures r.id != x.id
      {
        var i :| 0 <= i < |front| && front[i] == r;
        assert rs[i] == r && rs[|rs| - 1] == x;
      }
    }
  }

  /** States that give the user the same group names in `completed` mirror the
      same memberships for rules triggered by `completed`. */
  lemma {:induction false} MirroredAllSame(s: SiteState, t: SiteState, rs: seq<EnrolRule>, user: int, completed: int)
    requires s.groups == t.groups && s.groupings == t.groupings && s.roles == t.roles && s.courses == t.courses
    requires UniqueGroupIds(s.groups)
    requires UserGroupNames(t.groups, t.members, completed, user) == UserGroupNames(s.groups, s.members, completed, user)
    requires forall r :: r in rs ==> r.customInt1 == completed
    ensures MirroredAll(t, rs, user) == MirroredAll(s, rs, user)
  {
    if rs != [] {
      var front, x := rs[..|rs| - 1], rs[|rs| - 1];
      assert forall r :: r in front ==> r in rs;
      MirroredAllSame(s, t, front, user, completed);
      MirrorByNames(s.groups, s.groupings, t.members, s.members, completed, x.courseId, user);
    }
  }

  /** Every mirrored membership is in a group of the course of one of the rules. */
  lemma {:induction false} MirroredAllInTargets(s: SiteState, rs: seq<EnrolRule>, user: int, p: (int, int))
    requires p in MirroredAll(s, rs, user)
    ensures exists r, g :: r in rs && g in s.groups && g.id == p.0 && g.courseId == r.courseId
  {
    var front, x := rs[..|rs| - 1], rs[|rs| - 1];
    if p in MirroredAll(s, front, user) {
      MirroredAllInTargets(s, front, user, p);
      assert forall r :: r in front ==> r in rs;
    } else {
      var ids := Flatten(UserGroupings(s.groups, s.groupings, s.members, x.customInt1, user));
      MirroredInTarget(s.groups, x.courseId, user, ids, p);
    }
  }

  /** Every group the rules of `rs` mirror the user into bears a name the user
      already has in the completed course. */
  lemma {:induction false} MirroredAllNameKnown(s: SiteState, rs: seq<EnrolRule>, user: int, completed: int,
                                                p: (int, int), g: Group)
    requires UniqueGroupIds(s.groups)
    requires forall r :: r in rs ==> r.customInt1 == completed
    requires p in MirroredAll(s, rs, user) && g in s.groups && g.id == p.0
    ensures p.1 == user && g.name in UserGroupNames(s.groups, s.members, completed, user)
  {
    var front, x := rs[..|rs| - 1], rs[|rs| - 1];
    if p in MirroredAll(s, front, user) {
      assert forall r :: r in front ==> r in rs;
      MirroredAllNameKnown(s, front, user, completed, p, g);
    } else {
      MirroredInTarget(s.groups, x.courseId, user, Flatten(UserGroupings(s.groups, s.groupings, s.members, completed, user)), p);
      MirroredNameKnown(s.groups, s.groupings, s.members, completed, x.courseId, user, p, g);
    }
  }

  /** The memberships added are those that mirroring the user's groups of the
      completed course, as they were before the event, yields for each rule that
      passes both checks: a rule that enrols into the completed course itself only
      adds the user to groups bearing names the user already has there, so later
      rules mirror the same memberships. */
  lemma {:induction false} ApplyRulesMembers(s: SiteState, rs: seq<EnrolRule>, user: int, now: int, completed: int)
    requires UniqueGroupIds(s.groups)
    requires forall r :: r in rs ==> r.customInt1 == completed
    ensures ApplyRules(s, rs, user, now).members == s.members + MirroredAll(s, rs, user)
  {
    if rs != [] {
      var front, x := rs[..|rs| - 1], rs[|rs| - 1];
      assert forall r :: r in front ==> r in rs;
      ApplyRulesMembers(s, front, user, now, completed);
      ApplyRulesFrame(s, front, user, now);
      var a := ApplyRules(s, front, user, now);
      var extra := MirroredAll(s, front, user);
      forall p, g | p in extra && g in s.groups && g.id == p.0 && g.courseId == completed && p.1 == user
        ensures g.name in UserGroupNames(s.groups, s.members, completed, user)
      {
        MirroredAllNameKnown(s, front, user, completed, p, g);
      }
      UserGroupNamesStable(s.groups, s.members, extra, completed, user);
      MirrorByNames(s.groups, s.groupings, a.members, s.members, completed, x.courseId, user);
      assert MirrorOf(a, x, user) == MirrorOf(s, x, user);
    }
  }

  lemma {:induction false} ApplyRulesIgnoresRuleTable(s: SiteState, rs: seq<EnrolRule>, user: int, now: int, table: seq<EnrolRule>)
    ensures ApplyRules(s.(rules := table), rs, user, now) == ApplyRules(s, rs, user, now).(rules := table)
  {
    if rs != [] {
      ApplyRulesIgnoresRuleTable(s, rs[..|rs| - 1], user, now, table);
    }
  }

  // ---------------------------------------------------------------------------
  // The completion handler

  /** A rule that is disabled, belongs to another plugin or is triggered by another
      course has no effect at all on the completion of `event.courseId`. */
  lemma NonMatchingRuleInert(s: SiteState, a: seq<EnrolRule>, r: EnrolRule, b: seq<EnrolRule>, event: CourseCompleted, now: int)
    requires !Matches(r, event.courseId)
    ensures OnCourseCompleted(s.(rules := a + [r] + b), event, now)
            == OnCourseCompleted(s.(rules := a + b), event, now).(rules := a + [r] + b)
  {
    var c := event.courseId;
    MatchingRulesConcat(a + [r], b, c);
    MatchingRulesConcat(a, [r], c);
    assert MatchingRules([r], c) == [];
    assert MatchingRules(a + [r], c) == MatchingRules(a, c);
    MatchingRulesConcat(a, b, c);
    var rs := MatchingRules(a + b, c);
    assert MatchingRules(a + [r] + b, c) == rs;
    ApplyRulesIgnoresRuleTable(s.(rules := a + b), rs, event.relatedUserId, now, a + [r] + b);
    assert s.(rules := a + b).(rules := a + [r] + b) == s.(rules := a + [r] + b);
  }

  /** A second delivery of the same completion event, read at a later clock
      reading `now2`, writes the same enrolment keys, the same group memberships
      and the same dirty mark as the first: each granted enrolment is refreshed to
      the window computed at `now2`, other enrolments stay, and at the same clock
      reading the enrolments are unchanged. Only the welcome jobs and diagnostics
      repeat. */
  lemma CompletionIdempotent(s: SiteState, event: CourseCompleted, now1: int, now2: int)
    requires UniqueRuleIds(s.rules) && UniqueGroupIds(s.groups)
    ensures var once := OnCourseCompleted(s, event, now1);
      var twice := OnCourseCompleted(once, event, now2);
      var granted := GrantedKeys(s.roles, s.courses, MatchingRules(s.rules, event.courseId), event.relatedUserId);
      && twice.enrolments.Keys == once.enrolments.Keys
      && (forall r :: r in s.rules && Matches(r, event.courseId) && RuleOutcome(s.roles, s.courses, r) == Granted ==>
            (r.id, event.relatedUserId) in twice.enrolments
            && twice.enrolments[(r.id, event.relatedUserId)] == Grant(r, now2))
      && (forall k :: k in once.enrolments && k !in granted ==> twice.enrolments[k] == once.enrolments[k])
      && (now1 == now2 ==> twice.enrolments == once.enrolments)
      && twice.members == once.members
      && twice.dirty == once.dirty
      && twice.rules == once.rules
  {
    var c, user := event.courseId, event.relatedUserId;
    var rs := MatchingRules(s.rules, c);
    MatchingRulesUniqueIds(s.rules, c);
    var once := ApplyRules(s, rs, user, now1);
    ApplyRulesFrame(s, rs, user, now1);
    assert MatchingRules(once.rules, c) == rs;
    var twice := ApplyRules(once, rs, user, now2);
    ApplyRulesFrame(once, rs, user, now2);

    ApplyRulesEnrolments(s, rs, user, now1);
    ApplyRulesEnrolments(once, rs, user, now2);
    assert twice.enrolments.Keys == once.enrolments.Keys;
    if now1 == now2 {
      forall k | k in once.enrolments
        ensures twice.enrolments[k] == once.enrolments[k]
      {
        if k in GrantedKeys(s.roles, s.courses, rs, user) {
          var r :| r in rs && RuleOutcome(s.roles, s.courses, r) == Granted && k == (r.id, user);
        }
      }
    }

    ApplyRulesDirty(s, rs, user, now1);
    ApplyRulesDirty(once, rs, user, now2);

    ApplyRulesMembers(s, rs, user, now1, c);
    ApplyRulesMembers(once, rs, user, now2, c);
    var extra := MirroredAll(s, rs, user);
    forall p, g | p in extra && g in s.groups && g.id == p.0 && g.courseId == c && p.1 == user
      ensures g.name in UserGroupNames(s.groups, s.members, c, user)
    {
      MirroredAllNameKnown(s, rs, user, c, p, g);
    }
    UserGroupNamesStable(s.groups, s.members, extra, c, user);
    MirroredAllSame(s, once, rs, user, c);
  }

  // ---------------------------------------------------------------------------
  // The deletion handler

  /** Deleting course `c` removes exactly the plugin's rules triggered by `c`: rules
      whose own course is `c` stay, and no other table changes. */
  lemma CourseDeletedRemovesTriggered(s: SiteState, c: int)
    ensures var t := OnCourseDeleted(s, c);
      && (forall r :: r in t.rules <==> r in s.rules && !(r.enrol == PLUGIN && r.customInt1 == c))
      && (forall r :: r in s.rules && r.courseId == c && r.customInt1 != c ==> r in t.rules)
      && t.(rules := s.rules) == s
  {
  }

  /** After a course is deleted, completing it fires no rule: the completion handler
      leaves the state exactly as the deletion left it. */
  lemma DeletedCourseTriggersNothing(s: SiteState, c: int, user: int, now: int)
    ensures var t := OnCourseDeleted(s, c);
      OnCourseCompleted(t, CourseCompleted(c, user), now) == t
  {
    var t := OnCourseDeleted(s, c);
    MatchingRulesNone(t.rules, c);
  }
}
