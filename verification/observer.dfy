/** The event observer of the course-completed enrolment plugin: when a user
    completes a course, every enabled rule triggered by that course enrols the
    user into the rule's course, may queue a welcome message, mirrors the user's
    groups by name and marks the user dirty; when a course is deleted, the rules
    it triggers are deleted. */
module Observer {
  import opened Records
  import opened Groups

  /** Everything the observer reads or writes: the `enrol`, `role`, `course`,
      `groups` and grouping tables, group membership, the plugin's enrolments,
      the ad-hoc task queue, the developer debugging log and the dirty users. */
  datatype SiteState = SiteState(
    rules: seq<EnrolRule>,
    roles: set<int>,
    courses: set<int>,
    groups: seq<Group>,
    groupings: seq<Grouping>,
    members: set<(int, int)>,
    enrolments: map<(int, int), Enrolment>,
    jobs: seq<WelcomeJob>,
    debug: seq<string>,
    dirty: set<int>)

  /** What becomes of one matched rule. */
  datatype Outcome = Granted | SkippedMissingRole | SkippedMissingCourse

  /** The role is checked first, then the rule's course. */
  function RuleOutcome(roles: set<int>, courses: set<int>, r: EnrolRule): Outcome
  {
    if r.roleId !in roles then SkippedMissingRole
    else if r.courseId !in courses then SkippedMissingCourse
    else Granted
  }

  function Max(a: int, b: int): (m: int)
    ensures m >= a && m >= b && (m == a || m == b)
  {
    if a >= b then a else b
  }

  /** The end of the enrolment window: a positive period counts from now or from
      the start date, whichever is later; otherwise the stored end date stands. */
  function EnrolEnd(r: EnrolRule, now: int): (e: int)
    ensures r.enrolPeriod > 0 ==> e >= now + r.enrolPeriod && e >= r.enrolStartDate + r.enrolPeriod
    ensures r.enrolPeriod > 0 ==> e == now + r.enrolPeriod || e == r.enrolStartDate + r.enrolPeriod
    ensures r.enrolPeriod > 0 ==> e > r.enrolStartDate && e > now
    ensures r.enrolPeriod <= 0 ==> e == r.enrolEndDate
  {
    if r.enrolPeriod > 0 then Max(now, r.enrolStartDate) + r.enrolPeriod else r.enrolEndDate
  }

  /** The enrolment granted by rule `r`: its course and role, its stored start date. */
  function Grant(r: EnrolRule, now: int): Enrolment
  {
    Enrolment(r.courseId, r.roleId, r.enrolStartDate, EnrolEnd(r, now))
  }

  /** The welcome job queued for `user` by rule `r`. */
  function WelcomeFor(r: EnrolRule, user: int): WelcomeJob
  {
    WelcomeJob(user, r.id, r.courseId, r.customInt1)
  }

  /** The memberships that mirroring the user's groups of the rule's trigger course
      into the rule's course adds, in state `s`. */
  function MirrorOf(s: SiteState, r: EnrolRule, user: int): set<(int, int)>
  {
    Mirrored(s.groups, r.courseId, user, Flatten(UserGroupings(s.groups, s.groupings, s.members, r.customInt1, user)))
  }

  /** The cascade for a rule that passed both checks. */
  function GrantedState(s: SiteState, r: EnrolRule, user: int, now: int): SiteState
  {
    var enrolled := s.(enrolments := s.enrolments[(r.id, user) := Grant(r, now)]);
    var queued := if r.customInt2 > 0 then enrolled.(jobs := enrolled.jobs + [WelcomeFor(r, user)]) else enrolled;
    queued.(members := queued.members + MirrorOf(queued, r, user), dirty := queued.dirty + {user})
  }

  /** One iteration of the loop over the matched rules. */
  function ApplyRule(s: SiteState, r: EnrolRule, user: int, now: int): SiteState
  {
    match RuleOutcome(s.roles, s.courses, r)
    case SkippedMissingRole => s.(debug := s.debug + [ROLE_MISSING])
    case SkippedMissingCourse => s
    case Granted => GrantedState(s, r, user, now)
  }

  /** The loop over the matched rules, in order. */
  function ApplyRules(s: SiteState, rs: seq<EnrolRule>, user: int, now: int): SiteState
  {
    if rs == [] then s
    else ApplyRule(ApplyRules(s, rs[..|rs| - 1], user, now), rs[|rs| - 1], user, now)
  }

  /** The completion handler, as a function of the state before it. */
  function OnCourseCompleted(s: SiteState, event: CourseCompleted, now: int): SiteState
  {
    ApplyRules(s, MatchingRules(s.rules, event.courseId), event.relatedUserId, now)
  }

  /** The deletion handler, as a function of the state before it. */
  function OnCourseDeleted(s: SiteState, deleted: int): SiteState
  {
    s.(rules := RemainingRules(s.rules, deleted))
  }

  /** The site the observer acts on; `now` stands for the clock and is passed in. */
  class CompletionObserver {
    var rules: seq<EnrolRule>
    var roles: set<int>
    var courses: set<int>
    var groups: seq<Group>
    var groupings: seq<Grouping>
    var members: set<(int, int)>
    var enrolments: map<(int, int), Enrolment>
    var jobs: seq<WelcomeJob>
    var debug: seq<string>
    var dirty: set<int>

    ghost function State(): SiteState
      reads this
    {
      SiteState(rules, roles, courses, groups, groupings, members, enrolments, jobs, debug, dirty)
    }

    /** The primary keys of the `enrol` and `groups` tables. */
    ghost predicate Valid()
      reads this
    {
      UniqueRuleIds(rules) && UniqueGroupIds(groups)
    }

    constructor (rules: seq<EnrolRule>, roles: set<int>, courses: set<int>, groups: seq<Group>,
                 groupings: seq<Grouping>, members: set<(int, int)>)
      requires UniqueRuleIds(rules) && UniqueGroupIds(groups)
      ensures Valid()
      ensures State() == SiteState(rules, roles, courses, groups, groupings, members, map[], [], [], {})
    {
      this.rules := rules;
      this.roles := roles;
      this.courses := courses;
      this.groups := groups;
      this.groupings := groupings;
      this.members := members;
      this.enrolments := map[];
      this.jobs := [];
      this.debug := [];
      this.dirty := {};
    }

    /** The plugin's `enrol_user`: creates or refreshes the user's enrolment in the instance. */
    method EnrolInstance(instance: EnrolRule, user: int, roleId: int, timeStart: int, timeEnd: int)
      modifies this`enrolments
      ensures enrolments == old(enrolments)[(instance.id, user) := Enrolment(instance.courseId, roleId, timeStart, timeEnd)]
    {
      enrolments := enrolments[(instance.id, user) := Enrolment(instance.courseId, roleId, timeStart, timeEnd)];
    }

    method QueueAdhocTask(job: WelcomeJob)
      modifies this`jobs
      ensures jobs == old(jobs) + [job]
    {
      jobs := jobs + [job];
    }

    method AddMember(groupId: int, user: int)
      modifies this`members
      ensures members == old(members) + {(groupId, user)}
    {
      members := members + {(groupId, user)};
    }

    method MarkUserDirty(user: int)
      modifies this`dirty
      ensures dirty == old(dirty) + {user}
    {
      dirty := dirty + {user};
    }

    method Debugging(message: string)
      modifies this`debug
      ensures debug == old(debug) + [message]
    {
      debug := debug + [message];
    }

    /** Adds the user, for each name of the user's groups of `completed`, to the
        group of `target` that the lookup by name returns, visiting the lists
        `groups_get_user_groups` returns. */
    method MirrorGroups(completed: int, target: int, user: int)
      modifies this`members
      ensures members == old(members)
        + Mirrored(groups, target, user, Flatten(UserGroupings(groups, groupings, old(members), completed, user)))
    {
      var lists := UserGroupings(groups, groupings, members, completed, user);
      var i := 0;
      while i < |lists|
        invariant 0 <= i <= |lists|
        invariant members == old(members) + Mirrored(groups, target, user, Flatten(lists[..i]))
      {
        MirrorList(lists[i], target, user);
        assert lists[..i + 1] == lists[..i] + [lists[i]];
        FlattenSnoc(lists[..i], lists[i]);
        MirroredConcat(groups, target, user, Flatten(lists[..i]), lists[i]);
        i := i + 1;
      }
      assert lists[..i] == lists;
    }

    /** The inner loop: for each group id of one list, look its name up and add the
        user to the target course's group of that name, if there is one. */
    method MirrorList(list: seq<int>, target: int, user: int)
      modifies this`members
      ensures members == old(members) + Mirrored(groups, target, user, list)
    {
      var j := 0;
      while j < |list|
        invariant 0 <= j <= |list|
        invariant members == old(members) + Mirrored(groups, target, user, list[..j])
      {
        var name := GroupName(groups, list[j]);
        var counterpart := if name.Some? then GroupByName(groups, target, name.value) else None;
        if counterpart.Some? {
          AddMember(counterpart.value, user);
        }
        assert list[..j + 1] == list[..j] + [list[j]];
        MirroredSnoc(groups, target, user, list[..j], list[j]);
        j := j + 1;
      }
      assert list[..j] == list;
    }

    /** The body of the loop over the matched rules, for one rule. */
    method ProcessRule(rule: EnrolRule, user: int, now: int)
      modifies this
      ensures State() == ApplyRule(old(State()), rule, user, now)
    {
      ghost var before := State();
      var enrol := rule;
      if enrol.roleId in roles {
        if enrol.courseId in courses {
          if enrol.enrolPeriod > 0 {
            enrol := enrol.(enrolEndDate := Max(now, enrol.enrolStartDate) + enrol.enrolPeriod);
          }
          assert enrol.enrolEndDate == EnrolEnd(rule, now);
          EnrolInstance(enrol, user, enrol.roleId, enrol.enrolStartDate, enrol.enrolEndDate);
          ghost var enrolled := before.(enrolments := before.enrolments[(rule.id, user) := Grant(rule, now)]);
          assert State() == enrolled;
          if enrol.customInt2 > 0 {
            QueueAdhocTask(WelcomeJob(user, enrol.id, enrol.courseId, enrol.customInt1));
          }
          ghost var queued := if rule.customInt2 > 0 then enrolled.(jobs := enrolled.jobs + [WelcomeFor(rule, user)]) else enrolled;
          assert State() == queued;
          MirrorGroups(enrol.customInt1, enrol.courseId, user);
          assert members == queued.members + MirrorOf(queued, rule, user);
          MarkUserDirty(user);
          assert RuleOutcome(before.roles, before.courses, rule) == Granted;
          assert State() == GrantedState(before, rule, user, now);
        }
      } else {
        Debugging(ROLE_MISSING);
      }
    }

    /** `enroluser`: the handler of the course-completed event. */
    method EnrolUser(event: CourseCompleted, now: int)
      requires Valid()
      modifies this
      ensures Valid()
      ensures State() == OnCourseCompleted(old(State()), event, now)
    {
      var enrols := MatchingRules(rules, event.courseId);
      var i := 0;
      while i < |enrols|
        invariant 0 <= i <= |enrols|
        invariant State() == ApplyRules(old(State()), enrols[..i], event.relatedUserId, now)
        invariant rules == old(rules) && groups == old(groups)
      {
        ProcessRule(enrols[i], event.relatedUserId, now);
        assert enrols[..i + 1][..i] == enrols[..i];
        i := i + 1;
      }
      assert enrols[..i] == enrols;
    }

    /** `coursedeleted`: the handler of the course-deleted event. */
    method CourseDeleted(deleted: int)
      requires Valid()
      modifies this`rules
      ensures Valid()
      ensures State() == OnCourseDeleted(old(State()), deleted)
    {
      RemainingRulesUniqueIds(rules, deleted);
      rules := RemainingRules(rules, deleted);
    }
  }
}
