# Course-completed enrolment: the event observer

This project models the event observer of the Moodle enrolment plugin
`enrol_coursecompleted` (`classes/observer.php`). It also proves what the
observer guarantees.

The observer handles two events.

- **`enroluser`** runs when a user completes a course. It fetches the plugin's
  enabled rules (rows of the `enrol` table) whose trigger course (`customint1`)
  is the completed course. For each rule it does the following:
  - It checks that the rule's role exists. If not, it emits the developer
    diagnostic `Role does not exist` and goes on to the next rule.
  - It checks that the rule's course exists. If not, it skips the rule silently.
  - It computes the end of the enrolment window and enrols the user.
  - It queues a `send_welcome` task when `customint2 > 0`.
  - For each name among the user's groups in the completed course, it adds the
    user to the one group of that name in the rule's course that
    `groups_get_group_by_name` returns, if there is one.
  - It marks the user dirty.
- **`coursedeleted`** deletes the plugin's rules whose trigger course is the
  deleted course.

The code is laid out in five modules:

- `Records` (records.dfy): the table rows and the two queries on the `enrol`
  table.
- `Groups` (groups.dfy): the group library calls, written as lookups over the
  `groups` and grouping tables, and the memberships that mirroring adds.
- `Observer` (observer.dfy) has two parts:
  - the pure specification of both handlers over a `SiteState` value;
  - the class `CompletionObserver`. Its fields hold the site's state. Its
    methods do the work with the source's loops, and each is proved equal to
    the specification.
- `Properties` (properties.dfy): the lemmas about the specification.
- `Scenarios` (scenarios.dfy): concrete sites shaped like the plugin's tests.

External calls become plain state or parameters:

- The clock (`time()`) is the parameter `now`, read once per event.
- `enrol_user` is an upsert into a map keyed by (enrol instance id, user id).
- The ad-hoc task queue is a sequence of `WelcomeJob` records.
- `debugging` appends to a log of messages.
- `mark_user_dirty` adds the user to a set.
- `groups_add_member` adds a (group id, user id) pair to the membership set.

## Notes on the code

- The deletion handler filters on `customint1`, the trigger course, and not on
  the rule's own course (observer.php:93).
- The start date passed to `enrol_user` is the stored `enrolstartdate`. It is
  not clamped to the current time (observer.php:55-56).
- Only the rule's own course is checked for existence. The trigger course is
  not checked (observer.php:51).
- The diagnostic text is `Role does not exist` (observer.php:80). The test file
  expects `Role or course does not exist` (tests/other_test.php:186). That test
  belongs to a newer, namespaced version of the observer.
- Rules are processed in the order the query returns them. This order is the
  table order here.

## Model

| member | source | states |
|---|---|---|
| `Records.Matches` | classes/observer.php:45 | defines the fetch condition: plugin `coursecompleted`, status 0, `customint1` equal to the completed course |
| `Records.DeletedWith` | classes/observer.php:93 | defines the deletion condition: plugin `coursecompleted` and `customint1` equal to the deleted course, whatever the status |
| `Records.MatchingRules` | classes/observer.php:45-46 | a rule is fetched exactly when its plugin is `coursecompleted`, its status is 0 and its `customint1` is the completed course; the result is no longer than the table |
| `Records.MatchingRulesConcat` | classes/observer.php:45-46 | the fetch is a filter that distributes over a split of the table, so fetched rules keep their table order |
| `Records.MatchingRulesUniqueIds` | classes/observer.php:45-46 | the fetched rules have distinct ids when the table does |
| `Records.MatchingRulesNone` | classes/observer.php:46 | when no row matches, nothing is fetched |
| `Records.RemainingRules` | classes/observer.php:93 | a rule survives deletion exactly when it is not a `coursecompleted` rule triggered by the deleted course |
| `Records.RemainingRulesConcat` | classes/observer.php:93 | deletion is a filter that distributes over a split of the table, so surviving rules keep their order |
| `Records.RemainingRulesUniqueIds` | classes/observer.php:93 | deleting rows keeps the ids distinct |
| `Groups.GroupName` | classes/observer.php:70 | `groups_get_group_name`: the name of the group with the id, `None` for the library's `false`; its contract is `Groups.GroupNameFound` |
| `Groups.GroupNameFound` | classes/observer.php:70 | the name lookup fails only for an id no group has; otherwise it returns the name of a group with that id |
| `Groups.GroupNameOfMember` | classes/observer.php:70 | with unique group ids, the lookup returns the group's own name |
| `Groups.GroupByName` | classes/observer.php:71 | `groups_get_group_by_name`: one id of a group of the course with that name, `None` for `false`; its contract is `Groups.GroupByNameFound` |
| `Groups.GroupByNameFound` | classes/observer.php:71-72 | the lookup by name fails exactly when the course has no group of that name; otherwise it returns a group of that course with that name |
| `Groups.UserGroupIdsMembers` | classes/observer.php:67 | the user's groups in a course are exactly the groups of that course the user is a member of |
| `Groups.UserGroupIdsStable` | classes/observer.php:67 | memberships in groups of other courses do not change the user's groups in a course |
| `Groups.UserGroupings` | classes/observer.php:67 | `groups_get_user_groups` after `array_values`: one list per grouping of the course holding some of the user's groups, then the list of all the user's groups in the course; its contract is `Groups.UserGroupingsCover` |
| `Groups.UserGroupingsCover` | classes/observer.php:67-69 | the nested loop over `groups_get_user_groups` visits exactly the user's groups in the completed course, even when groupings repeat them |
| `Groups.FlattenMembers` | classes/observer.php:68-69 | an id is visited by the nested loop exactly when one of the lists holds it |
| `Groups.MirroredMembers` | classes/observer.php:69-75 | visiting ids adds the user to the counterpart group of each id that has one, and to nothing else |
| `Groups.MirroredConcat` | classes/observer.php:68-75 | visiting two lists in turn adds the union of what each adds |
| `Groups.MirroredRepeat` | classes/observer.php:69-74 | visiting a group id a second time adds nothing, so adding a member is idempotent |
| `Groups.MirrorTargetOfMember` | classes/observer.php:70-71 | with unique group ids, a group maps to the target course's group of the same name |
| `Groups.MirroredInTarget` | classes/observer.php:71-73 | every added membership is the user's, in a group of the target course |
| `Groups.MirrorOfUserGroups` | classes/observer.php:67-76 | mirroring adds exactly the pairs (t, user) where t is the group of the target course that the lookup by name returns for the name of one of the user's groups in the completed course: one group per name, not every group sharing it |
| `Groups.MirrorByNames` | classes/observer.php:67-76 | mirroring reads only the names of the user's groups in the completed course: membership sets giving the same names mirror the same memberships |
| `Groups.MirroredNameKnown` | classes/observer.php:70-73 | a group mirroring adds the user to lies in the target course and bears the name of one of the user's groups in the completed course |
| `Groups.UserGroupNamesStable` | classes/observer.php:67 | adding the user to groups whose names the user already has in a course leaves the user's group names there unchanged |
| `Groups.NoCounterpartNoChange` | classes/observer.php:72 | when no group of the user has a same-named group in the target course, mirroring adds nothing |
| `Observer.RuleOutcome` | classes/observer.php:49-51 | defines the two checks in source order: a missing role first, then a missing course; a rule passing both is granted |
| `Observer.ApplyRule` | classes/observer.php:49-81 | defines one loop iteration: a diagnostic for a missing role, nothing for a missing course, otherwise enrol, queue when `customint2 > 0`, mirror groups, mark dirty; its properties are `Properties.RuleMissingRole`, `Properties.RuleMissingCourse` and `Properties.RuleGranted` |
| `Observer.ApplyRules` | classes/observer.php:48-82 | defines the loop: one iteration per fetched rule, in order, each seeing the state the previous one left; its properties are the `Properties.ApplyRules*` lemmas |
| `Observer.OnCourseCompleted` | classes/observer.php:43-84 | defines `enroluser`: the loop over the rules the fetch returns; `Observer.CompletionObserver.EnrolUser` is proved equal to it |
| `Observer.OnCourseDeleted` | classes/observer.php:91-94 | defines `coursedeleted`: the rule table becomes the surviving rules; its properties are `Properties.CourseDeletedRemovesTriggered` and `Properties.DeletedCourseTriggersNothing` |
| `Observer.EnrolEnd` | classes/observer.php:52-54 | for a positive period, the end is the period counted from the later of now and the start date; otherwise the stored end date is kept |
| `Observer.CompletionObserver.EnrolInstance` | classes/observer.php:55-56 | `enrol_user` sets the user's enrolment in the instance to the rule's course, the role and the given window; other enrolments are unchanged |
| `Observer.CompletionObserver.QueueAdhocTask` | classes/observer.php:58-65 | the job is appended to the queue |
| `Observer.CompletionObserver.AddMember` | classes/observer.php:73 | the (group, user) pair is added to the memberships |
| `Observer.CompletionObserver.MarkUserDirty` | classes/observer.php:77 | the user is added to the dirty set |
| `Observer.CompletionObserver.Debugging` | classes/observer.php:80 | the message is appended to the log |
| `Observer.CompletionObserver.MirrorList` | classes/observer.php:69-75 | the inner loop adds exactly the memberships that mirroring its list yields |
| `Observer.CompletionObserver.MirrorGroups` | classes/observer.php:67-76 | the nested loop adds exactly the memberships that mirroring the user's groups in the completed course yields, computed before the loop |
| `Observer.CompletionObserver.ProcessRule` | classes/observer.php:49-81 | one loop iteration leaves the state that the one-rule cascade specifies; the fetched copy's end date is overwritten and the rule table is not |
| `Observer.CompletionObserver.EnrolUser` | classes/observer.php:43-84 | the handler leaves the state that applying the cascade to the fetched rules, in order, specifies; the primary keys stay unique |
| `Observer.CompletionObserver.CourseDeleted` | classes/observer.php:91-94 | the rule table becomes the surviving rules; nothing else changes; ids stay unique |
| `Properties.RuleMissingRole` | classes/observer.php:49-81 | a matched rule whose role is missing adds one `Role does not exist` diagnostic and changes nothing else |
| `Properties.RuleMissingCourse` | classes/observer.php:49-78 | a matched rule with an existing role and a missing course changes nothing and logs nothing |
| `Properties.RuleGranted` | classes/observer.php:52-77 | a rule that passes both checks does the following: it enrols the user in its course with its role, from the stored start to the computed end; it queues one job with the user, rule id, course and completed course exactly when `customint2 > 0`; it adds the mirrored memberships; it marks the user dirty; it leaves the log and the tables alone |
| `Properties.ApplyRulesFrame` | classes/observer.php:48-82 | the loop never changes the rule, role, course, group or grouping tables; it only adds memberships, jobs, diagnostics and dirty users |
| `Properties.ApplyRulesJobs` | classes/observer.php:57-66 | the loop queues one welcome job per processed rule with `customint2 > 0`, in rule order, and no other job |
| `Properties.ApplyRulesDebug` | classes/observer.php:79-81 | the loop logs one diagnostic per matched rule whose role is missing, and nothing else |
| `Properties.ApplyRulesDirty` | classes/observer.php:77 | the user is marked dirty exactly when some rule passes both checks |
| `Properties.ApplyRulesEnrolments` | classes/observer.php:52-56 | with distinct rule ids, every processed rule leaves its enrolment with its course, role, start and computed end; no other enrolment is created or changed |
| `Properties.MirroredAllInTargets` | classes/observer.php:71-73 | every membership the loop mirrors is in a group of the course of one of the rules |
| `Properties.MirroredAllSame` | classes/observer.php:67-76 | two states giving the user the same group names in the completed course mirror the same memberships for every rule it triggers |
| `Properties.MirroredAllNameKnown` | classes/observer.php:67-73 | every group the loop mirrors the user into bears a name the user already has in the completed course |
| `Properties.ApplyRulesMembers` | classes/observer.php:67-76 | the loop adds the memberships mirrored from the user's groups in the completed course as they were before the event, one set per processed rule, and nothing else; this holds even when a rule enrols into the completed course itself |
| `Properties.NonMatchingRuleInert` | classes/observer.php:45-48 | a disabled rule, another plugin's rule, or a rule triggered by another course has no effect on the completion |
| `Properties.CompletionIdempotent` | classes/observer.php:43-84 | a second delivery of the same completion, at any clock reading, writes the same enrolment keys and leaves the same group memberships, dirty users and rules; each granted enrolment gets the window computed at the second reading, the others stay; at the same reading the enrolments are unchanged |
| `Properties.CourseDeletedRemovesTriggered` | classes/observer.php:93 | deleting a course removes exactly the plugin's rules it triggers; rules whose own course it is remain; nothing else changes |
| `Properties.DeletedCourseTriggersNothing` | classes/observer.php:45-93 | after a course is deleted, completing it changes nothing |
| `Scenarios.InvalidRoleScenario` | tests/other_test.php:164-185 | a rule with role 9999 produces one diagnostic and no enrolment, job or dirty mark |
| `Scenarios.GroupsChildScenario` | tests/other_test.php:194-233 | a student in "A group" of the completed course ends up in "A group" of the rule's course too |
| `Scenarios.PeriodAndWelcomeScenario` | classes/observer.php:52-66 | with a 300000-second period and a start in the past, the enrolment ends at now + 300000 and exactly one welcome job is queued |
| `Scenarios.NoWelcomeScenario` | tests/other_test.php:265-283 | completing a course fires only the rule it triggers, which queues no job because its `customint2` is 0 |
| `Scenarios.DisabledScenario` | classes/observer.php:45-46 | a rule with status 1 fires nothing |

## Left out

- The Moodle database, the event objects and `$DB` are replaced by explicit state. The clock is the parameter `now`.
- The clock is read once per event, not once per rule. `enroluser` calls `time()` inside the loop for each rule with a positive period (observer.php:53). The model gives every rule of one event the same reading. So it does not capture two rules of one event getting end dates computed from different clock values.
- `enrol_user` internals are not modelled. It is a foreign call: role assignment, user-enrolment status, events and caches are not modelled. It is an upsert of (course, role, start, end) keyed by instance and user.
- The internals of `groups_get_user_groups`, `groups_get_group_name`, `groups_get_group_by_name` and `groups_add_member` are library code and are not modelled. For example, `format_string` on group names and the enrolment check in `groups_add_member` are absent. When several groups of a course share a name, the lookup takes the first in table order; the lemmas rely only on "some group of that name".
- PHP integer width is not modelled: `max(time(), enrolstartdate) + enrolperiod` is computed on unbounded integers, with no 64-bit overflow.
- A NULL `customint2` is modelled as 0. PHP's `null > 0` is false, so both behave the same.
- The `send_welcome` task (message rendering, placeholder stripping, e-mail) and the `process_expirations` task are not part of this model. Their sources are not among the modelled files.
- `build_course_path` and `enrol_past` are not part of this model. Neither are capabilities, `get_action_icons` or the db definition files.
- `mark_user_dirty` is modelled only as recording the user. The debugging level is not modelled. Task delivery and retry are not modelled. The task's component name is not modelled.
- Properties.CompletionIdempotent: welcome jobs and diagnostics are queued again on a second delivery. The lemma does not claim they are equal. Enrolments are equal only when both deliveries read the same clock. At a later reading, enrolments from positive-period rules get a later end date. The lemma states this refreshed value and does not claim equality.
