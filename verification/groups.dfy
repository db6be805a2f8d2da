/** The group lookups the completion observer calls (`groups_get_user_groups`,
    `groups_get_group_name`, `groups_get_group_by_name`), stated as queries over
    the `groups` and grouping tables, and the set of memberships that mirroring
    the user's groups by name adds. */
module Groups {
  import opened Records

  /** `id` is the primary key of the `groups` table. */
  predicate UniqueGroupIds(groups: seq<Group>)
  {
    forall i, j :: 0 <= i < |groups| && 0 <= j < |groups| && i != j ==> groups[i].id != groups[j].id
  }

  /** The name of the group with this id; `None` stands for the library's `false`. */
  function GroupName(groups: seq<Group>, id: int): Option<string>
  {
    if groups == [] then None
    else if groups[0].id == id then Some(groups[0].name)
    else GroupName(groups[1..], id)
  }

  /** The name lookup fails only for an id no group has, and otherwise returns the
      name of a group with that id. */
  lemma {:induction false} GroupNameFound(groups: seq<Group>, id: int)
    ensures GroupName(groups, id).None? <==> forall g :: g in groups ==> g.id != id
    ensures GroupName(groups, id).Some? ==>
              exists g :: g in groups && g.id == id && g.name == GroupName(groups, id).value
  {
    if groups != [] {
      GroupNameFound(groups[1..], id);
    }
  }

  /** The id of a group of `course` called `name`. When several share the name,
      this picks the first in table order; callers rely only on its contract. */
  function GroupByName(groups: seq<Group>, course: int, name: string): Option<int>
  {
    if groups == [] then None
    else if groups[0].courseId == course && groups[0].name == name then Some(groups[0].id)
    else GroupByName(groups[1..], course, name)
  }

  /** The lookup by name fails only when the course has no group of that name, and
      otherwise returns the id of a group of the course bearing it. */
  lemma {:induction false} GroupByNameFound(groups: seq<Group>, course: int, name: string)
    ensures GroupByName(groups, course, name).None? <==>
              forall g :: g in groups ==> !(g.courseId == course && g.name == name)
    ensures GroupByName(groups, course, name).Some? ==>
              Group(GroupByName(groups, course, name).value, course, name) in groups
  {
    if groups != [] {
      GroupByNameFound(groups[1..], course, name);
    }
  }

  /** The ids of the groups of `course` that `user` belongs to, in table order. */
  function UserGroupIds(groups: seq<Group>, members: set<(int, int)>, course: int, user: int): seq<int>
  {
    if groups == [] then []
    else
      (if groups[0].courseId == course && (groups[0].id, user) in members then [groups[0].id] else [])
      + UserGroupIds(groups[1..], members, course, user)
  }

  /** The user's groups in a course are exactly the groups of that course the user is a member of. */
  lemma {:induction false} UserGroupIdsMembers(groups: seq<Group>, members: set<(int, int)>, course: int, user: int)
    ensures forall id :: id in UserGroupIds(groups, members, course, user) <==>
              (id, user) in members && exists g :: g in groups && g.id == id && g.courseId == course
  {
    if groups != [] {
      UserGroupIdsMembers(groups[1..], members, course, user);
      assert forall g :: g in groups <==> g == groups[0] || g in groups[1..];
    }
  }

  /** The elements of `ids` that occur in `mine`, in order. */
  function Keep(ids: seq<int>, mine: seq<int>): (kept: seq<int>)
    ensures forall x :: x in kept <==> x in ids && x in mine
  {
    if ids == [] then []
    else (if ids[0] in mine then [ids[0]] else []) + Keep(ids[1..], mine)
  }

  /** For each grouping of `course` holding some of `mine`, those of `mine` it holds. */
  function GroupingSlices(groupings: seq<Grouping>, course: int, mine: seq<int>): (slices: seq<seq<int>>)
    ensures forall k, x :: 0 <= k < |slices| && x in slices[k] ==> x in mine
  {
    if groupings == [] then []
    else
      var slice := Keep(groupings[0].groupIds, mine);
      (if groupings[0].courseId == course && slice != [] then [slice] else [])
      + GroupingSlices(groupings[1..], course, mine)
  }

  /** The shape `groups_get_user_groups` returns once its keys are dropped: one list
      per grouping, then the list of every group of the user in the course, which
      the library stores last under key 0; a group id can occur several times. */
  function UserGroupings(groups: seq<Group>, groupings: seq<Grouping>, members: set<(int, int)>, course: int, user: int): seq<seq<int>>
  {
    var mine := UserGroupIds(groups, members, course, user);
    GroupingSlices(groupings, course, mine) + [mine]
  }

  /** The lists of a nested loop, read one after the other. */
  function Flatten(lists: seq<seq<int>>): seq<int>
  {
    if lists == [] then [] else Flatten(lists[..|lists| - 1]) + lists[|lists| - 1]
  }

  /** An id is visited by the nested loop exactly when one of the lists holds it. */
  lemma {:induction false} FlattenMembers(lists: seq<seq<int>>)
    ensures forall x :: x in Flatten(lists) <==> exists k :: 0 <= k < |lists| && x in lists[k]
  {
    if lists != [] {
      var last := |lists| - 1;
      FlattenMembers(lists[..last]);
      assert forall k :: 0 <= k < last ==> lists[..last][k] == lists[k];
    }
  }

  /** The group of `target` that group `id` is mirrored to: the one sharing its name. */
  function MirrorTarget(groups: seq<Group>, target: int, id: int): (t: Option<int>)
  {
    match GroupName(groups, id)
    case None => None
    case Some(name) => GroupByName(groups, target, name)
  }

  /** The memberships added for `user` when the group ids `ids` are visited in order. */
  function Mirrored(groups: seq<Group>, target: int, user: int, ids: seq<int>): set<(int, int)>
  {
    if ids == [] then {}
    else Mirrored(groups, target, user, ids[..|ids| - 1]) + MirrorStep(groups, target, user, ids[|ids| - 1])
  }

  /** Visiting `ids` adds the user to the counterpart of each id that has one, and to nothing else. */
  lemma {:induction false} MirroredMembers(groups: seq<Group>, target: int, user: int, ids: seq<int>)
    ensures forall p :: p in Mirrored(groups, target, user, ids) <==>
              p.1 == user && exists k :: 0 <= k < |ids| && MirrorTarget(groups, target, ids[k]) == Some(p.0)
  {
    if ids != [] {
      var last := |ids| - 1;
      var front := ids[..last];
      MirroredMembers(groups, target, user, front);
      assert Mirrored(groups, target, user, ids)
             == Mirrored(groups, target, user, front) + MirrorStep(groups, target, user, ids[last]);
      forall p | p in Mirrored(groups, target, user, ids)
        ensures p.1 == user && exists k :: 0 <= k < |ids| && MirrorTarget(groups, target, ids[k]) == Some(p.0)
      {
        if p in Mirrored(groups, target, user, front) {
          var k :| 0 <= k < |front| && MirrorTarget(groups, target, front[k]) == Some(p.0);
          assert ids[k] == front[k];
        } else {
          assert MirrorTarget(groups, target, ids[last]) == Some(p.0);
        }
      }
      forall p: (int, int) | p.1 == user && exists k :: 0 <= k < |ids| && MirrorTarget(groups, target, ids[k]) == Some(p.0)
        ensures p in Mirrored(groups, target, user, ids)
      {
        var k :| 0 <= k < |ids| && MirrorTarget(groups, target, ids[k]) == Some(p.0);
        if k < last {
          assert front[k] == ids[k];
        } else {
          assert p == (p.0, user);
        }
      }
    }
  }

  /** The membership, if any, that visiting group `id` adds. */
  function MirrorStep(groups: seq<Group>, target: int, user: int, id: int): set<(int, int)>
  {
    match MirrorTarget(groups, target, id)
    case Some(t) => {(t, user)}
    case None => {}
  }

  lemma MirroredSnoc(groups: seq<Group>, target: int, user: int, ids: seq<int>, id: int)
    ensures Mirrored(groups, target, user, ids + [id])
            == Mirrored(groups, target, user, ids) + MirrorStep(groups, target, user, id)
  {
    assert (ids + [id])[..|ids|] == ids;
  }

  /** Visiting two lists one after the other adds what each adds. */
  lemma {:induction false} MirroredConcat(groups: seq<Group>, target: int, user: int, a: seq<int>, b: seq<int>)
    ensures Mirrored(groups, target, user, a + b)
            == Mirrored(groups, target, user, a) + Mirrored(groups, target, user, b)
  {
    if b == [] {
      assert a + b == a;
    } else {
      var front, x := b[..|b| - 1], b[|b| - 1];
      calc {
        Mirrored(groups, target, user, a + b);
        { assert a + b == (a + front) + [x]; }
        Mirrored(groups, target, user, (a + front) + [x]);
        { MirroredSnoc(groups, target, user, a + front, x); }
        Mirrored(groups, target, user, a + front) + MirrorStep(groups, target, user, x);
        { MirroredConcat(groups, target, user, a, front); }
        Mirrored(groups, target, user, a) + Mirrored(groups, target, user, front) + MirrorStep(groups, target, user, x);
        { assert b == front + [x]; MirroredSnoc(groups, target, user, front, x); }
        Mirrored(groups, target, user, a) + Mirrored(groups, target, user, b);
      }
    }
  }

  lemma FlattenSnoc(lists: seq<seq<int>>, list: seq<int>)
    ensures Flatten(lists + [list]) == Flatten(lists) + list
  {
    assert (lists + [list])[..|lists|] == lists;
  }

  /** With a primary key, two rows with the same id are the same row. */
  lemma SameIdSameGroup(groups: seq<Group>, g: Group, h: Group)
    requires UniqueGroupIds(groups)
    requires g in groups && h in groups && g.id == h.id
    ensures g == h
  {
    var i :| 0 <= i < |groups| && groups[i] == g;
    var j :| 0 <= j < |groups| && groups[j] == h;
  }

  /** With a primary key, the name lookup returns the group's own name. */
  lemma GroupNameOfMember(groups: seq<Group>, g: Group)
    requires UniqueGroupIds(groups)
    requires g in groups
    ensures GroupName(groups, g.id) == Some(g.name)
  {
    GroupNameFound(groups, g.id);
    var n := GroupName(groups, g.id);
    var h :| h in groups && h.id == g.id && h.name == n.value;
    var i :| 0 <= i < |groups| && groups[i] == g;
    var j :| 0 <= j < |groups| && groups[j] == h;
    assert i == j;
  }

  /** With a primary key, a group is mirrored to the group of the target course bearing its name. */
  lemma MirrorTargetOfMember(groups: seq<Group>, target: int, g: Group)
    requires UniqueGroupIds(groups)
    requires g in groups
    ensures MirrorTarget(groups, target, g.id) == GroupByName(groups, target, g.name)
  {
    GroupNameOfMember(groups, g);
  }

  /** The nested loop over `groups_get_user_groups` visits exactly the user's groups
      in the course, whatever the groupings repeat. */
  lemma UserGroupingsCover(groups: seq<Group>, groupings: seq<Grouping>, members: set<(int, int)>, course: int, user: int)
    ensures forall id ::
              id in Flatten(UserGroupings(groups, groupings, members, course, user))
              <==> id in UserGroupIds(groups, members, course, user)
  {
    var mine := UserGroupIds(groups, members, course, user);
    var lists := UserGroupings(groups, groupings, members, course, user);
    FlattenMembers(lists);
    var last := |lists| - 1;
    assert lists[last] == mine;
    forall id | id in Flatten(lists)
      ensures id in mine
    {
      var k :| 0 <= k < |lists| && id in lists[k];
      if k < last {
        assert lists[k] == GroupingSlices(groupings, course, mine)[k];
      }
    }
  }

  /** Mirroring the user's groups of the completed course adds, for each of their
      names, the user to the group of the target course that the lookup by name
      returns for it, and to nothing else. */
  lemma MirrorOfUserGroups(groups: seq<Group>, groupings: seq<Grouping>, members: set<(int, int)>,
                           completed: int, target: int, user: int)
    requires UniqueGroupIds(groups)
    ensures forall p: (int, int) ::
              p in Mirrored(groups, target, user, Flatten(UserGroupings(groups, groupings, members, completed, user)))
              <==> p.1 == user && exists g :: g in groups && g.courseId == completed && (g.id, user) in members
                                              && GroupByName(groups, target, g.name) == Some(p.0)
  {
    var ids := Flatten(UserGroupings(groups, groupings, members, completed, user));
    var added := Mirrored(groups, target, user, ids);
    MirroredMembers(groups, target, user, ids);
    UserGroupingsCover(groups, groupings, members, completed, user);
    UserGroupIdsMembers(groups, members, completed, user);
    forall p | p in added
      ensures exists g :: g in groups && g.courseId == completed && (g.id, user) in members
                          && GroupByName(groups, target, g.name) == Some(p.0)
    {
      var k :| 0 <= k < |ids| && MirrorTarget(groups, target, ids[k]) == Some(p.0);
      assert ids[k] in UserGroupIds(groups, members, completed, user);
      var g :| g in groups && g.id == ids[k] && g.courseId == completed;
      MirrorTargetOfMember(groups, target, g);
    }
    forall p: (int, int) | p.1 == user && exists g :: g in groups && g.courseId == completed && (g.id, user) in members
                                           && GroupByName(groups, target, g.name) == Some(p.0)
      ensures p in added
    {
      var g :| g in groups && g.courseId == completed && (g.id, user) in members
               && GroupByName(groups, target, g.name) == Some(p.0);
      MirrorTargetOfMember(groups, target, g);
      assert g.id in UserGroupIds(groups, members, completed, user);
      var k :| 0 <= k < |ids| && ids[k] == g.id;
    }
  }

  /** Every membership mirroring adds is in a group of the target course. */
  lemma MirroredInTarget(groups: seq<Group>, target: int, user: int, ids: seq<int>, p: (int, int))
    requires p in Mirrored(groups, target, user, ids)
    ensures p.1 == user && exists g :: g in groups && g.id == p.0 && g.courseId == target
  {
    MirroredMembers(groups, target, user, ids);
    var k :| 0 <= k < |ids| && MirrorTarget(groups, target, ids[k]) == Some(p.0);
    var name := GroupName(groups, ids[k]).value;
    GroupByNameFound(groups, target, name);
    assert Group(p.0, target, name) in groups;
  }

  /** Visiting a group id a second time adds nothing: adding a member is idempotent. */
  lemma MirroredRepeat(groups: seq<Group>, target: int, user: int, ids: seq<int>, id: int)
    requires id in ids
    ensures Mirrored(groups, target, user, ids + [id]) == Mirrored(groups, target, user, ids)
  {
    var longer := ids + [id];
    MirroredMembers(groups, target, user, ids);
    MirroredMembers(groups, target, user, longer);
    var k0 :| 0 <= k0 < |ids| && ids[k0] == id;
    forall p | p in Mirrored(groups, target, user, longer)
      ensures p in Mirrored(groups, target, user, ids)
    {
      var k :| 0 <= k < |longer| && MirrorTarget(groups, target, longer[k]) == Some(p.0);
      if k == |ids| {
        assert ids[k0] == longer[k];
      } else {
        assert ids[k] == longer[k];
      }
    }
    forall p | p in Mirrored(groups, target, user, ids)
      ensures p in Mirrored(groups, target, user, longer)
    {
      var k :| 0 <= k < |ids| && MirrorTarget(groups, target, ids[k]) == Some(p.0);
      assert longer[k] == ids[k];
    }
  }

  /** A user in no group of the completed course whose name the target course also
      uses is added to no group. */
  lemma NoCounterpartNoChange(groups: seq<Group>, groupings: seq<Grouping>, members: set<(int, int)>,
                              completed: int, target: int, user: int)
    requires UniqueGroupIds(groups)
    requires forall g, h ::
               g in groups && h in groups && g.courseId == completed && (g.id, user) in members && h.courseId == target
               ==> h.name != g.name
    ensures Mirrored(groups, target, user, Flatten(UserGroupings(groups, groupings, members, completed, user))) == {}
  {
    MirrorOfUserGroups(groups, groupings, members, completed, target, user);
    forall g | g in groups && g.courseId == completed && (g.id, user) in members
      ensures GroupByName(groups, target, g.name) == None
    {
      GroupByNameFound(groups, target, g.name);
    }
  }

  /** The names of the user's groups in `course`. */
  function UserGroupNames(groups: seq<Group>, members: set<(int, int)>, course: int, user: int): set<string>
  {
    set g | g in groups && g.courseId == course && (g.id, user) in members :: g.name
  }

  /** Mirroring reads only the names of the user's groups in the completed course:
      two membership sets giving the same names mirror the same memberships. */
  lemma MirrorByNames(groups: seq<Group>, groupings: seq<Grouping>, m1: set<(int, int)>, m2: set<(int, int)>,
                      completed: int, target: int, user: int)
    requires UniqueGroupIds(groups)
    requires UserGroupNames(groups, m1, completed, user) == UserGroupNames(groups, m2, completed, user)
    ensures Mirrored(groups, target, user, Flatten(UserGroupings(groups, groupings, m1, completed, user)))
            == Mirrored(groups, target, user, Flatten(UserGroupings(groups, groupings, m2, completed, user)))
  {
    MirrorOfUserGroups(groups, groupings, m1, completed, target, user);
    MirrorOfUserGroups(groups, groupings, m2, completed, target, user);
    forall g | g in groups && g.courseId == completed && (g.id, user) in m1
      ensures exists h :: h in groups && h.courseId == completed && (h.id, user) in m2 && h.name == g.name
    {
      assert g.name in UserGroupNames(groups, m1, completed, user);
    }
    forall g | g in groups && g.courseId == completed && (g.id, user) in m2
      ensures exists h :: h in groups && h.courseId == completed && (h.id, user) in m1 && h.name == g.name
    {
      assert g.name in UserGroupNames(groups, m2, completed, user);
    }
  }

  /** A group that mirroring adds the user to is in the target course and bears the
      name of one of the user's groups in the completed course. */
  lemma MirroredNameKnown(groups: seq<Group>, groupings: seq<Grouping>, members: set<(int, int)>,
                          completed: int, target: int, user: int, p: (int, int), g: Group)
    requires UniqueGroupIds(groups)
    requires p in Mirrored(groups, target, user, Flatten(UserGroupings(groups, groupings, members, completed, user)))
    requires g in groups && g.id == p.0
    ensures g.courseId == target && g.name in UserGroupNames(groups, members, completed, user)
  {
    MirrorOfUserGroups(groups, groupings, members, completed, target, user);
    var h :| h in groups && h.courseId == completed && (h.id, user) in members
             && GroupByName(groups, target, h.name) == Some(p.0);
    GroupByNameFound(groups, target, h.name);
    SameIdSameGroup(groups, g, Group(p.0, target, h.name));
  }

  /** Memberships that put the user only in groups bearing names the user already
      has in `course` leave those names unchanged. */
  lemma UserGroupNamesStable(groups: seq<Group>, members: set<(int, int)>, extra: set<(int, int)>, course: int, user: int)
    requires forall p, g :: p in extra && g in groups && g.id == p.0 && g.courseId == course && p.1 == user
               ==> g.name in UserGroupNames(groups, members, course, user)
    ensures UserGroupNames(groups, members + extra, course, user) == UserGroupNames(groups, members, course, user)
  {
    forall n | n in UserGroupNames(groups, members + extra, course, user)
      ensures n in UserGroupNames(groups, members, course, user)
    {
      var g :| g in groups && g.courseId == course && (g.id, user) in members + extra && g.name == n;
      if (g.id, user) in extra {
        assert (g.id, user).0 == g.id && (g.id, user).1 == user;
      }
    }
  }

  /** Memberships in groups of other courses do not change the user's groups in `course`. */
  lemma {:induction false} UserGroupIdsStable(groups: seq<Group>, members: set<(int, int)>, extra: set<(int, int)>,
                                              course: int, user: int)
    requires forall p, g :: p in extra && g in groups && g.id == p.0 ==> g.courseId != course
    ensures UserGroupIds(groups, members + extra, course, user) == UserGroupIds(groups, members, course, user)
  {
    if groups != [] {
      assert forall g :: g in groups[1..] ==> g in groups;
      UserGroupIdsStable(groups[1..], members, extra, course, user);
      if groups[0].courseId == course {
        assert (groups[0].id, user) !in extra;
      }
    }
  }
}
