/** Which messages of a date group show an avatar (`showAvatar` in
    chat-home.tsx): only the first message of each run of messages from the
    same role. */
module Avatars {
  import opened Messages

  /** The avatar test for the message at `index` of a date group. */
  predicate ShowAvatar(group: seq<Message>, index: nat)
    requires index < |group|
  {
    index == 0 || group[index - 1].role != group[index].role
  }

  /** The roles of a group, in order. */
  function Roles(group: seq<Message>): (rs: seq<Role>)
    ensures |rs| == |group|
    ensures forall i :: 0 <= i < |group| ==> rs[i] == group[i].role
  {
    seq(|group|, i requires 0 <= i < |group| => group[i].role)
  }

  /** Every role from position `j` up to `index` is the role at `index`. */
  ghost predicate SameRoleFrom(roles: seq<Role>, j: nat, index: nat)
    requires j <= index < |roles|
  {
    forall l :: j <= l <= index ==> roles[l] == roles[index]
  }

  /** Reference definition: `index` opens a maximal run of one role, i.e. no
      earlier position starts a same-role stretch reaching `index`. */
  ghost predicate StartsRun(roles: seq<Role>, index: nat)
    requires index < |roles|
  {
    forall j :: 0 <= j < index ==> !SameRoleFrom(roles, j, index)
  }

  /** The avatar test marks exactly the positions that open a run of one role. */
  lemma ShowAvatarIffStartsRun(group: seq<Message>, index: nat)
    requires index < |group|
    ensures ShowAvatar(group, index) <==> StartsRun(Roles(group), index)
  {
    var rs := Roles(group);
    if index > 0 && !ShowAvatar(group, index) {
      assert SameRoleFrom(rs, index - 1, index);
    }
    if ShowAvatar(group, index) {
      forall j | 0 <= j < index
        ensures !SameRoleFrom(rs, j, index)
      {
        assert rs[index - 1] != rs[index];
      }
    }
  }

  /** The avatar test depends on roles alone, not on ids, text or times. */
  lemma ShowAvatarDependsOnlyOnRoles(g1: seq<Message>, g2: seq<Message>, index: nat)
    requires index < |g1| && Roles(g1) == Roles(g2)
    ensures ShowAvatar(g1, index) == ShowAvatar(g2, index)
  {
    assert Roles(g1)[index] == Roles(g2)[index];
    if index > 0 {
      assert Roles(g1)[index - 1] == Roles(g2)[index - 1];
    }
  }

  /** In a stretch `group[lo..hi]` of one role, the avatar shows at most at
      `lo`, and it does show there when `lo` is the start of the group or
      follows a different role. */
  lemma AvatarOnlyAtRunHead(group: seq<Message>, lo: nat, hi: nat)
    requires lo < hi <= |group|
    requires forall i :: lo <= i < hi ==> group[i].role == group[lo].role
    ensures forall i :: lo < i < hi ==> !ShowAvatar(group, i)
    ensures (lo == 0 || group[lo - 1].role != group[lo].role) ==> ShowAvatar(group, lo)
  {
    forall i | lo < i < hi
      ensures !ShowAvatar(group, i)
    {
      assert group[i - 1].role == group[lo].role;
    }
  }
}
