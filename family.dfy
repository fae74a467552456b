/**
 * The family sharing page (src/app/family/page.tsx): the map from member id to the
 * resources shared with that member, built from the member and grant rows, and the
 * checkbox toggle that updates the map before the write and rolls it back on failure.
 * The repository calls are outside the model: their rows, `None` when the call throws,
 * and the write's success are parameters.
 */
module Family {
  import opened Wrappers

  datatype Resource = Assets | Beneficiaries | Profile | Documents | Contacts | Messages

  datatype Status = Invited | Active | Revoked

  /** The fields of a member row the page's logic reads. */
  datatype Member = Member(id: string, status: Status)

  /** A grant row: `member_id` and `resource_type`. */
  datatype Grant = Grant(memberId: string, resource: Resource)

  type GrantMap = map<string, set<Resource>>

  function MemberIds(rows: seq<Member>): set<string> {
    set i | 0 <= i < |rows| :: rows[i].id
  }

  function GrantIds(gs: seq<Grant>): set<string> {
    set j | 0 <= j < |gs| :: gs[j].memberId
  }

  /** The resources the first n grant rows give member id. */
  function Granted(gs: seq<Grant>, n: nat, id: string): set<Resource>
    requires n <= |gs|
  {
    set j | 0 <= j < n && gs[j].memberId == id :: gs[j].resource
  }

  /** The map the page should hold: an entry for every listed member and every member a
      grant row names, each holding exactly the resources granted to that member. */
  function Expected(rows: seq<Member>, gs: seq<Grant>): (g: GrantMap)
    ensures forall id :: id in g <==>
              (exists i | 0 <= i < |rows| :: rows[i].id == id) || (exists j | 0 <= j < |gs| :: gs[j].memberId == id)
    ensures forall id, r | id in g :: r in g[id] <==> exists j | 0 <= j < |gs| :: gs[j] == Grant(id, r)
  {
    var g := map id | id in MemberIds(rows) + GrantIds(gs) :: Granted(gs, |gs|, id);
    assert forall id, r | id in g :: r in g[id] <==> exists j | 0 <= j < |gs| :: gs[j] == Grant(id, r) by {
      forall id, r | id in g
        ensures r in g[id] <==> exists j | 0 <= j < |gs| :: gs[j] == Grant(id, r)
      {
        if r in g[id] {
          var j :| 0 <= j < |gs| && gs[j].memberId == id && gs[j].resource == r;
          assert gs[j] == Grant(id, r);
        }
      }
    }
    g
  }

  /** The map after the first loop has seen the first i members. */
  function Listed(rows: seq<Member>, i: nat): GrantMap
    requires i <= |rows|
  {
    map id | id in MemberIds(rows[..i]) :: {}
  }

  /** The map after the second loop has seen the first j grant rows. */
  function Partial(rows: seq<Member>, gs: seq<Grant>, j: nat): GrantMap
    requires j <= |gs|
  {
    map id | id in MemberIds(rows) + GrantIds(gs[..j]) :: Granted(gs, j, id)
  }

  lemma ListStep(rows: seq<Member>, i: nat)
    requires i < |rows|
    ensures Listed(rows, i + 1) == Listed(rows, i)[rows[i].id := {}]
  {
    assert MemberIds(rows[..i + 1]) == MemberIds(rows[..i]) + {rows[i].id} by {
      assert forall k | 0 <= k < i :: rows[..i + 1][k] == rows[..i][k];
    }
  }

  lemma GrantStep(rows: seq<Member>, gs: seq<Grant>, j: nat)
    requires j < |gs|
    ensures var p, id := Partial(rows, gs, j), gs[j].memberId;
      Partial(rows, gs, j + 1) == p[id := (if id in p then p[id] else {}) + {gs[j].resource}]
  {
    var p, id := Partial(rows, gs, j), gs[j].memberId;
    var q := p[id := (if id in p then p[id] else {}) + {gs[j].resource}];
    assert GrantIds(gs[..j + 1]) == GrantIds(gs[..j]) + {id} by {
      assert forall k | 0 <= k < j :: gs[..j + 1][k] == gs[..j][k];
    }
    assert Granted(gs, j + 1, id) == Granted(gs, j, id) + {gs[j].resource};
    assert (if id in p then p[id] else {}) == Granted(gs, j, id);
    forall other | other != id && other in q
      ensures Granted(gs, j + 1, other) == q[other]
    {
      assert Granted(gs, j + 1, other) == Granted(gs, j, other);
    }
  }

  /** The two loops that build the map: an empty set for every member, then one insertion
      per grant row, creating the entry when the row names an unlisted member. */
  method BuildGrantMap(rows: seq<Member>, gs: seq<Grant>) returns (g: GrantMap)
    ensures g == Expected(rows, gs)
  {
    g := map[];
    var i := 0;
    while i < |rows|
      invariant i <= |rows|
      invariant g == Listed(rows, i)
    {
      ListStep(rows, i);
      g := g[rows[i].id := {}];
      i := i + 1;
    }
    assert rows[..i] == rows;
    assert GrantIds(gs[..0]) == {};
    assert forall id :: Granted(gs, 0, id) == {};
    var j := 0;
    while j < |gs|
      invariant j <= |gs|
      invariant g == Partial(rows, gs, j)
    {
      GrantStep(rows, gs, j);
      var id := gs[j].memberId;
      var cur := if id in g then g[id] else {};
      g := g[id := cur + {gs[j].resource}];
      j := j + 1;
    }
    assert gs[..j] == gs;
  }

  /** One optimistic or rollback step: memberId's set (empty when absent) with the
      resource added when `add` holds and removed otherwise. */
  function Step(g: GrantMap, memberId: string, r: Resource, add: bool): (g': GrantMap)
    ensures memberId in g'
    ensures r in g'[memberId] <==> add
    ensures forall x | x != r :: x in g'[memberId] <==> memberId in g && x in g[memberId]
    ensures forall id | id != memberId :: (id in g' <==> id in g) && (id in g ==> g'[id] == g[id])
  {
    var prior := if memberId in g then g[memberId] else {};
    g[memberId := if add then prior + {r} else prior - {r}]
  }

  /** A rollback undoes the optimistic step whenever that step changed something, that is,
      whenever the member had an entry and the resource's membership was not `next`. */
  lemma RollbackRestores(g: GrantMap, memberId: string, r: Resource, next: bool)
    requires memberId in g && (r in g[memberId] <==> !next)
    ensures Step(Step(g, memberId, r, next), memberId, r, !next) == g
  {
    var g' := Step(Step(g, memberId, r, next), memberId, r, !next);
    assert g'[memberId] == g[memberId];
  }

  /** When the box already showed `next`, a failed write still runs the inverse step and
      leaves the resource's membership flipped. */
  lemma RollbackAfterNoOp(g: GrantMap, memberId: string, r: Resource, next: bool)
    requires memberId in g && (r in g[memberId] <==> next)
    ensures var g' := Step(Step(g, memberId, r, next), memberId, r, !next);
      g' != g && (r in g'[memberId] <==> !next)
  {
    var g' := Step(Step(g, memberId, r, next), memberId, r, !next);
    assert (r in g'[memberId]) != (r in g[memberId]);
  }

  /** The state of one share checkbox. */
  datatype Checkbox = Checkbox(checked: bool, disabled: bool)

  /** The checkbox for member m and resource r: ticked when the member's set holds r, and
      settable only for an active member. */
  function Cell(g: GrantMap, m: Member, r: Resource): (c: Checkbox)
    ensures c.checked <==> m.id in g && r in g[m.id]
    ensures !c.disabled <==> m.status == Active
  {
    var shared := if m.id in g then g[m.id] else {};
    Checkbox(r in shared, m.status != Active)
  }

  class FamilyPage {
    var members: seq<Member>
    var grants: GrantMap
    var loading: bool
    var email: string
    var name: string
    var relation: string

    /** The initial state: loading, no members and no grants. */
    constructor ()
      ensures members == [] && grants == map[] && loading
      ensures email == "" && name == "" && relation == ""
    {
      members, grants, loading := [], map[], true;
      email, name, relation := "", "", "";
    }

    /** The "no invitations yet" notice. */
    function Empty(): bool
      reads this
    {
      !loading && members == []
    }

    /** The mount effect: `rows` are the owner's members and `gs` the grant rows fetched for
        them, which are not asked for when there are no members; `None` is a call that threw.
        There is no `catch`: a throw skips the rest of the body, and the `finally` still ends
        the loading. */
    method Load(rows: Option<seq<Member>>, gs: Option<seq<Grant>>)
      modifies this
      ensures !loading
      ensures rows.None? ==> members == old(members) && grants == old(grants)
      ensures rows.Some? ==> members == rows.value
      ensures rows.Some? && rows.value == [] ==> grants == map[] && Empty()
      ensures rows.Some? && rows.value != [] && gs.Some? ==> grants == Expected(rows.value, gs.value)
      ensures rows.Some? && rows.value != [] && gs.None? ==> grants == old(grants)
      ensures rows.None? && old(members) == [] ==> Empty()
      ensures email == old(email) && name == old(name) && relation == old(relation)
    {
      loading := true;
      if rows.Some? {
        members := rows.value;
        if |rows.value| > 0 {
          if gs.Some? {
            grants := BuildGrantMap(rows.value, gs.value);
          }
        } else {
          grants := map[];
        }
      }
      loading := false;
    }

    /** `onInvite`: `invited` is whether `inviteMember` resolved; after it the form is
        cleared and the members and grants are read again, `None` being a call that threw.
        A throw skips the rest of the handler. */
    method Invite(invited: bool, rows: Option<seq<Member>>, gs: Option<seq<Grant>>)
      modifies this
      ensures !invited ==> email == old(email) && name == old(name) && relation == old(relation)
      ensures invited ==> email == "" && name == "" && relation == ""
      ensures !invited || rows.None? ==> members == old(members) && grants == old(grants)
      ensures invited && rows.Some? ==> members == rows.value
      ensures invited && rows.Some? && rows.value == [] ==> grants == map[]
      ensures invited && rows.Some? && rows.value != [] && gs.Some? ==> grants == Expected(rows.value, gs.value)
      ensures invited && rows.Some? && rows.value != [] && gs.None? ==> grants == old(grants)
      ensures loading == old(loading)
    {
      if !invited {
        return;
      }
      email, name, relation := "", "", "";
      if rows.Some? {
        members := rows.value;
        if |rows.value| > 0 {
          if gs.Some? {
            grants := BuildGrantMap(rows.value, gs.value);
          }
        } else {
          grants := map[];
        }
      }
    }

    /** `toggle(memberId, resource, next)`: the optimistic step, then, when the write
        fails, the inverse step. */
    method Toggle(memberId: string, r: Resource, next: bool, writeOk: bool)
      modifies this
      ensures writeOk ==> grants == Step(old(grants), memberId, r, next)
      ensures !writeOk ==> grants == Step(Step(old(grants), memberId, r, next), memberId, r, !next)
      ensures members == old(members) && loading == old(loading)
      ensures email == old(email) && name == old(name) && relation == old(relation)
    {
      grants := Step(grants, memberId, r, next);
      if !writeOk {
        grants := Step(grants, memberId, r, !next);
      }
    }
  }
}
