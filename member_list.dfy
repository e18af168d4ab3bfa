/**
 * The team page's member table: the search filter, inline editing and
 * removal of members.
 */
module MemberList {
  import opened Domain
  import opened Text

  /** A member is shown when the lower-cased search term occurs in its
      lower-cased name or e-mail. */
  predicate MatchesSearch(m: Member, term: string) {
    Includes(ToLower(m.name), ToLower(term)) || Includes(ToLower(m.email), ToLower(term))
  }

  /** `filteredMembers`: the matching members, in their order. */
  function FilterMembers(members: seq<Member>, term: string): (r: seq<Member>)
    ensures |r| <= |members|
    ensures forall m :: m in r <==> m in members && MatchesSearch(m, term)
    ensures multiset(r) <= multiset(members)
    decreases |members|
  {
    if members == [] then []
    else
      var rest := FilterMembers(members[1..], term);
      assert members == [members[0]] + members[1..];
      if MatchesSearch(members[0], term) then [members[0]] + rest else rest
  }

  /** Filtering works element by element: it keeps the relative order. */
  lemma {:induction false} FilterConcat(a: seq<Member>, b: seq<Member>, term: string)
    ensures FilterMembers(a + b, term) == FilterMembers(a, term) + FilterMembers(b, term)
    decreases |a|
  {
    if a == [] {
      assert a + b == b;
    } else {
      assert (a + b)[1..] == a[1..] + b;
      FilterConcat(a[1..], b, term);
    }
  }

  /** Filtering twice by the same term changes nothing more. */
  lemma {:induction false} FilterIdempotent(members: seq<Member>, term: string)
    ensures FilterMembers(FilterMembers(members, term), term) == FilterMembers(members, term)
    decreases |members|
  {
    if members != [] {
      FilterIdempotent(members[1..], term);
      var rest := FilterMembers(members[1..], term);
      if MatchesSearch(members[0], term) {
        assert ([members[0]] + rest)[1..] == rest;
      }
    }
  }

  /** The empty search term (the initial state) shows every member. */
  lemma {:induction false} EmptyTermShowsAll(members: seq<Member>)
    ensures FilterMembers(members, "") == members
    decreases |members|
  {
    if members != [] {
      assert ToLower("") == "";
      IncludesEmpty(ToLower(members[0].name));
      EmptyTermShowsAll(members[1..]);
    }
  }

  function Ids(members: seq<Member>): set<string> {
    set m | m in members :: m.id
  }

  /** The `members.map` in `handleSave`: the member with the id is replaced
      by the updated one, the others stay where they are. */
  function ReplaceById(members: seq<Member>, id: string, updated: Member): (r: seq<Member>)
    ensures |r| == |members|
    ensures forall i :: 0 <= i < |r| && members[i].id != id ==> r[i] == members[i]
    ensures forall i :: 0 <= i < |r| && members[i].id == id ==> r[i] == updated
    decreases |members|
  {
    if members == [] then []
    else [if members[0].id == id then updated else members[0]] + ReplaceById(members[1..], id, updated)
  }

  /** Saving for an id nobody has changes nothing, and saving a member that
      keeps its id keeps the set of ids. */
  lemma ReplaceKeepsIds(members: seq<Member>, id: string, updated: Member)
    ensures id !in Ids(members) ==> ReplaceById(members, id, updated) == members
    ensures updated.id == id ==> Ids(ReplaceById(members, id, updated)) == Ids(members)
  {
    var r := ReplaceById(members, id, updated);
    if id !in Ids(members) {
      forall i | 0 <= i < |r| ensures r[i] == members[i] {
        assert members[i] in members;
      }
    }
    if updated.id == id {
      forall x | x in Ids(r) ensures x in Ids(members) {
        var i :| 0 <= i < |r| && r[i].id == x;
        assert members[i] in members;
      }
      forall x | x in Ids(members) ensures x in Ids(r) {
        var i :| 0 <= i < |members| && members[i].id == x;
        assert r[i] in r;
      }
    }
  }

  /** The `members.filter` in `handleDelete`: every member with the id goes,
      the others stay in order. */
  function RemoveById(members: seq<Member>, id: string): (r: seq<Member>)
    ensures forall m :: m in r <==> m in members && m.id != id
    ensures multiset(r) <= multiset(members)
    ensures id !in Ids(r)
    decreases |members|
  {
    if members == [] then []
    else
      var rest := RemoveById(members[1..], id);
      assert members == [members[0]] + members[1..];
      if members[0].id == id then rest else [members[0]] + rest
  }

  /** Removal works element by element: what survives keeps its relative order. */
  lemma {:induction false} RemoveConcat(a: seq<Member>, b: seq<Member>, id: string)
    ensures RemoveById(a + b, id) == RemoveById(a, id) + RemoveById(b, id)
    decreases |a|
  {
    if a == [] {
      assert a + b == b;
    } else {
      assert (a + b)[1..] == a[1..] + b;
      RemoveConcat(a[1..], b, id);
    }
  }

  /** On one member, removal drops it exactly when it has the id. */
  lemma RemoveSingle(m: Member, id: string)
    ensures RemoveById([m], id) == if m.id == id then [] else [m]
  {
    assert [m][1..] == [];
  }

  /** Removing an id nobody has changes nothing; removing twice is removing once. */
  lemma {:induction false} RemoveIdempotent(members: seq<Member>, id: string)
    ensures id !in Ids(members) ==> RemoveById(members, id) == members
    ensures RemoveById(RemoveById(members, id), id) == RemoveById(members, id)
    decreases |members|
  {
    if members != [] {
      RemoveIdempotent(members[1..], id);
      assert members[0] in members;
      assert Ids(members[1..]) <= Ids(members) by {
        forall x | x in Ids(members[1..]) ensures x in Ids(members) {
          var m :| m in members[1..] && m.id == x;
          assert m in members;
        }
      }
      var rest := RemoveById(members[1..], id);
      if members[0].id != id {
        assert ([members[0]] + rest)[1..] == rest;
      }
    }
  }

  /** The badge next to the search box: "1 member", "0 members", "2 members". */
  function CountBadge(n: nat): (s: string)
    ensures |s| > |NatToString(n)|
    ensures s[..|NatToString(n)|] == NatToString(n)
    ensures s[|NatToString(n)|..] == if n == 1 then " member" else " members"
  {
    NatToString(n) + " member" + (if n != 1 then "s" else "")
  }

  /** The inline edit form. */
  datatype EditForm = EditForm(name: string, email: string, sentiment: Sentiment)

  const BlankForm := EditForm("", "", Neutral)

  /** How the awaited `updateMember` call ended: a member, nothing, or a throw. */
  datatype SaveOutcome = Updated(member: Member) | NotUpdated | SaveThrew

  /** How the awaited `deleteMember` call ended. */
  datatype DeleteOutcome = Deleted | DeleteThrew

  /** The component's state. */
  class MemberTable {
    var members: seq<Member>
    var searchTerm: string
    var editingId: Option<string>
    var editForm: EditForm

    constructor (initialMembers: seq<Member>)
      ensures members == initialMembers && searchTerm == ""
      ensures editingId == None && editForm == BlankForm
    {
      members, searchTerm := initialMembers, "";
      editingId, editForm := None, BlankForm;
    }

    /** The rows shown: all members when nothing is searched for. */
    function Visible(): (rows: seq<Member>)
      reads this
      ensures |rows| <= |members|
      ensures forall m :: m in rows <==> m in members && MatchesSearch(m, searchTerm)
      ensures searchTerm == "" ==> rows == members
    {
      if searchTerm == "" then EmptyTermShowsAll(members); FilterMembers(members, searchTerm)
      else FilterMembers(members, searchTerm)
    }

    /** The empty-state message replaces the table exactly when the team has
        no members; a search that matches nobody still shows the table. */
    predicate ShowsEmptyState()
      reads this
    {
      |members| == 0
    }

    /** The empty state is shown only when there is no row to show, and it
        is not shown for an unfiltered team that has members. */
    lemma EmptyStateHasNoRows()
      ensures ShowsEmptyState() ==> Visible() == []
      ensures members != [] ==> !ShowsEmptyState()
      ensures searchTerm == "" && !ShowsEmptyState() ==> Visible() != []
    {
    }

    method Search(term: string)
      modifies this`searchTerm
      ensures searchTerm == term
    {
      searchTerm := term;
    }

    /** `handleEdit`: opens the row for editing with the member's values. */
    method Edit(m: Member)
      modifies this`editingId, this`editForm
      ensures editingId == Some(m.id)
      ensures editForm == EditForm(m.name, m.email, m.sentiment)
    {
      editingId := Some(m.id);
      editForm := EditForm(m.name, m.email, m.sentiment);
    }

    /** The three inputs of the edit row each replace one field of the form. */
    method EditName(value: string)
      modifies this`editForm
      ensures editForm == old(editForm).(name := value)
    {
      editForm := editForm.(name := value);
    }

    method EditEmail(value: string)
      modifies this`editForm
      ensures editForm == old(editForm).(email := value)
    {
      editForm := editForm.(email := value);
    }

    method EditSentiment(value: Sentiment)
      modifies this`editForm
      ensures editForm == old(editForm).(sentiment := value)
    {
      editForm := editForm.(sentiment := value);
    }

    /** `handleSave`: a returned member replaces the one with the id; unless
        the call threw, editing ends. The form itself is left as it was. */
    method Save(memberId: string, outcome: SaveOutcome)
      modifies this`members, this`editingId
      ensures outcome.Updated? ==> members == ReplaceById(old(members), memberId, outcome.member)
      ensures !outcome.Updated? ==> members == old(members)
      ensures editingId == if outcome.SaveThrew? then old(editingId) else None
    {
      match outcome {
        case Updated(m) =>
          members := ReplaceById(members, memberId, m);
          editingId := None;
        case NotUpdated =>
          editingId := None;
        case SaveThrew =>
      }
    }

    /** `handleCancel` */
    method Cancel()
      modifies this`editingId, this`editForm
      ensures editingId == None && editForm == BlankForm
    {
      editingId, editForm := None, BlankForm;
    }

    /** `handleDelete`: only a confirmed, successful delete removes the
        member locally; the edit state is not touched. */
    method Delete(memberId: string, confirmed: bool, outcome: DeleteOutcome)
      modifies this`members
      ensures members == if confirmed && outcome.Deleted? then RemoveById(old(members), memberId)
                         else old(members)
      ensures confirmed && outcome.Deleted? ==> forall m :: m in members ==> m.id != memberId
    {
      if confirmed && outcome.Deleted? {
        members := RemoveById(members, memberId);
      }
    }
  }
}
