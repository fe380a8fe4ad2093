/** The parent rows the seed script creates before any document: one
    organization, department and user per distinct id the records mention,
    collected into insertion-ordered sets. Every department and user is
    attached to the first organization collected. */
module Parents {
  import opened Maybe
  import opened Text
  import opened Schema
  import opened Payload

  /** The length of the id prefix used in display names. */
  const ShortId: nat := 8

  predicate Distinct(xs: seq<string>) {
    forall i, j :: 0 <= i < j < |xs| ==> xs[i] != xs[j]
  }

  /** `set.add(x)` on an insertion-ordered set kept as a sequence. */
  function AddDistinct(xs: seq<string>, x: string): (r: seq<string>)
    requires Distinct(xs)
    ensures Distinct(r)
    ensures forall y :: y in r <==> y in xs || y == x
    ensures |xs| <= |r| && forall i :: 0 <= i < |xs| ==> r[i] == xs[i]
  {
    if x in xs then xs else xs + [x]
  }

  datatype Ids = Ids(organizations: seq<string>, departments: seq<string>, users: seq<string>)

  /** The user ids a record mentions: its uploader, and its assignee when
      that is a non-empty string. */
  predicate MentionsUser(rec: RawRecord, u: string) {
    rec.uploadedById == u || (rec.assignedToId.Some? && rec.assignedToId.value != "" && rec.assignedToId.value == u)
  }

  /** The organization set after the records, in insertion order. */
  function Organizations(records: seq<RawRecord>): (r: seq<string>)
    ensures Distinct(r)
  {
    if |records| == 0 then []
    else AddDistinct(Organizations(records[..|records| - 1]), records[|records| - 1].organizationId)
  }

  /** The department set after the records, in insertion order. */
  function Departments(records: seq<RawRecord>): (r: seq<string>)
    ensures Distinct(r)
  {
    if |records| == 0 then []
    else AddDistinct(Departments(records[..|records| - 1]), records[|records| - 1].departmentId)
  }

  /** The user set after the records: each record adds its uploader, then
      its assignee when that is a non-empty string. */
  function Users(records: seq<RawRecord>): (r: seq<string>)
    ensures Distinct(r)
  {
    if |records| == 0 then []
    else
      var rec := records[|records| - 1];
      var users := AddDistinct(Users(records[..|records| - 1]), rec.uploadedById);
      if rec.assignedToId.Some? && rec.assignedToId.value != ""
      then AddDistinct(users, rec.assignedToId.value) else users
  }

  /** The `forEach` over the records that fills the three sets. */
  function CollectIds(records: seq<RawRecord>): Ids {
    Ids(Organizations(records), Departments(records), Users(records))
  }

  /** Exactly the organizations some record mentions are collected. */
  lemma {:induction false} CollectedOrganizations(records: seq<RawRecord>, o: string)
    ensures o in Organizations(records)
        <==> exists i :: 0 <= i < |records| && records[i].organizationId == o
  {
    if |records| > 0 {
      var front := records[..|records| - 1];
      var last := records[|records| - 1];
      CollectedOrganizations(front, o);
      var prev := Organizations(front);
      assert Organizations(records) == AddDistinct(prev, last.organizationId);
      if exists i :: 0 <= i < |records| && records[i].organizationId == o {
        var i :| 0 <= i < |records| && records[i].organizationId == o;
        if i < |front| {
          assert front[i] == records[i];
        }
      } else {
        assert last.organizationId != o;
        forall i | 0 <= i < |front|
          ensures front[i].organizationId != o
        {
          assert front[i] == records[i];
        }
      }
    }
  }


  /** Exactly the departments some record mentions are collected. */
  lemma {:induction false} CollectedDepartments(records: seq<RawRecord>, d: string)
    ensures d in Departments(records)
        <==> exists i :: 0 <= i < |records| && records[i].departmentId == d
  {
    if |records| > 0 {
      var front := records[..|records| - 1];
      var last := records[|records| - 1];
      CollectedDepartments(front, d);
      var prev := Departments(front);
      assert Departments(records) == AddDistinct(prev, last.departmentId);
      if exists i :: 0 <= i < |records| && records[i].departmentId == d {
        var i :| 0 <= i < |records| && records[i].departmentId == d;
        if i < |front| {
          assert front[i] == records[i];
        }
      } else {
        assert last.departmentId != d;
        forall i | 0 <= i < |front|
          ensures front[i].departmentId != d
        {
          assert front[i] == records[i];
        }
      }
    }
  }


  /** One record adds exactly the users it mentions. */
  lemma UsersStep(records: seq<RawRecord>, u: string)
    requires |records| > 0
    ensures u in Users(records)
        <==> u in Users(records[..|records| - 1]) || MentionsUser(records[|records| - 1], u)
  {
    var last := records[|records| - 1];
    var mid := AddDistinct(Users(records[..|records| - 1]), last.uploadedById);
    if last.assignedToId.Some? && last.assignedToId.value != "" {
      assert Users(records) == AddDistinct(mid, last.assignedToId.value);
    } else {
      assert Users(records) == mid;
    }
  }

  /** Exactly the uploaders and non-empty assignees are collected as users. */
  lemma {:induction false} CollectedUsers(records: seq<RawRecord>, u: string)
    ensures u in Users(records)
        <==> exists i :: 0 <= i < |records| && MentionsUser(records[i], u)
  {
    if |records| > 0 {
      var front := records[..|records| - 1];
      var last := records[|records| - 1];
      CollectedUsers(front, u);
      UsersStep(records, u);
      if u in Users(front) {
        var i :| 0 <= i < |front| && MentionsUser(front[i], u);
        assert records[i] == front[i];
      } else if MentionsUser(last, u) {
        assert MentionsUser(records[|records| - 1], u);
      } else {
        forall i | 0 <= i < |records|
          ensures !MentionsUser(records[i], u)
        {
          if i < |front| {
            assert records[i] == front[i];
          }
        }
      }
    }
  }

  /** The first organization collected is the first record's: what later
      records add goes after it. */
  lemma {:induction false} FirstOrganization(records: seq<RawRecord>)
    requires |records| > 0
    ensures |Organizations(records)| > 0
    ensures Organizations(records)[0] == records[0].organizationId
  {
    if |records| > 1 {
      var front := records[..|records| - 1];
      FirstOrganization(front);
      assert front[0] == records[0];
    }
  }

  datatype ParentRows = ParentRows(
    organizations: seq<Organization>,
    departments: seq<Department>,
    users: seq<User>)

  function OrganizationOf(id: string): Organization {
    Organization(id, "Organization " + Prefix(id, ShortId))
  }

  function DepartmentOf(id: string, organizationId: string): Department {
    Department(id, "Department " + Prefix(id, ShortId), organizationId)
  }

  function UserOf(id: string, organizationId: string): User {
    User(id, "user_" + Prefix(id, ShortId) + "@example.com", "User " + Prefix(id, ShortId), organizationId)
  }

  /** The three creation loops: one row per collected id, in collection
      order, with departments and users under the first organization. */
  function CreateParents(records: seq<RawRecord>): (r: ParentRows)
    ensures var ids := CollectIds(records);
      && |r.organizations| == |ids.organizations|
      && |r.departments| == |ids.departments|
      && |r.users| == |ids.users|
      && (forall i :: 0 <= i < |r.organizations| ==> r.organizations[i].id == ids.organizations[i])
      && (forall i :: 0 <= i < |r.departments| ==> r.departments[i].id == ids.departments[i])
      && (forall i :: 0 <= i < |r.users| ==> r.users[i].id == ids.users[i])
  {
    var ids := CollectIds(records);
    // `Array.from(organizations)[0]`; only read when a record exists.
    var owner := if |ids.organizations| > 0 then ids.organizations[0] else "";
    ParentRows(
      seq(|ids.organizations|, i requires 0 <= i < |ids.organizations| => OrganizationOf(ids.organizations[i])),
      seq(|ids.departments|, i requires 0 <= i < |ids.departments| => DepartmentOf(ids.departments[i], owner)),
      seq(|ids.users|, i requires 0 <= i < |ids.users| => UserOf(ids.users[i], owner)))
  }

  /** Each id is created once, so no primary key is written twice. */
  lemma ParentsDistinct(records: seq<RawRecord>)
    ensures var r := CreateParents(records);
      && (forall i, j :: 0 <= i < j < |r.organizations| ==> r.organizations[i].id != r.organizations[j].id)
      && (forall i, j :: 0 <= i < j < |r.departments| ==> r.departments[i].id != r.departments[j].id)
      && (forall i, j :: 0 <= i < j < |r.users| ==> r.users[i].id != r.users[j].id)
  {
  }

  /** A record's organization, department and users all have rows. */
  lemma ParentsCoverRecord(records: seq<RawRecord>, k: nat, u: string)
    requires k < |records|
    requires MentionsUser(records[k], u)
    ensures var r := CreateParents(records);
      && (exists i :: 0 <= i < |r.organizations| && r.organizations[i].id == records[k].organizationId)
      && (exists i :: 0 <= i < |r.departments| && r.departments[i].id == records[k].departmentId)
      && (exists i :: 0 <= i < |r.users| && r.users[i].id == u)
  {
    var r := CreateParents(records);
    var ids := CollectIds(records);
    CollectedOrganizations(records, records[k].organizationId);
    CollectedDepartments(records, records[k].departmentId);
    CollectedUsers(records, u);
    var a :| 0 <= a < |ids.organizations| && ids.organizations[a] == records[k].organizationId;
    var b :| 0 <= b < |ids.departments| && ids.departments[b] == records[k].departmentId;
    var c :| 0 <= c < |ids.users| && ids.users[c] == u;
    assert r.organizations[a].id == records[k].organizationId;
    assert r.departments[b].id == records[k].departmentId;
    assert r.users[c].id == u;
  }

  /** Every row created is for an id some record mentions. */
  lemma ParentsOnlyMentioned(records: seq<RawRecord>)
    ensures var r := CreateParents(records);
      && (forall i :: 0 <= i < |r.organizations| ==>
            exists k :: 0 <= k < |records| && records[k].organizationId == r.organizations[i].id)
      && (forall i :: 0 <= i < |r.departments| ==>
            exists k :: 0 <= k < |records| && records[k].departmentId == r.departments[i].id)
      && (forall i :: 0 <= i < |r.users| ==>
            exists k :: 0 <= k < |records| && MentionsUser(records[k], r.users[i].id))
  {
    var r := CreateParents(records);
    var ids := CollectIds(records);
    forall i | 0 <= i < |r.organizations|
      ensures exists k :: 0 <= k < |records| && records[k].organizationId == r.organizations[i].id
    {
      CollectedOrganizations(records, ids.organizations[i]);
    }
    forall i | 0 <= i < |r.departments|
      ensures exists k :: 0 <= k < |records| && records[k].departmentId == r.departments[i].id
    {
      CollectedDepartments(records, ids.departments[i]);
    }
    forall i | 0 <= i < |r.users|
      ensures exists k :: 0 <= k < |records| && MentionsUser(records[k], r.users[i].id)
    {
      CollectedUsers(records, ids.users[i]);
    }
  }

  /** Every department and user points at an organization that is created,
      namely the first record's. */
  lemma ParentsOwnedByFirst(records: seq<RawRecord>)
    requires |records| > 0
    ensures var r := CreateParents(records);
      && |r.organizations| > 0
      && r.organizations[0].id == records[0].organizationId
      && (forall i :: 0 <= i < |r.departments| ==> r.departments[i].organizationId == records[0].organizationId)
      && (forall i :: 0 <= i < |r.users| ==> r.users[i].organizationId == records[0].organizationId)
  {
    FirstOrganization(records);
  }

  /** Display names and e-mail addresses carry the first eight characters
      of the id, or the whole id when it is shorter. */
  lemma DisplayNames(id: string, owner: string)
    ensures var o := OrganizationOf(id);
      var d := DepartmentOf(id, owner);
      var u := UserOf(id, owner);
      var short := o.name[|"Organization "|..];
      && short == d.name[|"Department "|..]
      && short == u.name[|"User "|..]
      && u.email == "user_" + short + "@example.com"
      && |short| == (if |id| < ShortId then |id| else ShortId)
      && short == id[..|short|]
  {
    var short := Prefix(id, ShortId);
    assert OrganizationOf(id).name[|"Organization "|..] == short;
    assert DepartmentOf(id, owner).name[|"Department "|..] == short;
    assert UserOf(id, owner).name[|"User "|..] == short;
  }
}
