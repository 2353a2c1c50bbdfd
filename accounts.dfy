/**
 * The `User` schema: one record shape for super-admins, trainers and students,
 * the embedded video entries, the partial updates the edit routes apply, and
 * the invariant the collection keeps (unique emails, consistent ids).
 */
module Accounts {
  import opened Wrappers
  import opened Lists

  /** A document's `_id`. Ids are handed out in increasing order, so ascending id is insertion order. */
  type Id = nat

  /**
   * The `role` path. The schema's enum is superAdmin, trainer and student;
   * `Other` is any other string, which only an update (which runs no
   * validators) can store. Each stored string has exactly one role value.
   */
  datatype Role = SuperAdmin | Trainer | Student | Other(name: OtherName)

  const RoleEnum: seq<string> := ["superAdmin", "trainer", "student"]

  /** A role string outside the schema's enum. */
  type OtherName = s: string | s !in RoleEnum witness ""

  /** The schema's default for `role`. */
  const DefaultRole: Role := Student

  function RoleName(r: Role): (s: string)
    ensures !r.Other? <==> s in RoleEnum
  {
    match r
    case SuperAdmin => "superAdmin"
    case Trainer => "trainer"
    case Student => "student"
    case Other(name) => name
  }

  /** A role as a string on the wire or in the browser's storage. */
  function ParseRole(s: string): (r: Role)
    ensures r.Other? <==> s !in RoleEnum
    ensures r.Other? ==> r.name == s
  {
    if s == "superAdmin" then SuperAdmin
    else if s == "trainer" then Trainer
    else if s == "student" then Student
    else Other(s)
  }

  /** Names and roles correspond one to one. */
  lemma RoleRoundTrip(r: Role, s: string)
    ensures ParseRole(RoleName(r)) == r
    ensures RoleName(ParseRole(s)) == s
  {
  }

  /** Two roles with the same spelling are the same role, as the source compares role strings. */
  lemma {:induction false} RoleNameInjective(r1: Role, r2: Role)
    ensures RoleName(r1) == RoleName(r2) <==> r1 == r2
  {
    RoleRoundTrip(r1, "");
    RoleRoundTrip(r2, "");
  }

  /** The schema's enum validator, which `save()` runs. */
  predicate InEnum(r: Role) {
    !r.Other?
  }

  /** An entry of a student's `videos`; `uploadedAt` defaults to the time the entry is created. */
  datatype Video = Video(title: Option<string>, url: string, uploadedAt: nat)

  /**
   * A stored document. `password` is absent only in a document sent with
   * `.select('-password')`; array paths default to `[]`; `Option` fields are
   * the paths a document may lack.
   */
  datatype User = User(
    id: Id,
    name: string,
    email: string,
    password: Option<string>,
    role: Role,
    profilePic: string,
    course: Option<string>,
    salary: Option<string>,
    contactNumber: Option<string>,
    age: Option<int>,
    parentName: Option<string>,
    parentOccupation: Option<string>,
    fee: Option<string>,
    coach: Option<string>,
    documents: seq<string>,
    mobile: Option<string>,
    alternateMobile: Option<string>,
    dateOfJoin: Option<string>,
    videos: seq<Video>)

  /**
   * The validators `save()` runs: `required` on name, email and password
   * (a required string must be non-empty) and the enum on role.
   */
  predicate Saveable(u: User)
    ensures Saveable(u) ==> u.role in {SuperAdmin, Trainer, Student}
  {
    u.name != "" && u.email != "" && u.password.Some? && u.password.value != "" && InEnum(u.role)
  }

  /** The document as `.select('-password')` sends it. */
  function WithoutPassword(u: User): (v: User)
    ensures v.password.None?
    ensures v.(password := u.password) == u
  {
    u.(password := None)
  }

  ghost predicate IdsConsistent(users: map<Id, User>) {
    forall i :: i in users ==> users[i].id == i
  }

  /** The `unique` index on email: no two documents share an address, whatever their roles. */
  ghost predicate EmailsUnique(users: map<Id, User>) {
    forall i, j :: i in users && j in users && users[i].email == users[j].email ==> i == j
  }

  /** The invariant of the collection, with `nextId` the next id to hand out. */
  ghost predicate StoreInvariant(users: map<Id, User>, nextId: Id) {
    && IdsConsistent(users)
    && (forall i :: i in users ==> i < nextId)
    && EmailsUnique(users)
    && (forall i :: i in users ==> users[i].password.Some?)
  }

  /** The documents with an id below `n`, in ascending id order: the collection's natural order. */
  function Collection(users: map<Id, User>, n: nat): seq<User>
    decreases n
  {
    if n == 0 then [] else Collection(users, n - 1) + (if n - 1 in users then [users[n - 1]] else [])
  }

  /** Collection lists exactly the documents below `n`, each once, in ascending id order. */
  lemma {:induction false} CollectionMembers(users: map<Id, User>, n: nat)
    requires IdsConsistent(users)
    ensures forall k :: 0 <= k < |Collection(users, n)| ==>
      var u := Collection(users, n)[k]; u.id in users && u.id < n && users[u.id] == u
    ensures forall i :: i in users && i < n ==> users[i] in Collection(users, n)
    ensures forall a, b :: 0 <= a < b < |Collection(users, n)| ==> Collection(users, n)[a].id < Collection(users, n)[b].id
    decreases n
  {
    if n > 0 {
      CollectionMembers(users, n - 1);
    }
  }

  /** A query's result: the documents of the collection satisfying the filter, in natural order. */
  function Query(users: map<Id, User>, nextId: Id, p: User -> bool): (r: seq<User>)
    ensures forall k :: 0 <= k < |r| ==> p(r[k])
  {
    Filter(Collection(users, nextId), p)
  }

  /** What a query returns is exactly the stored documents that satisfy its filter. */
  lemma QueryMembers(users: map<Id, User>, nextId: Id, p: User -> bool)
    requires StoreInvariant(users, nextId)
    ensures forall u :: u in Query(users, nextId, p) <==> u.id in users && users[u.id] == u && p(u)
  {
    CollectionMembers(users, nextId);
    var c := Collection(users, nextId);
    forall u: User | u.id in users && users[u.id] == u && p(u)
      ensures u in Query(users, nextId, p)
    {
      var k :| 0 <= k < |c| && c[k] == u;
    }
  }

  /** `findOne(filter)`: the first matching document in natural order. */
  function FindOne(users: map<Id, User>, nextId: Id, p: User -> bool): (r: Option<User>)
    ensures r.Some? ==> p(r.value)
  {
    First(Collection(users, nextId), p)
  }

  /** `findOne` finds a document exactly when one matches, and only a stored, matching one. */
  lemma FindOneSpec(users: map<Id, User>, nextId: Id, p: User -> bool)
    requires StoreInvariant(users, nextId)
    ensures FindOne(users, nextId, p).Some? ==>
      var u := FindOne(users, nextId, p).value; u.id in users && users[u.id] == u && p(u)
    ensures FindOne(users, nextId, p).None? <==> forall i :: i in users ==> !p(users[i])
  {
    CollectionMembers(users, nextId);
    var c := Collection(users, nextId);
    if FindOne(users, nextId, p).None? {
      forall i | i in users ensures !p(users[i]) {
        var k :| 0 <= k < |c| && c[k] == users[i];
      }
    }
  }

  /**
   * Whether `{ email }` matches a document. Mongoose drops a key whose value
   * is `undefined` from the filter, so an absent email matches every document.
   */
  predicate EmailMatches(email: Option<string>, u: User) {
    email.None? || email == Some(u.email)
  }

  /** The filter of `findOne({ email })`. */
  function HasEmail(email: Option<string>): User -> bool {
    (u: User) => EmailMatches(email, u)
  }

  /**
   * A partial update: the body of an edit request, each path present or
   * absent. `_id` is not among them and stays as it was.
   */
  datatype Patch = Patch(
    name: Option<string>,
    email: Option<string>,
    password: Option<string>,
    role: Option<Role>,
    profilePic: Option<string>,
    course: Option<string>,
    salary: Option<string>,
    contactNumber: Option<string>,
    age: Option<int>,
    parentName: Option<string>,
    parentOccupation: Option<string>,
    fee: Option<string>,
    coach: Option<string>,
    documents: Option<seq<string>>,
    mobile: Option<string>,
    alternateMobile: Option<string>,
    dateOfJoin: Option<string>,
    videos: Option<seq<Video>>)

  const NoChanges: Patch := Patch(None, None, None, None, None, None, None, None, None,
                                  None, None, None, None, None, None, None, None, None)

  function Override<T>(given: Option<T>, current: Option<T>): Option<T> {
    if given.Some? then given else current
  }

  /** `findByIdAndUpdate(id, updates)` on one document: every path present in the update is replaced. */
  function ApplyPatch(u: User, p: Patch): (v: User)
    ensures v.id == u.id
    ensures p.role.Some? ==> v.role == p.role.value
    ensures p.email.None? ==> v.email == u.email
  {
    User(
      u.id,
      p.name.GetOr(u.name),
      p.email.GetOr(u.email),
      Override(p.password, u.password),
      p.role.GetOr(u.role),
      p.profilePic.GetOr(u.profilePic),
      Override(p.course, u.course),
      Override(p.salary, u.salary),
      Override(p.contactNumber, u.contactNumber),
      Override(p.age, u.age),
      Override(p.parentName, u.parentName),
      Override(p.parentOccupation, u.parentOccupation),
      Override(p.fee, u.fee),
      Override(p.coach, u.coach),
      p.documents.GetOr(u.documents),
      Override(p.mobile, u.mobile),
      Override(p.alternateMobile, u.alternateMobile),
      Override(p.dateOfJoin, u.dateOfJoin),
      p.videos.GetOr(u.videos))
  }

  /**
   * The patch that carries every path of record `v` that it has: applying it
   * to a record with the same id and the same absent paths gives `v` back.
   */
  function PatchOf(v: User): Patch {
    Patch(Some(v.name), Some(v.email), v.password, Some(v.role), Some(v.profilePic),
          v.course, v.salary, v.contactNumber, v.age, v.parentName, v.parentOccupation,
          v.fee, v.coach, Some(v.documents), v.mobile, v.alternateMobile, v.dateOfJoin, Some(v.videos))
  }

  /** Two records lack the same optional paths. */
  predicate SameAbsentPaths(u: User, v: User) {
    && (v.password.None? ==> u.password.None?)
    && (v.course.None? ==> u.course.None?)
    && (v.salary.None? ==> u.salary.None?)
    && (v.contactNumber.None? ==> u.contactNumber.None?)
    && (v.age.None? ==> u.age.None?)
    && (v.parentName.None? ==> u.parentName.None?)
    && (v.parentOccupation.None? ==> u.parentOccupation.None?)
    && (v.fee.None? ==> u.fee.None?)
    && (v.coach.None? ==> u.coach.None?)
    && (v.mobile.None? ==> u.mobile.None?)
    && (v.alternateMobile.None? ==> u.alternateMobile.None?)
    && (v.dateOfJoin.None? ==> u.dateOfJoin.None?)
  }

  /** An update copies its paths verbatim: the full patch of `v` turns `u` into `v`. */
  lemma ApplyPatchOf(u: User, v: User)
    requires u.id == v.id && SameAbsentPaths(u, v)
    ensures ApplyPatch(u, PatchOf(v)) == v
  {
  }

  /** An empty update changes nothing, and applying an update twice is applying it once. */
  lemma ApplyPatchLaws(u: User, p: Patch)
    ensures ApplyPatch(u, NoChanges) == u
    ensures ApplyPatch(ApplyPatch(u, p), p) == ApplyPatch(u, p)
    ensures ApplyPatch(u, p).id == u.id
  {
  }
}
