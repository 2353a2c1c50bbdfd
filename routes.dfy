/**
 * The account routes mounted under `/api/auth`. `Server` holds the user
 * collection (with the next free id) and the set of file paths the upload
 * middleware has written. Every route is a method taking the outcome of the
 * auth middleware, the request's fields and, for the multipart routes, its
 * file parts; it returns the HTTP reply, or `NoReply` where a route without a
 * `try`/`catch` rejects and the request is left hanging.
 *
 * Middleware order is kept: auth first (except login and super-admin
 * registration), then the upload middleware, which writes its files before
 * the handler's role check runs.
 */
module Routes {
  import opened Wrappers
  import opened Text
  import opened Lists
  import opened Accounts
  import opened Credentials
  import opened Upload

  /** What the auth middleware attaches as `req.user`, or its refusal. */
  datatype Auth = Rejected | Identity(id: Id, role: Role, email: Option<string>)

  /** `{ _id, name }`, the projection the trainer-name list returns. */
  datatype NameEntry = NameEntry(id: Id, name: string)

  datatype Body =
    | Message(text: string)
    | Unauthorized                        // the auth middleware's refusal
    | UploadFailure                       // Express's default handler for a multer error
    | Session(token: Token, user: User)
    | Documents(users: seq<User>)
    | TrainerNames(entries: seq<NameEntry>)
    | Profile(profile: Option<User>)
    | TrainerUpdated(trainer: Option<User>)

  datatype Response = Reply(status: nat, body: Body) | NoReply

  /** Text fields of a registration request; an absent field is `None`. */
  datatype AccountForm = AccountForm(name: Option<string>, email: Option<string>, password: Option<string>)

  datatype TrainerForm = TrainerForm(
    name: Option<string>, email: Option<string>, password: Option<string>,
    course: Option<string>, salary: Option<string>, contactNumber: Option<string>, dateOfJoin: Option<string>)

  datatype StudentForm = StudentForm(
    name: Option<string>, email: Option<string>, password: Option<string>, age: Option<int>,
    course: Option<string>, parentName: Option<string>, parentOccupation: Option<string>,
    fee: Option<string>, coach: Option<string>, mobile: Option<string>,
    alternateMobile: Option<string>, dateOfJoin: Option<string>)

  datatype LoginForm = LoginForm(email: Option<string>, password: Option<string>)

  datatype VideoForm = VideoForm(email: Option<string>, title: Option<string>)

  datatype DeleteVideoForm = DeleteVideoForm(email: Option<string>, url: Option<string>)

  const ProfilePicField: string := "profilePic"
  const DocumentsField: string := "documents"
  const VideoField: string := "video"

  /** `fields([{ name: 'profilePic', maxCount: 1 }, { name: 'documents', maxCount: 5 }])` */
  const StudentUploadFields: Allowance := map[ProfilePicField := 1, DocumentsField := 5]

  /** The paths the upload middleware wrote for one request. */
  function Paths(stored: seq<StoredFile>): (ps: set<string>)
    ensures forall k :: 0 <= k < |stored| ==> stored[k].Path() in ps
    ensures forall q :: q in ps <==> exists k :: 0 <= k < |stored| && stored[k].Path() == q
  {
    set k | 0 <= k < |stored| :: stored[k].Path()
  }

  /** `req.file` of a `.single` middleware. */
  function SingleFile(stored: seq<StoredFile>): Option<StoredFile> {
    if stored == [] then None else Some(stored[0])
  }

  /** `req.files[field]`: the stored files of one field, in arrival order. */
  function FieldFiles(stored: seq<StoredFile>, field: string): seq<StoredFile> {
    Filter(stored, (f: StoredFile) => f.fieldname == field)
  }

  /** The `profilePic` path super-admin and trainer registrations store: the public URL, or empty. */
  function PublicPicture(file: Option<StoredFile>): (pic: string)
    ensures file.Some? ==> pic == "/uploads/" + file.value.filename
    ensures file.None? ==> pic == ""
  {
    if file.Some? then "/uploads/" + file.value.filename else ""
  }

  /** The `profilePic` a student registration stores: the bare generated name, or empty. */
  function StudentPicture(stored: seq<StoredFile>): (pic: string)
    ensures FieldFiles(stored, ProfilePicField) != [] ==> pic == FieldFiles(stored, ProfilePicField)[0].filename
    ensures FieldFiles(stored, ProfilePicField) == [] ==> pic == ""
    ensures pic == "" || exists k :: 0 <= k < |stored| && stored[k].fieldname == ProfilePicField && stored[k].filename == pic
  {
    var pics := FieldFiles(stored, ProfilePicField);
    if pics == [] then "" else pics[0].filename
  }

  /** `req.files.documents.map(doc => doc.filename)`, undefined when no document was stored. */
  function DocumentNames(stored: seq<StoredFile>): (names: Option<seq<string>>)
    ensures names.None? <==> FieldFiles(stored, DocumentsField) == []
    ensures names.Some? ==> |names.value| == |FieldFiles(stored, DocumentsField)|
    ensures names.Some? ==> forall k :: 0 <= k < |names.value| ==> names.value[k] == FieldFiles(stored, DocumentsField)[k].filename
  {
    var docs := FieldFiles(stored, DocumentsField);
    if docs == [] then None else Some(Map(docs, (f: StoredFile) => f.filename))
  }

  /**
   * The picture a student registration stores is never taken for a public
   * path: it is empty or a generated name, which starts with a digit.
   */
  lemma StudentPictureBare(parts: seq<FilePart>)
    requires Run(ImageUpload, StudentUploadFields, parts).Success?
    ensures !StartsWith(StudentPicture(Run(ImageUpload, StudentUploadFields, parts).value), "/uploads/")
  {
    ReceiveAccepts(ImageUpload, StudentUploadFields, parts, 0);
    AcceptedNamesLeadWithDigit(ImageUpload, parts);
    PictureLeadsWithDigit(Accepted(ImageUpload, parts));
  }

  lemma PictureLeadsWithDigit(stored: seq<StoredFile>)
    requires forall k :: 0 <= k < |stored| ==> |stored[k].filename| > 0 && IsDigit(stored[k].filename[0])
    ensures !StartsWith(StudentPicture(stored), "/uploads/")
  {
    var pic := StudentPicture(stored);
    if pic != "" {
      var k :| 0 <= k < |stored| && stored[k].fieldname == ProfilePicField && stored[k].filename == pic;
      assert IsDigit(pic[0]);
      if |pic| >= 9 {
        assert pic[..9][0] == pic[0];
      }
    }
  }

  /** A fresh document with the schema's defaults for every path the route does not set. */
  function NewUser(id: Id, name: string, email: string, hash: string, role: Role, pic: string): User {
    User(id, name, email, Some(hash), role, pic, None, None, None, None, None, None, None, None, [], None, None, None, [])
  }

  function TrainerRecord(id: Id, f: TrainerForm, hash: string, pic: string): User
    requires f.name.Some? && f.email.Some?
  {
    NewUser(id, f.name.value, f.email.value, hash, Trainer, pic)
      .(course := f.course, salary := f.salary, contactNumber := f.contactNumber, dateOfJoin := f.dateOfJoin)
  }

  function StudentRecord(id: Id, f: StudentForm, hash: string, pic: string, documents: seq<string>): User
    requires f.name.Some? && f.email.Some?
  {
    NewUser(id, f.name.value, f.email.value, hash, Student, pic)
      .(age := f.age, course := f.course, parentName := f.parentName, parentOccupation := f.parentOccupation,
        mobile := f.mobile, alternateMobile := f.alternateMobile, dateOfJoin := f.dateOfJoin,
        fee := f.fee, coach := f.coach, documents := documents)
  }

  /** The `required` validators on the text paths of a new document. */
  predicate RequiredGiven(name: Option<string>, email: Option<string>) {
    Truthy(name) && Truthy(email)
  }

  /** The trainer edit's update: a non-empty password is hashed, any other value is stored as sent. */
  function TrainerUpdates(body: Patch): (u: Patch)
    ensures u.(password := body.password) == body
    ensures u.password != body.password ==> body.password.Some? && u.password == Some(Hash(body.password.value))
    ensures u.password == Some("") <==> body.password == Some("")
  {
    if Truthy(body.password) then body.(password := Some(Hash(body.password.value))) else body
  }

  /** The student edit's update: a non-empty password is hashed, an empty or absent one is dropped. */
  function StudentUpdates(body: Patch): (u: Patch)
    ensures u.(password := body.password) == body
    ensures u.password.Some? ==> body.password.Some? && u.password == Some(Hash(body.password.value))
    ensures u.password != Some("")
  {
    if Truthy(body.password) then body.(password := Some(Hash(body.password.value))) else body.(password := None)
  }

  /**
   * After a student edit the new password logs in and nothing else does; an
   * edit without one leaves the stored hash, so exactly the old password works.
   */
  lemma {:induction false} StudentEditPassword(u: User, body: Patch, q: string)
    requires u.password.Some?
    ensures var v := ApplyPatch(u, StudentUpdates(body));
      v.password.Some? &&
      (Truthy(body.password) ==> (Verify(q, v.password.value) <==> q == body.password.value)) &&
      (!Truthy(body.password) ==> v.password == u.password)
  {
    if Truthy(body.password) {
      VerifyExactly(body.password.value, q);
    }
  }

  /**
   * The trainer edit hashes only a non-empty password; an empty one is stored
   * as the empty string, after which no password logs in to that record.
   */
  lemma {:induction false} TrainerEditPassword(u: User, body: Patch, q: string)
    ensures var v := ApplyPatch(u, TrainerUpdates(body));
      (Truthy(body.password) ==> v.password.Some? && (Verify(q, v.password.value) <==> q == body.password.value)) &&
      (body.password == Some("") ==> v.password == Some("") && !Verify(q, v.password.value)) &&
      (body.password.None? ==> v.password == u.password)
  {
    if Truthy(body.password) {
      VerifyExactly(body.password.value, q);
    }
    HashNotPlain(q, q);
  }

  /** Everything but the password passes through both edits verbatim, `role` included. */
  lemma EditCopiesFields(u: User, body: Patch)
    ensures ApplyPatch(u, TrainerUpdates(body)).(password := u.password) == ApplyPatch(u, body).(password := u.password)
    ensures ApplyPatch(u, StudentUpdates(body)).(password := u.password) == ApplyPatch(u, body).(password := u.password)
    ensures body.role.Some? ==> ApplyPatch(u, StudentUpdates(body)).role == body.role.value
  {
  }

  /** The filter of `find({ role: 'student', course })`. */
  function InCourse(course: Option<string>): User -> bool {
    (u: User) => u.role == Student && course == u.course
  }

  /** The filter of `find({ role: 'trainer' })`. */
  function HasRole(role: Role): User -> bool {
    (u: User) => u.role == role
  }

  /** A student that `{ email, role: 'student' }` matches; an absent email is dropped from the filter. */
  predicate IsStudentWithEmail(u: User, email: Option<string>) {
    u.role == Student && EmailMatches(email, u)
  }

  /** The filter of `findOne({ email, role: 'student' })`. */
  function StudentWithEmail(email: Option<string>): User -> bool {
    (u: User) => IsStudentWithEmail(u, email)
  }

  /** `findOne({ email })` finds nothing: no stored document has this email, or, for an absent email, the store is empty. */
  ghost predicate EmailFree(users: map<Id, User>, email: Option<string>) {
    forall i :: i in users ==> !EmailMatches(email, users[i])
  }

  /** Another document than `id` already has `email`: the unique index refuses the update. */
  predicate EmailClash(users: map<Id, User>, id: Id, email: string) {
    exists j :: j in users && j != id && users[j].email == email
  }

  function NameEntryOf(u: User): NameEntry {
    NameEntry(u.id, u.name)
  }

  /** The key `delete-video` looks the student up by: the body's email, or the caller's. */
  function DeleteKey(form: DeleteVideoForm, auth: Auth): Option<string>
    requires auth.Identity?
  {
    if Truthy(form.email) then form.email else auth.email
  }

  /** The students a trainer's course query returns: exactly the stored students of that course. */
  lemma CourseStudents(users: map<Id, User>, nextId: Id, course: string)
    requires StoreInvariant(users, nextId)
    ensures forall u :: u in Query(users, nextId, InCourse(Some(course))) <==>
      u.id in users && users[u.id] == u && u.role == Student && u.course == Some(course)
  {
    QueryMembers(users, nextId, InCourse(Some(course)));
  }

  /**
   * None is found exactly when no stored student matches; what is found is a
   * stored, matching student, and for a given email the only one. Without an
   * email every student matches.
   */
  lemma StudentLookup(users: map<Id, User>, nextId: Id, email: Option<string>)
    requires StoreInvariant(users, nextId)
    ensures var found := FindOne(users, nextId, StudentWithEmail(email));
      && (found.None? <==> forall i :: i in users ==> !IsStudentWithEmail(users[i], email))
      && (found.Some? ==>
            && found.value.id in users && users[found.value.id] == found.value
            && IsStudentWithEmail(found.value, email)
            && (email.Some? ==> forall i :: i in users && IsStudentWithEmail(users[i], email) ==> i == found.value.id))
      && (email.None? ==> forall i :: i in users ==> (IsStudentWithEmail(users[i], email) <==> users[i].role == Student))
  {
    FindOneSpec(users, nextId, StudentWithEmail(email));
  }

  /** The reply of the course query: every stored student of the course, each without its password, and nothing else. */
  lemma CourseDocuments(users: map<Id, User>, nextId: Id, course: string)
    requires StoreInvariant(users, nextId)
    ensures var docs := Map(Query(users, nextId, InCourse(Some(course))), WithoutPassword);
      && (forall k :: 0 <= k < |docs| ==>
            var d := docs[k];
            d.password.None? && d.id in users && users[d.id] == d.(password := users[d.id].password)
            && d.role == Student && d.course == Some(course))
      && (forall i :: i in users && users[i].role == Student && users[i].course == Some(course) ==>
            WithoutPassword(users[i]) in docs)
  {
    var students := Query(users, nextId, InCourse(Some(course)));
    CourseStudents(users, nextId, course);
    var docs := Map(students, WithoutPassword);
    forall i | i in users && users[i].role == Student && users[i].course == Some(course)
      ensures WithoutPassword(users[i]) in docs
    {
      var k :| 0 <= k < |students| && students[k] == users[i];
      assert docs[k] == WithoutPassword(users[i]);
    }
  }

  /** The reply of the trainer query: the id and name of every stored trainer, and nothing else. */
  lemma TrainerEntries(users: map<Id, User>, nextId: Id)
    requires StoreInvariant(users, nextId)
    ensures var entries := Map(Query(users, nextId, HasRole(Trainer)), NameEntryOf);
      && (forall k :: 0 <= k < |entries| ==>
            var e := entries[k]; e.id in users && users[e.id].role == Trainer && users[e.id].name == e.name)
      && (forall i :: i in users && users[i].role == Trainer ==> NameEntry(i, users[i].name) in entries)
  {
    var trainers := Query(users, nextId, HasRole(Trainer));
    QueryMembers(users, nextId, HasRole(Trainer));
    var entries := Map(trainers, NameEntryOf);
    forall i | i in users && users[i].role == Trainer ensures NameEntry(i, users[i].name) in entries {
      var k :| 0 <= k < |trainers| && trainers[k] == users[i];
      assert entries[k] == NameEntry(i, users[i].name);
    }
  }

  /** `videos.filter(video => video.url !== url)`; an absent url differs from every stored one. */
  function RemoveVideos(videos: seq<Video>, url: Option<string>): (kept: seq<Video>)
    ensures forall k :: 0 <= k < |kept| ==> kept[k] in videos && Some(kept[k].url) != url
    ensures forall k :: 0 <= k < |videos| && Some(videos[k].url) != url ==> videos[k] in kept
  {
    Filter(videos, (v: Video) => Some(v.url) != url)
  }

  /** The entry `upload-video` appends. */
  function UploadedVideo(title: Option<string>, filename: string, now: nat): Video {
    Video(title, "/uploads/videos/" + filename, now)
  }

  /**
   * Deleting by the url just uploaded undoes the upload when no earlier entry
   * had that url; entries with other urls are untouched by either step.
   */
  lemma {:induction false} DeleteUndoesUpload(videos: seq<Video>, v: Video)
    requires forall k :: 0 <= k < |videos| ==> videos[k].url != v.url
    ensures RemoveVideos(videos + [v], Some(v.url)) == videos
  {
    var p := (w: Video) => Some(w.url) != Some(v.url);
    FilterSnoc(videos, v, p);
    FilterKeepsAll(videos, p);
  }

  /** A url no entry has removes nothing: the route still saves and replies 200. */
  lemma {:induction false} RemoveVideosNoMatch(videos: seq<Video>, url: Option<string>)
    requires forall k :: 0 <= k < |videos| ==> Some(videos[k].url) != url
    ensures RemoveVideos(videos, url) == videos
  {
    FilterKeepsAll(videos, (w: Video) => Some(w.url) != url);
  }

  /** Removing by url twice removes nothing more. */
  lemma {:induction false} RemoveVideosIdempotent(videos: seq<Video>, url: Option<string>)
    ensures RemoveVideos(RemoveVideos(videos, url), url) == RemoveVideos(videos, url)
  {
    var p := (w: Video) => Some(w.url) != url;
    FilterKeepsAll(Filter(videos, p), p);
  }

  /**
   * A student registration with a picture and five documents carries six
   * files, one more than the image pipeline's limit, so it fails before the
   * handler runs.
   */
  lemma {:induction false} SixImagesRejected(parts: seq<FilePart>)
    requires |parts| > ImageMaxFiles
    ensures Run(ImageUpload, StudentUploadFields, parts).Failure?
  {
    ReceiveWithinFileLimit(ImageUpload, StudentUploadFields, parts, 0);
  }

  /** `.single(field)` leaves at most one file, the one `req.file` names. */
  lemma {:induction false} SingleStoresOne(cfg: Config, field: string, parts: seq<FilePart>)
    ensures Run(cfg, Single(field), parts).Success? ==>
      var stored := Run(cfg, Single(field), parts).value;
      |stored| <= 1 && forall k :: 0 <= k < |stored| ==> stored[k].fieldname == field
  {
    var r := Run(cfg, Single(field), parts);
    if r.Success? {
      var stored := r.value;
      forall k | 0 <= k < |stored| ensures stored[k].fieldname == field {
        ReceiveWithinAllowance(cfg, Single(field), parts, 0, stored[k].fieldname);
        CountPositive(stored, k);
      }
      ReceiveWithinAllowance(cfg, Single(field), parts, 0, field);
      CountAll(stored, field);
    }
  }

  lemma {:induction false} CountPositive(files: seq<StoredFile>, k: nat)
    requires k < |files|
    ensures CountField(files, files[k].fieldname) >= 1
  {
    if k > 0 {
      CountPositive(files[1..], k - 1);
    }
  }

  lemma {:induction false} CountAll(files: seq<StoredFile>, field: string)
    requires forall k :: 0 <= k < |files| ==> files[k].fieldname == field
    ensures CountField(files, field) == |files|
  {
    if files != [] {
      CountAll(files[1..], field);
    }
  }

  class Server {
    /** The users collection by `_id`. */
    var users: map<Id, User>
    /** The id the next inserted document receives. */
    var nextId: Id
    /** The paths of the files the upload middleware has written. */
    var files: set<string>

    ghost predicate Valid()
      reads this
    {
      StoreInvariant(users, nextId)
    }

    constructor ()
      ensures Valid() && users == map[] && nextId == 0 && files == {}
    {
      users := map[];
      nextId := 0;
      files := {};
    }

    /** Runs an upload middleware: on success its files are on disk, on error none are. */
    method Accept(cfg: Config, allowance: Allowance, parts: seq<FilePart>) returns (up: Result<seq<StoredFile>, UploadError>)
      modifies this`files
      ensures up == Run(cfg, allowance, parts)
      ensures files == old(files) + (if up.Success? then Paths(up.value) else {})
    {
      up := Run(cfg, allowance, parts);
      if up.Success? {
        files := files + Paths(up.value);
      }
    }

    /** `insert` of a document whose email no stored document has. */
    method Insert(u: User)
      requires Valid() && u.id == nextId && u.password.Some?
      requires forall i :: i in users ==> users[i].email != u.email
      modifies this`users, this`nextId
      ensures Valid()
      ensures users == old(users)[old(nextId) := u] && nextId == old(nextId) + 1
    {
      users := users[nextId := u];
      nextId := nextId + 1;
    }

    /** Saving a stored document again, with its email kept unique. */
    method Replace(v: User)
      requires Valid() && v.id in users && v.password.Some?
      requires forall i :: i in users && i != v.id ==> users[i].email != v.email
      modifies this`users
      ensures Valid()
      ensures users == old(users)[v.id := v]
    {
      users := users[v.id := v];
    }

    /** POST /register-superadmin */
    method RegisterSuperAdmin(form: AccountForm, parts: seq<FilePart>) returns (r: Response)
      requires Valid()
      modifies this
      ensures Valid()
      ensures var up := Run(ImageUpload, Single(ProfilePicField), parts);
        && (up.Failure? ==> r == Reply(500, UploadFailure) && files == old(files))
        && (up.Success? ==> files == old(files) + Paths(up.value))
        && (up.Success? && !EmailFree(old(users), form.email) ==> r == Reply(400, Message("Email already used")))
        && (r == Reply(201, Message("Super Admin registered")) <==>
              up.Success? && EmailFree(old(users), form.email)
              && RequiredGiven(form.name, form.email) && form.password.Some?)
        && (r == Reply(201, Message("Super Admin registered")) ==>
              users == old(users)[old(nextId) := NewUser(old(nextId), form.name.value, form.email.value,
                                      Hash(form.password.value), SuperAdmin, PublicPicture(SingleFile(up.value)))]
              && nextId == old(nextId) + 1)
        && (r != Reply(201, Message("Super Admin registered")) ==> users == old(users) && nextId == old(nextId))
        && (up.Success? && r != Reply(201, Message("Super Admin registered")) && r != Reply(400, Message("Email already used")) ==>
              r == Reply(500, Message("Server error")))
    {
      var up := Accept(ImageUpload, Single(ProfilePicField), parts);
      if up.Failure? {
        return Reply(500, UploadFailure);
      }
      FindOneSpec(users, nextId, HasEmail(form.email));
      if FindOne(users, nextId, HasEmail(form.email)).Some? {
        return Reply(400, Message("Email already used"));
      }
      if form.password.None? || !RequiredGiven(form.name, form.email) {
        // bcrypt rejects an absent password; save() rejects a missing or empty
        // name or email (the hash is never empty)
        return Reply(500, Message("Server error"));
      }
      Insert(NewUser(nextId, form.name.value, form.email.value, Hash(form.password.value),
                     SuperAdmin, PublicPicture(SingleFile(up.value))));
      r := Reply(201, Message("Super Admin registered"));
    }

    /** The login reply once `findOne` has found `u`: the password is checked against its hash. */
    ghost predicate LoginAs(u: User, password: Option<string>, r: Response)
      requires u.password.Some?
    {
      && (password.None? ==> r == Reply(500, Message("Login failed")))
      && (password.Some? && !Verify(password.value, u.password.value) ==> r == Reply(401, Message("Incorrect password")))
      && (password.Some? && Verify(password.value, u.password.value) ==> r == Reply(200, Session(Token(u.id, u.role), u)))
    }

    /** POST /login */
    method Login(form: LoginForm) returns (r: Response)
      requires Valid()
      ensures EmailFree(users, form.email) <==> r == Reply(404, Message("User not found"))
      ensures forall i :: i in users && Some(users[i].email) == form.email ==> LoginAs(users[i], form.password, r)
      ensures form.email.None? && users != map[] ==> exists i :: i in users && LoginAs(users[i], form.password, r)
    {
      FindOneSpec(users, nextId, HasEmail(form.email));
      var found := FindOne(users, nextId, HasEmail(form.email));
      if found.None? {
        return Reply(404, Message("User not found"));
      }
      var u := found.value;
      if form.password.None? {
        // bcrypt.compare throws on an absent password
        return Reply(500, Message("Login failed"));
      }
      if !Verify(form.password.value, u.password.value) {
        return Reply(401, Message("Incorrect password"));
      }
      r := Reply(200, Session(Sign(u.id, u.role), u));
    }

    /** POST /register-trainer */
    method RegisterTrainer(auth: Auth, form: TrainerForm, parts: seq<FilePart>) returns (r: Response)
      requires Valid()
      modifies this
      ensures Valid()
      ensures auth.Rejected? ==>
        r == Reply(401, Unauthorized) && users == old(users) && nextId == old(nextId) && files == old(files)
      ensures auth.Identity? ==> var up := Run(ImageUpload, Single(ProfilePicField), parts);
        && (up.Failure? ==> r == Reply(500, UploadFailure) && files == old(files))
        && (up.Success? ==> files == old(files) + Paths(up.value))
        && (up.Success? && auth.role != SuperAdmin ==> r == Reply(403, Message("Only Super Admins can add trainers.")))
        && (up.Success? && auth.role == SuperAdmin && !EmailFree(old(users), form.email) ==>
              r == Reply(400, Message("Email already exists")))
        && (r == Reply(201, Message("Trainer registered successfully")) <==>
              up.Success? && auth.role == SuperAdmin && EmailFree(old(users), form.email)
              && RequiredGiven(form.name, form.email) && form.password.Some?)
        && (r == Reply(201, Message("Trainer registered successfully")) ==>
              users == old(users)[old(nextId) := TrainerRecord(old(nextId), form, Hash(form.password.value),
                                                               PublicPicture(SingleFile(up.value)))]
              && nextId == old(nextId) + 1)
        && (r != Reply(201, Message("Trainer registered successfully")) ==> users == old(users) && nextId == old(nextId))
        && ((up.Success? && auth.role == SuperAdmin && EmailFree(old(users), form.email)
             && r != Reply(201, Message("Trainer registered successfully"))) ==> r == Reply(500, Message("Server error")))
    {
      if auth.Rejected? {
        return Reply(401, Unauthorized);
      }
      var up := Accept(ImageUpload, Single(ProfilePicField), parts);
      if up.Failure? {
        return Reply(500, UploadFailure);
      }
      if auth.role != SuperAdmin {
        return Reply(403, Message("Only Super Admins can add trainers."));
      }
      FindOneSpec(users, nextId, HasEmail(form.email));
      if FindOne(users, nextId, HasEmail(form.email)).Some? {
        return Reply(400, Message("Email already exists"));
      }
      if form.password.None? || !RequiredGiven(form.name, form.email) {
        return Reply(500, Message("Server error"));
      }
      Insert(TrainerRecord(nextId, form, Hash(form.password.value), PublicPicture(SingleFile(up.value))));
      r := Reply(201, Message("Trainer registered successfully"));
    }

    /** GET /trainers: every trainer's id and name, for any signed-in caller. */
    method Trainers(auth: Auth) returns (r: Response)
      requires Valid()
      ensures auth.Rejected? ==> r == Reply(401, Unauthorized)
      ensures auth.Identity? ==> r.Reply? && r.status == 200 && r.body.TrainerNames?
      ensures r.Reply? && r.body.TrainerNames? ==>
        && (forall k :: 0 <= k < |r.body.entries| ==>
              var e := r.body.entries[k]; e.id in users && users[e.id].role == Trainer && users[e.id].name == e.name)
        && (forall i :: i in users && users[i].role == Trainer ==> NameEntry(i, users[i].name) in r.body.entries)
    {
      if auth.Rejected? {
        return Reply(401, Unauthorized);
      }
      TrainerEntries(users, nextId);
      r := Reply(200, TrainerNames(Map(Query(users, nextId, HasRole(Trainer)), NameEntryOf)));
    }

    /** GET /all-trainers */
    method AllTrainers(auth: Auth) returns (r: Response)
      requires Valid()
      ensures auth.Rejected? ==> r == Reply(401, Unauthorized)
      ensures auth.Identity? && auth.role != SuperAdmin ==> r == Reply(403, Message("Unauthorized"))
      ensures auth.Identity? && auth.role == SuperAdmin ==>
        && r.Reply? && r.status == 200 && r.body.Documents?
        && forall u :: u in r.body.users <==> u.id in users && users[u.id] == u && u.role == Trainer
    {
      if auth.Rejected? {
        return Reply(401, Unauthorized);
      }
      if auth.role != SuperAdmin {
        return Reply(403, Message("Unauthorized"));
      }
      QueryMembers(users, nextId, HasRole(Trainer));
      r := Reply(200, Documents(Query(users, nextId, HasRole(Trainer))));
    }

    /** DELETE /trainer/:id, which deletes the document with that id whatever its role. */
    method DeleteTrainer(auth: Auth, id: Id) returns (r: Response)
      requires Valid()
      modifies this`users
      ensures Valid()
      ensures auth.Rejected? ==> r == Reply(401, Unauthorized) && users == old(users)
      ensures auth.Identity? && auth.role != SuperAdmin ==> r == Reply(403, Message("Unauthorized")) && users == old(users)
      ensures auth.Identity? && auth.role == SuperAdmin ==>
        r == Reply(200, Message("Trainer deleted successfully")) && users == old(users) - {id}
    {
      if auth.Rejected? {
        return Reply(401, Unauthorized);
      }
      if auth.role != SuperAdmin {
        return Reply(403, Message("Unauthorized"));
      }
      users := users - {id};
      r := Reply(200, Message("Trainer deleted successfully"));
    }

    /** PUT /trainer/:id, which updates the document with that id whatever its role. */
    method EditTrainer(auth: Auth, id: Id, body: Patch) returns (r: Response)
      requires Valid()
      modifies this`users
      ensures Valid()
      ensures !(auth.Identity? && auth.role == SuperAdmin) ==> users == old(users)
      ensures auth.Rejected? ==> r == Reply(401, Unauthorized)
      ensures auth.Identity? && auth.role != SuperAdmin ==> r == Reply(403, Message("Unauthorized"))
      ensures auth.Identity? && auth.role == SuperAdmin && id !in old(users) ==>
        r == Reply(200, TrainerUpdated(None)) && users == old(users)
      ensures auth.Identity? && auth.role == SuperAdmin && id in old(users) ==>
        var v := ApplyPatch(old(users)[id], TrainerUpdates(body));
        if EmailClash(old(users), id, v.email) then r == Reply(500, Message("Error updating trainer")) && users == old(users)
        else r == Reply(200, TrainerUpdated(Some(v))) && users == old(users)[id := v]
    {
      if auth.Rejected? {
        return Reply(401, Unauthorized);
      }
      if auth.role != SuperAdmin {
        return Reply(403, Message("Unauthorized"));
      }
      if id !in users {
        return Reply(200, TrainerUpdated(None));
      }
      var v := ApplyPatch(users[id], TrainerUpdates(body));
      if EmailClash(users, id, v.email) {
        return Reply(500, Message("Error updating trainer"));
      }
      users := users[id := v];
      r := Reply(200, TrainerUpdated(Some(v)));
    }

    /** POST /register-student */
    method RegisterStudent(auth: Auth, form: StudentForm, parts: seq<FilePart>) returns (r: Response)
      requires Valid()
      modifies this
      ensures Valid()
      ensures auth.Rejected? ==>
        r == Reply(401, Unauthorized) && users == old(users) && nextId == old(nextId) && files == old(files)
      ensures auth.Identity? ==> var up := Run(ImageUpload, StudentUploadFields, parts);
        && (up.Failure? ==> r == Reply(500, UploadFailure) && files == old(files))
        && (up.Success? ==> files == old(files) + Paths(up.value))
        && (up.Success? && auth.role != SuperAdmin ==> r == Reply(403, Message("Unauthorized")))
        && (up.Success? && auth.role == SuperAdmin && !EmailFree(old(users), form.email) ==>
              r == Reply(400, Message("Email already exists")))
        && (r == Reply(201, Message("Student registered successfully")) <==>
              up.Success? && auth.role == SuperAdmin && EmailFree(old(users), form.email)
              && RequiredGiven(form.name, form.email) && form.password.Some? && DocumentNames(up.value).Some?)
        && (r == Reply(201, Message("Student registered successfully")) ==>
              users == old(users)[old(nextId) := StudentRecord(old(nextId), form, Hash(form.password.value),
                                       StudentPicture(up.value), DocumentNames(up.value).value)]
              && nextId == old(nextId) + 1)
        && (r != Reply(201, Message("Student registered successfully")) ==> users == old(users) && nextId == old(nextId))
        && ((up.Success? && auth.role == SuperAdmin && EmailFree(old(users), form.email)
             && r != Reply(201, Message("Student registered successfully"))) ==>
              r == Reply(500, Message("Failed to register student")))
    {
      if auth.Rejected? {
        return Reply(401, Unauthorized);
      }
      var up := Accept(ImageUpload, StudentUploadFields, parts);
      if up.Failure? {
        return Reply(500, UploadFailure);
      }
      if auth.role != SuperAdmin {
        return Reply(403, Message("Unauthorized"));
      }
      FindOneSpec(users, nextId, HasEmail(form.email));
      if FindOne(users, nextId, HasEmail(form.email)).Some? {
        return Reply(400, Message("Email already exists"));
      }
      // in source order: the hash, the documents' names, then save()'s validators
      if form.password.None? || DocumentNames(up.value).None? || !RequiredGiven(form.name, form.email) {
        return Reply(500, Message("Failed to register student"));
      }
      Insert(StudentRecord(nextId, form, Hash(form.password.value), StudentPicture(up.value), DocumentNames(up.value).value));
      r := Reply(201, Message("Student registered successfully"));
    }

    /** GET /all-students */
    method AllStudents(auth: Auth) returns (r: Response)
      requires Valid()
      ensures auth.Rejected? ==> r == Reply(401, Unauthorized)
      ensures auth.Identity? && auth.role != SuperAdmin ==> r == Reply(403, Message("Unauthorized"))
      ensures auth.Identity? && auth.role == SuperAdmin ==>
        && r.Reply? && r.status == 200 && r.body.Documents?
        && forall u :: u in r.body.users <==> u.id in users && users[u.id] == u && u.role == Student
    {
      if auth.Rejected? {
        return Reply(401, Unauthorized);
      }
      if auth.role != SuperAdmin {
        return Reply(403, Message("Unauthorized"));
      }
      QueryMembers(users, nextId, HasRole(Student));
      r := Reply(200, Documents(Query(users, nextId, HasRole(Student))));
    }

    /** PUT /student/:id; a clash with the unique email index rejects the handler, which has no `catch`. */
    method EditStudent(auth: Auth, id: Id, body: Patch) returns (r: Response)
      requires Valid()
      modifies this`users
      ensures Valid()
      ensures !(auth.Identity? && auth.role == SuperAdmin) ==> users == old(users)
      ensures auth.Rejected? ==> r == Reply(401, Unauthorized)
      ensures auth.Identity? && auth.role != SuperAdmin ==> r == Reply(403, Message("Unauthorized"))
      ensures auth.Identity? && auth.role == SuperAdmin && id !in old(users) ==>
        r == Reply(200, Message("Student updated successfully")) && users == old(users)
      ensures auth.Identity? && auth.role == SuperAdmin && id in old(users) ==>
        var v := ApplyPatch(old(users)[id], StudentUpdates(body));
        if EmailClash(old(users), id, v.email) then r == NoReply && users == old(users)
        else r == Reply(200, Message("Student updated successfully")) && users == old(users)[id := v]
    {
      if auth.Rejected? {
        return Reply(401, Unauthorized);
      }
      if auth.role != SuperAdmin {
        return Reply(403, Message("Unauthorized"));
      }
      if id in users {
        var v := ApplyPatch(users[id], StudentUpdates(body));
        if EmailClash(users, id, v.email) {
          return NoReply;
        }
        users := users[id := v];
      }
      r := Reply(200, Message("Student updated successfully"));
    }

    /** DELETE /student/:id, which deletes the document with that id whatever its role. */
    method DeleteStudent(auth: Auth, id: Id) returns (r: Response)
      requires Valid()
      modifies this`users
      ensures Valid()
      ensures auth.Rejected? ==> r == Reply(401, Unauthorized) && users == old(users)
      ensures auth.Identity? && auth.role != SuperAdmin ==> r == Reply(403, Message("Unauthorized")) && users == old(users)
      ensures auth.Identity? && auth.role == SuperAdmin ==>
        r == Reply(200, Message("Student deleted successfully")) && users == old(users) - {id}
    {
      if auth.Rejected? {
        return Reply(401, Unauthorized);
      }
      if auth.role != SuperAdmin {
        return Reply(403, Message("Unauthorized"));
      }
      users := users - {id};
      r := Reply(200, Message("Student deleted successfully"));
    }

    /** GET /students-by-course: the students of the calling trainer's course, without passwords. */
    method StudentsByCourse(auth: Auth) returns (r: Response)
      requires Valid()
      ensures auth.Rejected? ==> r == Reply(401, Unauthorized)
      ensures auth.Identity? && auth.role != Trainer ==> r == Reply(403, Message("Only trainers can access this route"))
      ensures auth.Identity? && auth.role == Trainer && (auth.id !in users || !Truthy(users[auth.id].course)) ==>
        r == Reply(404, Message("Trainer or course not found"))
      ensures auth.Identity? && auth.role == Trainer && auth.id in users && Truthy(users[auth.id].course) ==>
        var course := users[auth.id].course;
        && r.Reply? && r.status == 200 && r.body.Documents?
        && (forall k :: 0 <= k < |r.body.users| ==>
              var d := r.body.users[k];
              d.password.None? && d.id in users && users[d.id] == d.(password := users[d.id].password)
              && d.role == Student && d.course == course)
        && (forall i :: i in users && users[i].role == Student && users[i].course == course ==>
              WithoutPassword(users[i]) in r.body.users)
    {
      if auth.Rejected? {
        return Reply(401, Unauthorized);
      }
      if auth.role != Trainer {
        return Reply(403, Message("Only trainers can access this route"));
      }
      if auth.id !in users || !Truthy(users[auth.id].course) {
        return Reply(404, Message("Trainer or course not found"));
      }
      var course := users[auth.id].course.value;
      CourseDocuments(users, nextId, course);
      r := Reply(200, Documents(Map(Query(users, nextId, InCourse(Some(course))), WithoutPassword)));
    }

    /**
     * POST /upload-video. The video is on disk before the role check; the
     * entry is appended to the student's `videos` and saved, so the save's
     * validators run over the whole student document.
     */
    method UploadVideo(auth: Auth, form: VideoForm, parts: seq<FilePart>, now: nat) returns (r: Response)
      requires Valid()
      modifies this`users, this`files
      ensures Valid()
      ensures nextId == old(nextId)
      ensures auth.Rejected? ==> r == Reply(401, Unauthorized) && users == old(users) && files == old(files)
      ensures auth.Identity? ==> var up := Run(VideoUpload, Single(VideoField), parts);
        && (up.Failure? ==> r == Reply(500, UploadFailure) && files == old(files) && users == old(users))
        && (up.Success? ==> files == old(files) + Paths(up.value))
        && (up.Success? && auth.role != Trainer ==>
              r == Reply(403, Message("Only trainers can upload videos")) && users == old(users))
        && (up.Success? && auth.role == Trainer && (forall i :: i in old(users) ==> !IsStudentWithEmail(old(users)[i], form.email)) ==>
              r == Reply(404, Message("Student not found")) && users == old(users))
        && (up.Success? && auth.role == Trainer && (exists i :: i in old(users) && IsStudentWithEmail(old(users)[i], form.email)) ==>
              exists i :: i in old(users) && IsStudentWithEmail(old(users)[i], form.email) &&
                var s := old(users)[i];
                if up.value == [] then r == Reply(500, Message("Upload failed")) && users == old(users)
                else
                  var v := s.(videos := s.videos + [UploadedVideo(form.title, up.value[0].filename, now)]);
                  if Saveable(v) then r == Reply(200, Message("Video uploaded successfully")) && users == old(users)[i := v]
                  else r == Reply(500, Message("Upload failed")) && users == old(users))
    {
      if auth.Rejected? {
        return Reply(401, Unauthorized);
      }
      var up := Accept(VideoUpload, Single(VideoField), parts);
      if up.Failure? {
        return Reply(500, UploadFailure);
      }
      if auth.role != Trainer {
        return Reply(403, Message("Only trainers can upload videos"));
      }
      StudentLookup(users, nextId, form.email);
      var found := FindOne(users, nextId, StudentWithEmail(form.email));
      if found.None? {
        return Reply(404, Message("Student not found"));
      }
      var s := found.value;
      if up.value == [] {
        // `req.file` is undefined
        return Reply(500, Message("Upload failed"));
      }
      var v := s.(videos := s.videos + [UploadedVideo(form.title, up.value[0].filename, now)]);
      if !Saveable(v) {
        return Reply(500, Message("Upload failed"));
      }
      Replace(v);
      r := Reply(200, Message("Video uploaded successfully"));
    }

    /**
     * DELETE /delete-video, open to every signed-in caller: the student is
     * found by the body's email or else the caller's, and every entry with the
     * given url is removed. A save the validators refuse rejects the handler.
     */
    method DeleteVideo(auth: Auth, form: DeleteVideoForm) returns (r: Response)
      requires Valid()
      modifies this`users
      ensures Valid()
      ensures auth.Rejected? ==> r == Reply(401, Unauthorized) && users == old(users)
      ensures auth.Identity? && (forall i :: i in old(users) ==> !IsStudentWithEmail(old(users)[i], DeleteKey(form, auth))) ==>
        r == Reply(404, Message("Student not found")) && users == old(users)
      ensures auth.Identity? && (exists i :: i in old(users) && IsStudentWithEmail(old(users)[i], DeleteKey(form, auth))) ==>
        exists i :: i in old(users) && IsStudentWithEmail(old(users)[i], DeleteKey(form, auth)) &&
          var s := old(users)[i];
          var v := s.(videos := RemoveVideos(s.videos, form.url));
          if Saveable(v) then r == Reply(200, Message("Video deleted successfully")) && users == old(users)[i := v]
          else r == NoReply && users == old(users)
    {
      if auth.Rejected? {
        return Reply(401, Unauthorized);
      }
      var key := DeleteKey(form, auth);
      StudentLookup(users, nextId, key);
      var found := FindOne(users, nextId, StudentWithEmail(key));
      if found.None? {
        return Reply(404, Message("Student not found"));
      }
      var s := found.value;
      var v := s.(videos := RemoveVideos(s.videos, form.url));
      if !Saveable(v) {
        return NoReply;
      }
      Replace(v);
      r := Reply(200, Message("Video deleted successfully"));
    }

    /** GET /me: the caller's own document without its password, or `null`. */
    method Me(auth: Auth) returns (r: Response)
      requires Valid()
      ensures auth.Rejected? ==> r == Reply(401, Unauthorized)
      ensures auth.Identity? ==>
        && r.Reply? && r.status == 200 && r.body.Profile?
        && (r.body.profile.Some? <==> auth.id in users)
        && (r.body.profile.Some? ==>
              && r.body.profile.value.password.None?
              && r.body.profile.value.(password := users[auth.id].password) == users[auth.id])
    {
      if auth.Rejected? {
        return Reply(401, Unauthorized);
      }
      if auth.id in users {
        r := Reply(200, Profile(Some(WithoutPassword(users[auth.id]))));
      } else {
        r := Reply(200, Profile(None));
      }
    }
  }
}
