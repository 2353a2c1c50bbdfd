/**
 * The two management pages, ManageStudents and ManageTrainers. They share
 * one shape: a fetched list, a search term, an edit session (`editId` with a
 * buffer holding a copy of the record) and delete-by-id. They differ in the
 * endpoints, the fields a card can edit, the search rule and the way a card
 * builds its picture URL.
 */
module ManagePanels {
  import opened Wrappers
  import opened Text
  import opened Lists
  import opened Accounts
  import Credentials
  import Upload
  import Routes

  datatype Kind = StudentsPage | TrainersPage

  /** The `name` attributes of a card's inputs. */
  datatype Field =
    | EmailField | PasswordField | CourseField | DateOfJoinField
    | FeeField | ParentNameField | ParentOccupationField | CoachField | MobileField | AlternateMobileField
    | SalaryField | ContactNumberField

  /** The inputs each page's cards show in edit mode (the student age input is `AgeChange`). */
  function Editable(kind: Kind): set<Field> {
    match kind
    case StudentsPage =>
      {EmailField, PasswordField, CourseField, FeeField, ParentNameField, ParentOccupationField,
       CoachField, MobileField, AlternateMobileField, DateOfJoinField}
    case TrainersPage => {EmailField, PasswordField, CourseField, SalaryField, ContactNumberField, DateOfJoinField}
  }

  /** One `onChange` event: a text input's new value, or the age input's number. */
  datatype Change = TextChange(field: Field, value: string) | AgeChange(age: Option<int>)

  /** The value a text input shows for a record. */
  function FieldValue(u: User, f: Field): Option<string> {
    match f
    case EmailField => Some(u.email)
    case PasswordField => u.password
    case CourseField => u.course
    case DateOfJoinField => u.dateOfJoin
    case FeeField => u.fee
    case ParentNameField => u.parentName
    case ParentOccupationField => u.parentOccupation
    case CoachField => u.coach
    case MobileField => u.mobile
    case AlternateMobileField => u.alternateMobile
    case SalaryField => u.salary
    case ContactNumberField => u.contactNumber
  }

  /** `{ ...prev, [name]: value }` */
  function Apply(u: User, c: Change): User {
    match c
    case AgeChange(age) => u.(age := age)
    case TextChange(f, v) =>
      match f
      case EmailField => u.(email := v)
      case PasswordField => u.(password := Some(v))
      case CourseField => u.(course := Some(v))
      case DateOfJoinField => u.(dateOfJoin := Some(v))
      case FeeField => u.(fee := Some(v))
      case ParentNameField => u.(parentName := Some(v))
      case ParentOccupationField => u.(parentOccupation := Some(v))
      case CoachField => u.(coach := Some(v))
      case MobileField => u.(mobile := Some(v))
      case AlternateMobileField => u.(alternateMobile := Some(v))
      case SalaryField => u.(salary := Some(v))
      case ContactNumberField => u.(contactNumber := Some(v))
  }

  /** A change sets the named field and leaves every other field, the id and the age alone. */
  lemma ApplyChangesOnlyNamed(u: User, f: Field, v: string, g: Field)
    ensures FieldValue(Apply(u, TextChange(f, v)), f) == Some(v)
    ensures g != f ==> FieldValue(Apply(u, TextChange(f, v)), g) == FieldValue(u, g)
    ensures Apply(u, TextChange(f, v)).id == u.id && Apply(u, TextChange(f, v)).age == u.age
    ensures Apply(u, TextChange(f, v)).(name := u.name).name == u.name
    ensures Apply(u, AgeChange(None)).(age := u.age) == u
  {
  }

  /** The buffer `handleEdit` fills: the record with its password cleared. */
  function EditCopy(u: User): (d: User)
    ensures d.id == u.id && d.password == Some("") && d.(password := u.password) == u
  {
    u.(password := Some(""))
  }

  /** `handleSave`'s payload: the buffer, without the password when it is empty. */
  function Payload(draft: User): (p: Patch)
    ensures p.password.Some? ==> p.password.value != ""
    ensures Truthy(draft.password) ==> p.password == draft.password
  {
    var full := PatchOf(draft);
    if Truthy(draft.password) then full else full.(password := None)
  }

  /**
   * The edit round trip, page to server: saving a buffer opened on the stored
   * record gives that record the buffer's values, with the new password
   * hashed if one was typed and the old hash kept otherwise, by both routes.
   */
  lemma {:induction false} SaveRoundTrip(stored: User, draft: User)
    requires draft.id == stored.id && SameAbsentPaths(stored, draft.(password := stored.password))
    ensures var want := draft.(password := if Truthy(draft.password) then Some(Credentials.Hash(draft.password.value)) else stored.password);
      ApplyPatch(stored, Routes.StudentUpdates(Payload(draft))) == want &&
      ApplyPatch(stored, Routes.TrainerUpdates(Payload(draft))) == want
  {
    var want := draft.(password := if Truthy(draft.password) then Some(Credentials.Hash(draft.password.value)) else stored.password);
    ApplyPatchOf(stored, want);
    assert PatchOf(want) == Routes.StudentUpdates(Payload(draft)).(password := want.password);
  }

  /** A page never sends an empty password, so the trainer route's empty-password case is not reached from it. */
  lemma PayloadNeverEmptiesPassword(stored: User, draft: User)
    requires stored.password.Some?
    ensures var v := ApplyPatch(stored, Routes.TrainerUpdates(Payload(draft)));
      v.password.Some? && (v.password.value == "" ==> stored.password == Some(""))
  {
  }

  /** `String(x).toLowerCase().includes(term.toLowerCase())` */
  predicate Mentions(x: string, term: string) {
    Contains(Lower(x), Lower(term))
  }

  /**
   * ManageStudents' test of one record, or `None` when it throws: `course` is
   * read with `.toLowerCase()` unguarded, which fails on a student without a
   * course whose name did not already match.
   */
  function StudentKeeps(s: User, term: string): (keep: Option<bool>)
    ensures keep.None? <==> s.course.None? && !Mentions(s.name, term)
    ensures keep.Some? ==> (keep.value <==>
      Mentions(s.name, term) || Mentions(s.course.value, term) || Mentions(s.email, term)
      || Mentions(JsString(s.mobile), term) || Mentions(JsString(s.fee), term))
  {
    if Mentions(s.name, term) then Some(true)
    else if s.course.None? then None
    else Some(Mentions(s.course.value, term) || Mentions(s.email, term)
              || Mentions(JsString(s.mobile), term) || Mentions(JsString(s.fee), term))
  }

  /** `filteredStudents`, or `None` when rendering the list throws. */
  function StudentSearch(students: seq<User>, term: string): (r: Option<seq<User>>)
    ensures r.Some? ==> |r.value| <= |students|
    decreases |students|
  {
    if students == [] then Some([])
    else match (StudentKeeps(students[0], term), StudentSearch(students[1..], term))
      case (Some(keep), Some(rest)) => Some((if keep then [students[0]] else []) + rest)
      case _ => None
  }

  /** Rendering the student list throws exactly when the test throws on some student. */
  lemma {:induction false} StudentSearchThrows(students: seq<User>, term: string)
    ensures StudentSearch(students, term).None? <==> exists k :: 0 <= k < |students| && StudentKeeps(students[k], term).None?
    decreases |students|
  {
    if students != [] {
      StudentSearchThrows(students[1..], term);
      if exists k :: 0 <= k < |students[1..]| && StudentKeeps(students[1..][k], term).None? {
        var k :| 0 <= k < |students[1..]| && StudentKeeps(students[1..][k], term).None?;
        assert students[k + 1] == students[1..][k];
      }
      if exists k :: 0 <= k < |students| && StudentKeeps(students[k], term).None? {
        var k :| 0 <= k < |students| && StudentKeeps(students[k], term).None?;
        if k > 0 {
          assert students[1..][k - 1] == students[k];
        }
      }
    }
  }

  /** When it renders, the list holds exactly the matching students, in their order. */
  lemma {:induction false} StudentSearchFilters(students: seq<User>, term: string)
    ensures StudentSearch(students, term).Some? ==>
      StudentSearch(students, term).value == Filter(students, (s: User) => StudentKeeps(s, term) == Some(true))
    decreases |students|
  {
    if students != [] {
      StudentSearchFilters(students[1..], term);
    }
  }

  /** An empty search term keeps every student and never throws. */
  lemma {:induction false} StudentSearchEmpty(students: seq<User>)
    ensures StudentSearch(students, "") == Some(students)
    decreases |students|
  {
    if students != [] {
      StudentSearchEmpty(students[1..]);
      ContainsEmpty(Lower(students[0].name));
      assert students == [students[0]] + students[1..];
    }
  }

  /** ManageTrainers' test: optional chaining makes a missing name or course simply not match. */
  predicate TrainerKeeps(t: User, term: string)
    ensures term == "" ==> TrainerKeeps(t, term)
  {
    ContainsEmpty(Lower(t.name));
    Mentions(t.name, term) || (t.course.Some? && Mentions(t.course.value, term))
  }

  /** `filteredTrainers` */
  function TrainerSearch(trainers: seq<User>, term: string): (r: seq<User>)
    ensures forall k :: 0 <= k < |r| ==> r[k] in trainers && TrainerKeeps(r[k], term)
    ensures forall k :: 0 <= k < |trainers| && TrainerKeeps(trainers[k], term) ==> trainers[k] in r
  {
    Filter(trainers, (t: User) => TrainerKeeps(t, term))
  }

  /** An empty search term keeps every trainer, in order. */
  lemma {:induction false} TrainerSearchEmpty(trainers: seq<User>)
    ensures TrainerSearch(trainers, "") == trainers
  {
    forall k | 0 <= k < |trainers| ensures TrainerKeeps(trainers[k], "") {
      ContainsEmpty(Lower(trainers[k].name));
    }
    FilterKeepsAll(trainers, (t: User) => TrainerKeeps(t, ""));
  }

  /** `prev.filter(x => x._id !== id)` */
  function WithoutId(records: seq<User>, id: Id): (r: seq<User>)
    ensures forall k :: 0 <= k < |r| ==> r[k] in records && r[k].id != id
    ensures forall k :: 0 <= k < |records| && records[k].id != id ==> records[k] in r
  {
    Filter(records, (u: User) => u.id != id)
  }

  /** Deleting one id keeps the other records in order, so deletes of different ids commute. */
  lemma {:induction false} WithoutIdCommutes(records: seq<User>, a: Id, b: Id)
    ensures WithoutId(WithoutId(records, a), b) == WithoutId(WithoutId(records, b), a)
    decreases |records|
  {
    if records != [] {
      var pa := (u: User) => u.id != a;
      var pb := (u: User) => u.id != b;
      var head, rest := records[..1], records[1..];
      assert records == head + rest;
      FilterConcat(head, rest, pa);
      FilterConcat(head, rest, pb);
      FilterConcat(Filter(head, pa), Filter(rest, pa), pb);
      FilterConcat(Filter(head, pb), Filter(rest, pb), pa);
      WithoutIdCommutes(rest, a, b);
    }
  }

  const Host: string := "http://localhost:5000"

  /** `profilePic.replace(/^\/?uploads\//, 'uploads/')` */
  function NormalizePicture(pic: string): (n: string)
    ensures StartsWith(pic, "/uploads/") ==> n == "uploads/" + pic[9..]
    ensures !StartsWith(pic, "/uploads/") ==> n == pic
  {
    if StartsWith(pic, "/uploads/") then "uploads/" + pic[9..] else pic
  }

  /** Normalising twice is normalising once. */
  lemma NormalizeIdempotent(pic: string)
    ensures NormalizePicture(NormalizePicture(pic)) == NormalizePicture(pic)
  {
    var n := NormalizePicture(pic);
    if StartsWith(pic, "/uploads/") {
      assert n[0] == 'u';
      assert !StartsWith(n, "/uploads/");
    }
  }

  /** A trainer card's picture URL. */
  function TrainerCardPicture(pic: string): string {
    Host + "/" + NormalizePicture(pic)
  }

  /** A student card's picture URL: the stored name is always put after `/uploads/`. */
  function StudentCardPicture(pic: string): string {
    Host + "/uploads/" + pic
  }

  /**
   * Both cards point at the file the image pipeline wrote: the trainer card
   * through the public path its route stored, the student card through the
   * bare name its route stored.
   */
  lemma {:induction false} CardsShowStoredFile(file: Upload.StoredFile)
    requires file.destination == Upload.ImageDestination
    ensures TrainerCardPicture(Routes.PublicPicture(Some(file))) == Host + "/" + file.Path()
    ensures StudentCardPicture(file.filename) == Host + "/" + file.Path()
  {
    var pic := Routes.PublicPicture(Some(file));
    assert StartsWith(pic, "/uploads/") by {
      assert pic[..9] == "/uploads/";
    }
    assert pic[9..] == file.filename;
  }

  /** The card colours; `gradients[idx % gradients.length]` always picks one. */
  const GradientCount: nat := 6

  function GradientIndex(idx: nat): (g: nat)
    ensures g < GradientCount
    ensures idx < GradientCount ==> g == idx
  {
    idx % GradientCount
  }

  /** How the printed profile shows a document. */
  datatype DocumentView = Link(href: string) | Image(src: string)

  function ViewDocument(doc: string): (v: DocumentView)
    ensures EndsWith(doc, ".pdf") <==> v.Link?
  {
    var url := Host + "/uploads/" + doc;
    if EndsWith(doc, ".pdf") then Link(url) else Image(url)
  }

  /**
   * A stored document is printed as a link exactly when the uploaded file's
   * original name had the extension `.pdf` (its type having passed as an image).
   */
  lemma {:induction false} DocumentLinkIffPdf(now: nat, originalname: string)
    ensures ViewDocument(Upload.FileName(now, Routes.DocumentsField, originalname)).Link?
      <==> Upload.ExtName(originalname) == ".pdf"
  {
    var ext := Upload.ExtName(originalname);
    var head := Decimal(now) + "-" + Routes.DocumentsField;
    Upload.FileNameSplit(now, Routes.DocumentsField, originalname);
    if |ext| < 4 {
      ShortExtensionNotPdf(head, ext);
    } else {
      LongExtensionPdf(head, ext);
    }
  }

  /** An extension of four or more characters makes the name end in `.pdf` only when it is `.pdf`. */
  lemma LongExtensionPdf(head: string, ext: string)
    requires |ext| >= 4 && ext[0] == '.' && forall i :: 0 < i < |ext| ==> ext[i] != '.'
    ensures EndsWith(head + ext, ".pdf") <==> ext == ".pdf"
  {
    var name := head + ext;
    if EndsWith(name, ".pdf") {
      assert ext[|ext| - 4..] == name[|name| - 4..];
      assert ext[|ext| - 4] == '.';
      assert ext == ext[|ext| - 4..];
    }
  }

  /** A name ending in `documents` followed by an extension shorter than `.pdf` does not end in `.pdf`. */
  lemma ShortExtensionNotPdf(head: string, ext: string)
    requires EndsWith(head, Routes.DocumentsField)
    requires |ext| < 4 && (ext == "" || ext[0] == '.')
    ensures !EndsWith(head + ext, ".pdf")
  {
    var name := head + ext;
    var at := |name| - 4;
    assert head[|head| - 9..] == "documents";
    assert name[at] == head[|head| - 4 + |ext|];
    assert name[at] != '.';
  }

  /** The page's state: the listed records, the search term, the edit session and its buffer. */
  class Panel {
    const kind: Kind
    var records: seq<User>
    var searchTerm: string
    var editId: Option<Id>
    /** `editStudent` / `editTrainer`; `None` is the empty object `{}`. */
    var draft: Option<User>
    var toasts: seq<string>

    /** An edit session has a buffer for the record it edits. */
    ghost predicate Valid()
      reads this
    {
      editId.Some? <==> draft.Some?
    }

    constructor (kind: Kind)
      ensures Valid() && this.kind == kind
      ensures records == [] && searchTerm == "" && editId.None? && draft.None? && toasts == []
    {
      this.kind := kind;
      records := [];
      searchTerm := "";
      editId := None;
      draft := None;
      toasts := [];
    }

    function Noun(): string
      reads this
    {
      if kind == StudentsPage then "students" else "trainers"
    }

    /** `fetchStudents` / `fetchTrainers`, with the list the request returned or its failure. */
    method Load(fetched: Option<seq<User>>)
      modifies this`records, this`toasts
      ensures fetched.Some? ==> records == fetched.value && toasts == old(toasts)
      ensures fetched.None? ==> records == old(records) && toasts == old(toasts) + ["Failed to fetch " + Noun()]
    {
      if fetched.Some? {
        records := fetched.value;
      } else {
        toasts := toasts + ["Failed to fetch " + Noun()];
      }
    }

    method SetSearchTerm(term: string)
      modifies this`searchTerm
      ensures searchTerm == term
    {
      searchTerm := term;
    }

    /** `handleEdit(record)` */
    method HandleEdit(record: User)
      modifies this`editId, this`draft
      ensures Valid()
      ensures editId == Some(record.id) && draft == Some(EditCopy(record))
    {
      editId := Some(record.id);
      draft := Some(record.(password := Some("")));
    }

    /** `handleChange(e)`: only inputs shown in edit mode fire it. */
    method HandleChange(c: Change)
      requires Valid() && draft.Some?
      requires c.TextChange? ==> c.field in Editable(kind)
      requires c.AgeChange? ==> kind == StudentsPage
      modifies this`draft
      ensures Valid()
      ensures draft == Some(Apply(old(draft).value, c))
    {
      draft := Some(Apply(draft.value, c));
    }

    /**
     * `handleSave`, given whether the PUT succeeded and, after a success, what
     * the list's refetch returned: it returns the payload sent; success ends
     * the session and reloads the list as `Load` does, failure keeps both.
     */
    method HandleSave(succeeded: bool, refetched: Option<seq<User>>) returns (payload: Patch)
      requires Valid() && draft.Some?
      modifies this`editId, this`draft, this`toasts, this`records
      ensures Valid()
      ensures payload == Payload(old(draft).value)
      ensures succeeded ==> (
        && editId.None? && draft.None?
        && var saved := old(toasts) + [(if kind == StudentsPage then "Student" else "Trainer") + " updated successfully"];
        && (refetched.Some? ==> records == refetched.value && toasts == saved)
        && (refetched.None? ==> records == old(records) && toasts == saved + ["Failed to fetch " + Noun()]))
      ensures !succeeded ==>
        && editId == old(editId) && draft == old(draft) && records == old(records)
        && toasts == old(toasts) + ["Update failed"]
    {
      payload := Payload(draft.value);
      if succeeded {
        toasts := toasts + [(if kind == StudentsPage then "Student" else "Trainer") + " updated successfully"];
        editId := None;
        draft := None;
        Load(refetched);
      } else {
        toasts := toasts + ["Update failed"];
      }
    }

    /** `handleCancel` */
    method HandleCancel()
      modifies this`editId, this`draft
      ensures Valid() && editId.None? && draft.None?
    {
      editId := None;
      draft := None;
    }

    /**
     * `handleDelete(id)`, given the confirm dialog's answer and whether the
     * DELETE succeeded; it reports whether a request was sent.
     */
    method HandleDelete(id: Id, confirmed: bool, succeeded: bool) returns (sent: bool)
      modifies this`records, this`toasts
      ensures sent == confirmed
      ensures !confirmed ==> records == old(records) && toasts == old(toasts)
      ensures confirmed && succeeded ==> (
        && records == WithoutId(old(records), id)
        && toasts == old(toasts) + [(if kind == StudentsPage then "Student" else "Trainer") + " deleted"])
      ensures confirmed && !succeeded ==> records == old(records) && toasts == old(toasts) + ["Delete failed"]
    {
      if !confirmed {
        return false;
      }
      sent := true;
      if succeeded {
        toasts := toasts + [(if kind == StudentsPage then "Student" else "Trainer") + " deleted"];
        records := Filter(records, (u: User) => u.id != id);
      } else {
        toasts := toasts + ["Delete failed"];
      }
    }

    /** The cards the page renders, or `None` when filtering throws. */
    function Visible(): Option<seq<User>>
      reads this
    {
      if kind == StudentsPage then StudentSearch(records, searchTerm) else Some(TrainerSearch(records, searchTerm))
    }
  }
}
