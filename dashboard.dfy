/**
 * The super admin dashboard: the countdown that guards the "register another
 * super admin" button, the trainer registration form and its reset, the
 * student document picker, and the header's profile picture URL.
 */
module Dashboard {
  import opened Wrappers
  import opened Text
  import Upload
  import Routes

  const Host: string := "http://localhost:5000"
  const CountdownSeconds: int := 10

  /** The three pieces of state the countdown effect reads and writes. */
  datatype Countdown = Countdown(showModal: bool, secondsLeft: int, okEnabled: bool)

  /** OK is enabled only once the count has reached zero, and the count stays within 0..10. */
  predicate CountdownOk(c: Countdown) {
    0 <= c.secondsLeft <= CountdownSeconds && (c.okEnabled ==> c.secondsLeft == 0)
  }

  /** `handleClick` */
  function Click(c: Countdown): (d: Countdown)
    ensures CountdownOk(d) && d.showModal && !d.okEnabled
  {
    Countdown(true, CountdownSeconds, false)
  }

  /**
   * One run of the effect on `[showModal, secondsLeft]`, with the timer it
   * schedules having fired: a second is taken off while the modal is shown
   * and time is left; at zero OK is enabled.
   */
  function Step(c: Countdown): (d: Countdown)
    ensures CountdownOk(c) ==> CountdownOk(d)
    ensures c.showModal && c.secondsLeft > 0 ==> d == c.(secondsLeft := c.secondsLeft - 1)
    ensures !c.showModal && c.secondsLeft > 0 ==> d == c
    ensures c.secondsLeft == 0 ==> d == c.(okEnabled := true)
  {
    if c.showModal && c.secondsLeft > 0 then c.(secondsLeft := c.secondsLeft - 1)
    else if c.secondsLeft == 0 then c.(okEnabled := true)
    else c
  }

  /** `n` runs of the effect. */
  function Run(c: Countdown, n: nat): (d: Countdown)
    ensures CountdownOk(c) ==> CountdownOk(d)
    ensures d.showModal == c.showModal
    decreases n
  {
    if n == 0 then c else Run(Step(c), n - 1)
  }

  /** Once enabled at zero, nothing the effect does changes the state again. */
  lemma {:induction false} RunSettled(c: Countdown, n: nat)
    requires c.secondsLeft == 0 && c.okEnabled
    ensures Run(c, n) == c
    decreases n
  {
    if n > 0 {
      RunSettled(Step(c), n - 1);
    }
  }

  /**
   * With the modal shown, `s` seconds left and OK disabled, `n` runs of the
   * effect leave `s - n` seconds (never below zero), and OK is enabled only
   * after the run that finds zero, that is after more than `s` runs.
   */
  lemma {:induction false} RunCounts(s: int, n: nat)
    requires 0 <= s
    ensures Run(Countdown(true, s, false), n) == Countdown(true, if n <= s then s - n else 0, n > s)
    decreases n
  {
    if n > 0 {
      if s == 0 {
        RunSettled(Countdown(true, 0, true), n - 1);
      } else {
        RunCounts(s - 1, n - 1);
      }
    }
  }

  /** From a click, OK is enabled after eleven runs of the effect and not before. */
  lemma CountdownFromClick(c: Countdown, n: nat)
    ensures Run(Click(c), n).okEnabled <==> n >= 11
    ensures Run(Click(c), n).secondsLeft == (if n <= 10 then 10 - n else 0)
  {
    RunCounts(CountdownSeconds, n);
  }

  /** Every reachable state keeps the invariant. */
  lemma {:induction false} RunKeeps(c: Countdown, n: nat)
    requires CountdownOk(c)
    ensures CountdownOk(Run(c, n))
    decreases n
  {
    if n > 0 {
      RunKeeps(Step(c), n - 1);
    }
  }

  /** The header image: a stored public path is put after the host, anything else after `/uploads/`. */
  function ProfileUrl(profilePic: Option<string>): (url: string)
    ensures profilePic.Some? && StartsWith(profilePic.value, "/uploads/") ==> url == Host + profilePic.value
    ensures !(profilePic.Some? && StartsWith(profilePic.value, "/uploads/")) ==> url == Host + "/uploads/" + JsString(profilePic)
  {
    if profilePic.Some? && StartsWith(profilePic.value, "/uploads/") then Host + profilePic.value
    else Host + "/uploads/" + JsString(profilePic)
  }

  /**
   * Both forms of stored picture reach the file the image pipeline wrote: the
   * public path of a trainer or super admin, and the bare name of a student.
   */
  lemma {:induction false} ProfileUrlShowsStoredFile(file: Upload.StoredFile, now: nat, originalname: string)
    requires file.destination == Upload.ImageDestination
    requires file.filename == Upload.FileName(now, Routes.ProfilePicField, originalname)
    ensures ProfileUrl(Some(Routes.PublicPicture(Some(file)))) == Host + "/" + file.Path()
    ensures ProfileUrl(Some(file.filename)) == Host + "/" + file.Path()
  {
    GeneratedNameIsBare(now, Routes.ProfilePicField, originalname);
    PublicUrl(file.filename);
    BareUrl(file.filename);
  }

  /** A public path is shown from `uploads/`. */
  lemma PublicUrl(name: string)
    ensures ProfileUrl(Some("/uploads/" + name)) == Host + "/" + (Upload.ImageDestination + name)
  {
    StartsWithConcat("/uploads/", name);
    assert Host + ("/uploads/" + name) == Host + "/" + (Upload.ImageDestination + name);
  }

  /** A name that is not a public path is shown from `uploads/`. */
  lemma BareUrl(name: string)
    requires !StartsWith(name, "/uploads/")
    ensures ProfileUrl(Some(name)) == Host + "/" + (Upload.ImageDestination + name)
  {
    assert Host + "/uploads/" + name == Host + "/" + (Upload.ImageDestination + name);
  }

  /** A generated file name starts with a digit, so it is never taken for a public path. */
  lemma GeneratedNameIsBare(now: nat, fieldname: string, originalname: string)
    ensures !StartsWith(Upload.FileName(now, fieldname, originalname), "/uploads/")
  {
    var name := Upload.FileName(now, fieldname, originalname);
    Upload.StampedLeadingDigit(now, fieldname + Upload.ExtName(originalname));
    assert name[0] != '/';
    if |name| >= 9 {
      assert name[..9][0] == name[0];
    }
  }

  /** A user without a stored picture gets the `/uploads/` directory itself, or the name `undefined` in it. */
  lemma NoPictureUrl()
    ensures ProfileUrl(Some(Routes.PublicPicture(None))) == Host + "/uploads/"
    ensures ProfileUrl(None) == Host + "/uploads/undefined"
  {
  }

  /** A file picked in a form. */
  datatype PickedFile = PickedFile(name: string, mimetype: string, size: nat)

  /** The trainer form's initial and reset contents. */
  const EmptyTrainerForm: map<string, string> :=
    map["name" := "", "email" := "", "password" := "", "course" := "", "salary" := "", "contactNumber" := ""]

  /** The `name`s of the trainer form's inputs. */
  const TrainerInputs: set<string> := {"name", "email", "password", "course", "salary", "contactNumber", "dateOfJoin"}

  /** `err.response?.data?.message || fallback`: with a non-empty fallback the toast is never empty. */
  function ErrorText(message: Option<string>, fallback: string): (text: string)
    ensures fallback != "" ==> text != ""
    ensures text == fallback || (message.Some? && text == message.value)
    ensures Truthy(message) ==> text == message.value
    ensures !Truthy(message) ==> text == fallback
  {
    if Truthy(message) then message.value else fallback
  }

  /** How the registration request settled. */
  datatype Settled = Accepted | Refused(message: Option<string>)

  class SuperAdminDashboard {
    var showModal: bool
    var secondsLeft: int
    var okEnabled: bool
    var showTrainerModal: bool
    var trainer: map<string, string>
    var profilePicFile: Option<PickedFile>
    /** The object URL of the picked picture. */
    var preview: Option<string>
    var studentDocs: seq<PickedFile>
    var toasts: seq<string>

    function State(): Countdown
      reads this
    {
      Countdown(showModal, secondsLeft, okEnabled)
    }

    /** The countdown invariant, a form holding only its inputs, and a document selection the picker accepted. */
    ghost predicate Valid()
      reads this
    {
      && CountdownOk(State())
      && trainer.Keys <= TrainerInputs
      && (studentDocs == [] || 2 <= |studentDocs| <= 5)
    }

    constructor ()
      ensures Valid()
      ensures State() == Countdown(false, CountdownSeconds, false)
      ensures !showTrainerModal && trainer == EmptyTrainerForm && profilePicFile.None? && preview.None?
      ensures studentDocs == [] && toasts == []
    {
      showModal := false;
      secondsLeft := CountdownSeconds;
      okEnabled := false;
      showTrainerModal := false;
      trainer := EmptyTrainerForm;
      profilePicFile := None;
      preview := None;
      studentDocs := [];
      toasts := [];
    }

    /** `handleClick` */
    method HandleClick()
      requires Valid()
      modifies this`showModal, this`secondsLeft, this`okEnabled
      ensures Valid()
      ensures State() == Click(old(State()))
    {
      showModal := true;
      secondsLeft := CountdownSeconds;
      okEnabled := false;
    }

    /** The countdown effect after a render, with its timer fired. */
    method Tick()
      requires Valid()
      modifies this`secondsLeft, this`okEnabled
      ensures Valid()
      ensures State() == Step(old(State()))
    {
      if showModal && secondsLeft > 0 {
        secondsLeft := secondsLeft - 1;
      } else if secondsLeft == 0 {
        okEnabled := true;
      }
    }

    /** The modal's Cancel button. */
    method CloseModal()
      requires Valid()
      modifies this`showModal
      ensures Valid()
      ensures State() == old(State()).(showModal := false)
    {
      showModal := false;
    }

    /** `handleTrainerChange` */
    method HandleTrainerChange(name: string, value: string)
      requires Valid() && name in TrainerInputs
      modifies this`trainer
      ensures Valid()
      ensures trainer == old(trainer)[name := value]
    {
      trainer := trainer[name := value];
    }

    /** `handleTrainerFile` */
    method HandleTrainerFile(file: PickedFile, objectUrl: string)
      requires Valid()
      modifies this`profilePicFile, this`preview
      ensures Valid()
      ensures profilePicFile == Some(file) && preview == Some(objectUrl)
    {
      profilePicFile := Some(file);
      preview := Some(objectUrl);
    }

    /**
     * `handleTrainerSubmit`, given how the POST settled: it returns the
     * form entries and picture it sent; on success the modal closes and the
     * form, picture and preview are reset, on failure nothing is.
     */
    method HandleTrainerSubmit(settled: Settled) returns (sent: map<string, string>, picture: Option<PickedFile>)
      requires Valid()
      modifies this`showTrainerModal, this`trainer, this`profilePicFile, this`preview, this`toasts
      ensures Valid()
      ensures sent == old(trainer) && picture == old(profilePicFile)
      ensures settled.Accepted? ==> (
        && toasts == old(toasts) + ["Trainer registered successfully!"]
        && !showTrainerModal && trainer == EmptyTrainerForm && profilePicFile.None? && preview.None?)
      ensures settled.Refused? ==> (
        && toasts == old(toasts) + [ErrorText(settled.message, "Trainer registration failed")]
        && showTrainerModal == old(showTrainerModal) && trainer == old(trainer)
        && profilePicFile == old(profilePicFile) && preview == old(preview))
    {
      sent, picture := trainer, profilePicFile;
      match settled
      case Accepted =>
        toasts := toasts + ["Trainer registered successfully!"];
        showTrainerModal := false;
        trainer := EmptyTrainerForm;
        profilePicFile := None;
        preview := None;
      case Refused(message) =>
        toasts := toasts + [ErrorText(message, "Trainer registration failed")];
    }

    /** `handleStudentDocs`: a selection of 2 to 5 files replaces the previous one; any other is refused. */
    method HandleStudentDocs(files: seq<PickedFile>)
      requires Valid()
      modifies this`studentDocs, this`toasts
      ensures Valid()
      ensures 2 <= |files| <= 5 ==> studentDocs == files && toasts == old(toasts)
      ensures !(2 <= |files| <= 5) ==> studentDocs == old(studentDocs) && toasts == old(toasts) + ["Upload 2 to 5 documents"]
    {
      if |files| < 2 || |files| > 5 {
        toasts := toasts + ["Upload 2 to 5 documents"];
        return;
      }
      studentDocs := files;
    }
  }

  /**
   * The picker keeps up to five documents, but the student pipeline takes at
   * most five files in all: a registration sending a profile picture with
   * five documents fails on the file-count limit, before the handler runs.
   */
  lemma PictureWithFiveDocumentsFails(picture: Upload.FilePart, documents: seq<Upload.FilePart>)
    requires |documents| == 5
    ensures Upload.Run(Upload.ImageUpload, Routes.StudentUploadFields, [picture] + documents).Failure?
  {
    Routes.SixImagesRejected([picture] + documents);
  }
}
