# Sports academy accounts: a Dafny model

This project models the core of a small role-based academy manager. An
Express server under `/api/auth` keeps one `User` collection. Each user is
a super admin, a trainer or a student. The server registers users,
authenticates them and lets them edit and delete records. Trainers can attach
videos to a student's record. Image and video uploads go through two
multer configurations. The React client guards its pages by the role kept in
`localStorage`, sends each role to its dashboard after login, and gives the
super admin two management pages and a dashboard.

The modules follow the program's files:

- `Accounts`: the user schema, the store and update semantics (`backend/models/User.js`).
- `Credentials`: stand-ins for bcrypt and the signed token.
- `Upload`: file naming, the two file filters and the multer pipeline (`backend/middleware/upload.js`).
- `Routes`: every route of `backend/routes/auth.js`, as methods of the `Server` class.
- `ClientRoutes`: `App.js` and `ProtectedRoute.js`.
- `LoginScreen`: `Login.js`.
- `ManagePanels`: `ManageStudents.js` and `ManageTrainer.js`, as one `Panel` class.
- `Dashboard`: `SuperAdminDashboard.js`.
- `Text`, `Lists` and `Wrappers`: the JavaScript string, array and truthiness behaviour these rely on.

The store is a map from ids to users, plus the next free id. A query lists
its matches in ascending id order; MongoDB promises no order without a sort,
so this order is a choice of the model, not a guarantee of the database. The database's
unique index on `email` is part of the store's invariant. A route method
takes three inputs:

- the auth middleware's outcome: the caller's identity, or a refusal, which gives 401;
- the request's text fields, where an absent field is `None`;
- the file parts, for the multipart routes.

It returns the exact status and message the route sends. It returns `NoReply`
where a handler without a `try`/`catch` rejects and the client gets no
answer.

A filter such as `findOne({ email })` built from an absent field loses that
key, as Mongoose drops keys whose value is `undefined`: without an email the
lookup matches every document (every student, with the role filter kept), so
logins and video routes act on some stored document and registrations find
the email taken whenever the store is not empty.

Both edit routes copy
the request body into the update, `role` included, so a super admin can
change any record's role (`Routes.EditCopiesFields`). Both routes also act on
any record with the given id, whatever its role.

## Model

| member | source | states |
|---|---|---|
| Accounts.RoleName | backend/models/User.js:8 | a role is one of the three schema roles exactly when its name is one of the enum's strings |
| Accounts.RoleRoundTrip | backend/models/User.js:8 | every role is read back from its name, and every string is the name of the role read from it |
| Accounts.RoleNameInjective | backend/models/User.js:8 | two roles have the same name exactly when they are the same role |
| Accounts.ParseRole | backend/models/User.js:8 | a string outside the enum is kept as it is, as a role outside the schema; an enum string is one of the three roles |
| Accounts.Saveable | backend/models/User.js:4-8 | a document passes `save()`'s validators only with one of the three schema roles (name, email and password given) |
| Accounts.WithoutPassword | backend/routes/auth.js:216 | `select('-password')` removes the password and nothing else |
| Accounts.CollectionMembers | backend/routes/auth.js:181 | listing the collection returns exactly the stored documents, in ascending id order |
| Accounts.Query | backend/routes/auth.js:102 | every document `find(filter)` returns passes the filter; Accounts.QueryMembers gives the converse |
| Accounts.QueryMembers | backend/routes/auth.js:102 | `find(filter)` returns a document exactly when it is stored and matches the filter |
| Accounts.FindOne | backend/routes/auth.js:17 | a document `findOne` returns matches the filter; Accounts.FindOneSpec says when one is returned |
| Accounts.FindOneSpec | backend/routes/auth.js:17 | `findOne` returns a stored match when one exists, and null exactly when none matches |
| Accounts.ApplyPatch | backend/routes/auth.js:131 | `findByIdAndUpdate` never changes the id, sets a given role, and keeps the email when none is given; Accounts.ApplyPatchOf and Accounts.ApplyPatchLaws relate it to the record |
| Accounts.ApplyPatchOf | backend/routes/auth.js:131 | an update carrying every path of a record turns the stored document into that record |
| Accounts.ApplyPatchLaws | backend/routes/auth.js:196 | an empty update changes nothing; applying an update twice equals applying it once; the id never changes |
| Credentials.Hash | backend/routes/auth.js:20 | a hash carries the bcrypt cost-10 prefix; the stand-in hash is also longer than the password, which a 60-character bcrypt hash is not for long passwords |
| Credentials.VerifyExactly | backend/routes/auth.js:46 | `bcrypt.compare` accepts the hashed password and no other |
| Credentials.Verify | backend/routes/auth.js:46 | a stored value that verifies carries the bcrypt prefix and, for the stand-in hash, is longer than the password; Credentials.VerifyExactly says which password verifies |
| Credentials.HashNotPlain | backend/routes/auth.js:46 | a hash never equals its plaintext, and an empty stored password admits no password |
| Credentials.SignInjective | backend/routes/auth.js:49 | two logins get the same token exactly when they are for the same id and role |
| Text.Decimal | backend/middleware/upload.js:9 | `Date.now()` is written as a non-empty string of digits with no leading zero |
| Text.DecimalValue | backend/middleware/upload.js:9 | the decimal digits read back as the number they were made from |
| Text.DecimalInjective | backend/middleware/upload.js:9 | different timestamps give different digit strings |
| Text.ContainsIff | frontend/src/Pages/ManageStudents.js:138 | `includes` holds exactly when the term occurs at some position |
| Text.ContainsEmpty | frontend/src/Pages/ManageStudents.js:137-146 | every string includes the empty term |
| Text.Lower | frontend/src/Pages/ManageStudents.js:138 | `toLowerCase` keeps the length and lower-cases each character |
| Text.LowerIdempotent | frontend/src/Pages/ManageStudents.js:138 | lower-casing twice is lower-casing once |
| Text.LastIndexOf | backend/middleware/upload.js:8 | the index of the last occurrence of a character, or -1 when it does not occur |
| Lists.Filter | backend/routes/auth.js:251 | `Array.filter` keeps exactly the elements that pass, and never adds one |
| Lists.First | backend/routes/auth.js:17 | the first element that passes, and none exactly when no element passes |
| Lists.FirstAt | backend/routes/auth.js:17 | `find` returns the element at a position when it is the first one that passes |
| Lists.Map | backend/routes/auth.js:160 | `Array.map` keeps the length and maps each position |
| Upload.TrimTrailingSlashes | backend/middleware/upload.js:8 | `path.extname` first drops the trailing slashes of its argument |
| Upload.Basename | backend/middleware/upload.js:8 | the last path segment is a suffix of the path and contains no '/' |
| Upload.BasenameAfterSlash | backend/middleware/upload.js:8 | the segment is the whole path, or a '/' stands just before it, so it is the longest '/'-free suffix |
| Upload.ExtName | backend/middleware/upload.js:8 | an extension is empty or starts with its only '.', and contains no '/' |
| Upload.ExtNameOfName | backend/middleware/upload.js:8 | the extension of `stem.ext` is `.ext` |
| Upload.ExtNameEmpty | backend/middleware/upload.js:8 | a plain name, without '.' or '/', has no extension |
| Upload.ExtNameDotFile | backend/middleware/upload.js:8 | a dot file such as `.env` (a plain name after the dot) has no extension |
| Upload.StampedInjective | backend/middleware/upload.js:9 | two stored names that agree agree on the timestamp before the first `-` |
| Upload.FileName | backend/middleware/upload.js:8-10 | a generated name starts with a digit of the timestamp, is longer than the field name, and ends with the field name and the original extension |
| Upload.FileNameTimestamp | backend/middleware/upload.js:9 | two stored names can be equal only for files received in the same millisecond |
| Upload.Check | backend/middleware/upload.js:14-42 | the image filter never fails a file (it drops it); the video filter never drops a file (it fails it) |
| Upload.CheckKeepsListed | backend/middleware/upload.js:14-42 | a file is kept exactly when its type is one of the filter's listed types |
| Upload.Store | backend/middleware/upload.js:5-12 | a stored file gets the configured directory and the name `<now>-<field><ext>` |
| Upload.Accepted | backend/middleware/upload.js:19-23 | the accepted files are at most the parts received, and all lie in the configured directory |
| Upload.AcceptedNamesLeadWithDigit | backend/middleware/upload.js:9 | every accepted file's name starts with a digit |
| Upload.Run | backend/middleware/upload.js:19-48 | a request's upload middleware stores at most one file per part; Upload.ReceiveAccepts gives exactly which files |
| Upload.ReceiveAccepts | backend/middleware/upload.js:19-48 | a successful upload stores exactly the kept parts, in order, under their generated names |
| Upload.ReceiveWithinSize | backend/middleware/upload.js:19-48 | every kept part of a successful upload is within the size limit |
| Upload.ReceiveWithinFileLimit | backend/middleware/upload.js:22 | a request with more file parts than the `files` limit fails |
| Upload.ImageTypeNeverFails | backend/middleware/upload.js:14-17 | an image upload fails only on the file count or an unexpected field, never on a type |
| Upload.ReceiveWithinAllowance | backend/routes/auth.js:144 | a successful upload stores no more files of a field than that field's `maxCount` |
| Upload.FiltersDisagree | backend/middleware/upload.js:14-42 | a file of an unlisted type fails a video upload with its message, and silently vanishes from an image upload |
| Routes.Paths | backend/middleware/upload.js:5-12 | the paths written are exactly the stored files' paths |
| Routes.PublicPicture | backend/routes/auth.js:21 | super-admin and trainer records store `/uploads/<name>`, or '' without a file |
| Routes.StudentPicture | backend/routes/auth.js:159 | '' without a profile picture, otherwise the name of a stored `profilePic` file, the first one |
| Routes.StudentPictureBare | backend/routes/auth.js:159 | a student record's picture, unlike a trainer's, never starts with `/uploads/` |
| Routes.DocumentNames | backend/routes/auth.js:160 | undefined exactly when no document was stored; otherwise the k-th name is the k-th stored document's file name |
| Routes.TrainerUpdates | backend/routes/auth.js:125-131 | the trainer update copies every path of the body except the password; a changed password is the hash of the sent one; an empty password is passed on as '' |
| Routes.StudentUpdates | backend/routes/auth.js:189-196 | the student update copies every path except the password; a stored password is the hash of the sent one, and '' is never stored |
| Routes.StudentEditPassword | backend/routes/auth.js:189-196 | after a student edit the new password, and only it, logs in; without one the old hash stays |
| Routes.TrainerEditPassword | backend/routes/auth.js:125-131 | a non-empty password is hashed; an empty one is stored as '' and then no password logs in |
| Routes.EditCopiesFields | backend/routes/auth.js:125-131 | both edits copy every path except the password verbatim, `role` included |
| Routes.CourseStudents | backend/routes/auth.js:216 | the course query returns exactly the stored students of that course |
| Routes.CourseDocuments | backend/routes/auth.js:216-217 | the course reply lists every stored student of the course, each without its password, and nothing else |
| Routes.TrainerEntries | backend/routes/auth.js:91-92 | the trainer-name reply holds the id and name of every stored trainer, and nothing else |
| Routes.StudentLookup | backend/routes/auth.js:229 | none is found exactly when no stored student matches; what is found is a stored matching student, the only one with a given email; without an email every student matches, as Mongoose drops the undefined key |
| Routes.RemoveVideos | backend/routes/auth.js:251 | removing by url keeps exactly the entries with a different url |
| Routes.DeleteUndoesUpload | backend/routes/auth.js:232-251 | deleting by the url just uploaded restores the previous list, when the url was new |
| Routes.RemoveVideosIdempotent | backend/routes/auth.js:251 | deleting by url twice removes nothing more |
| Routes.RemoveVideosNoMatch | backend/routes/auth.js:251 | deleting a url no entry has leaves the list as it was |
| Routes.SixImagesRejected | backend/routes/auth.js:144 | a student registration with more than five files fails in the upload middleware |
| Routes.SingleStoresOne | backend/routes/auth.js:14 | `.single(field)` stores at most one file, of that field |
| Routes.Server.Accept | backend/middleware/upload.js:19-23 | on success the upload's files are written; on an error none are |
| Routes.Server.Insert | backend/routes/auth.js:31 | a save adds the document under the next id and keeps emails unique |
| Routes.Server.RegisterSuperAdmin | backend/routes/auth.js:14-37 | upload error 500; 400 when `findOne({ email })` finds a document (for an absent email, any stored document); 201 exactly when the upload passed, nothing was found, name and email are given and a password is present, and then the record is stored with the hash; otherwise 500 |
| Routes.Server.Login | backend/routes/auth.js:40-54 | 404 exactly when `findOne({ email })` finds nothing (for an absent email, an empty store); for the found user, 500 without a password, 401 on a wrong password, otherwise 200 with the token for its id and role; without an email that user is some stored one |
| Routes.Server.RegisterTrainer | backend/routes/auth.js:57-86 | 401 before the upload; upload error 500; files written even when the caller is not a super admin (403); 400 when `findOne({ email })` finds a document (for an absent email, any stored one); 201 with the trainer record exactly when all checks pass |
| Routes.Server.Trainers | backend/routes/auth.js:89-96 | any signed-in caller gets the id and name of every trainer, and only of trainers |
| Routes.Server.AllTrainers | backend/routes/auth.js:99-107 | a super admin gets exactly the stored trainers; other callers get 403 |
| Routes.Server.DeleteTrainer | backend/routes/auth.js:110-118 | a super admin's delete removes the record with that id, whatever its role; others get 403 and change nothing |
| Routes.Server.EditTrainer | backend/routes/auth.js:121-137 | a super admin's edit applies the update (password hashed when non-empty) and returns the new record, or null for a missing id; an email clash gives 500 and changes nothing |
| Routes.Server.RegisterStudent | backend/routes/auth.js:142-177 | super admin only; at most one picture and five documents; 400 when `findOne({ email })` finds a document (for an absent email, any stored one); registration without documents fails with 500; 201 stores the student record |
| Routes.Server.AllStudents | backend/routes/auth.js:179-183 | a super admin gets exactly the stored students; others get 403 |
| Routes.Server.EditStudent | backend/routes/auth.js:186-198 | a super admin's edit applies the update, with an empty password dropped; an email clash leaves the request unanswered and the store unchanged |
| Routes.Server.DeleteStudent | backend/routes/auth.js:201-205 | a super admin's delete removes the record with that id, whatever its role |
| Routes.Server.StudentsByCourse | backend/routes/auth.js:209-221 | trainers only; 404 when the trainer has no course; otherwise exactly the students of that course, without passwords |
| Routes.Server.UploadVideo | backend/routes/auth.js:224-242 | trainers only, checked after the file is written; 404 when no student matches (without an email, when there is no student); otherwise, for a matching student, a request without a file or a failing save gives 500 'Upload failed' and a success appends the entry with its public url |
| Routes.Server.DeleteVideo | backend/routes/auth.js:245-255 | the student is looked up by the body's email, else the caller's, and without either every student matches; 404 when none matches; otherwise a matching student loses the entries with that url, and a save the validators refuse leaves the request unanswered |
| Routes.Server.Me | backend/routes/auth.js:258-261 | the caller's own record without its password, or null |
| ClientRoutes.Canon | frontend/src/App.js:21-66 | a path as React Router compares it: lower-cased, with its trailing slashes, and only those, dropped |
| ClientRoutes.Lookup | frontend/src/App.js:21-66 | the route found matches the path; none is found exactly when no table entry matches |
| ClientRoutes.LookupAt | frontend/src/App.js:21-66 | the route found for a path is the first table entry it matches |
| ClientRoutes.Gate | frontend/src/App.js:21-66 | `Resolve` is `Gate` on the route found: no route renders the not-found page, and the only redirect is a guard's, to `/` |
| ClientRoutes.GuardedLanding | frontend/src/Pages/ProtectedRoute.js:5-14 | with a token stored, a route guarded for one role renders its page exactly when that role is stored, and otherwise redirects to `/` |
| ClientRoutes.AdmitsIff | frontend/src/Pages/ProtectedRoute.js:5-14 | the guard admits exactly when a non-empty token is stored and the stored role is allowed |
| ClientRoutes.Admits | frontend/src/Pages/ProtectedRoute.js:5-14 | a guard with no allowed role admits nobody; ClientRoutes.AdmitsIff spells out when it admits |
| ClientRoutes.GuardsListRoles | frontend/src/App.js:25-64 | every guard lists only schema role names |
| ClientRoutes.GuardRedirects | frontend/src/Pages/ProtectedRoute.js:9-11 | without a token or a role, every guarded route redirects to `/` |
| ClientRoutes.TokenNotInspected | frontend/src/Pages/ProtectedRoute.js:6-9 | any two non-empty tokens give the same pages |
| ClientRoutes.OpenPaths | frontend/src/App.js:22-23 | the login and registration pages render for everyone |
| ClientRoutes.RootNotFound | frontend/src/App.js:65 | `/`, the guard's redirect target, renders the not-found page |
| ClientRoutes.OneRolePerGuard | frontend/src/App.js:25-64 | every guard allows one role; the super-admin pages allow only superAdmin |
| ClientRoutes.LandingPage | frontend/src/Pages/Login.js:23-25 | there is a landing page exactly for the three schema roles |
| ClientRoutes.LandingPageAdmits | frontend/src/Pages/Login.js:23-25 | each landing page renders for the role that chose it and redirects any other role |
| ClientRoutes.SuperAdminLanding | frontend/src/App.js:25-32 | `/superadmin-dashboard` resolves to its guarded route |
| ClientRoutes.TrainerLanding | frontend/src/App.js:49-56 | `/trainer-dashboard` resolves to its guarded route |
| ClientRoutes.StudentLanding | frontend/src/App.js:57-64 | `/student-dashboard` resolves to its guarded route |
| LoginScreen.FailureText | frontend/src/Pages/Login.js:27 | a failed login always shows a non-empty message, the server's when it sent one |
| LoginScreen.ClientReply | frontend/src/Pages/Login.js:16-27 | only a 2xx session reply is a success; it carries the token and a role name, which is an enum string exactly when the user's role is a schema role |
| LoginScreen.Destination | frontend/src/Pages/Login.js:23-25 | the handler navigates exactly when the reply carried one of the three enum roles |
| LoginScreen.UndefinedRoleAdmitsNothing | frontend/src/Pages/Login.js:19-20 | a success without a role stores `String(undefined)`, which no guard admits: every guarded page redirects to `/` |
| LoginScreen.StorageAfter | frontend/src/Pages/Login.js:19-20 | a success writes `String(token)` and `String(role)` (`undefined` for a missing value) and keeps every other key; a failure writes nothing |
| LoginScreen.LoginLandsOnAdmittedPage | frontend/src/Pages/Login.js:19-25 | after a successful login with a schema role, the page navigated to renders |
| LoginScreen.SessionLandsOnDashboard | frontend/src/Pages/Login.js:16-25 | a 200 session from the login route lands on the user's dashboard, or navigates nowhere for a role outside the enum |
| LoginScreen.Browser.HandleSubmit | frontend/src/Pages/Login.js:13-29 | the storage writes, the toast and the navigation by role; a failure only shows its message |
| ManagePanels.ApplyChangesOnlyNamed | frontend/src/Pages/ManageStudents.js:43-46 | a change sets the named field and leaves every other field alone |
| ManagePanels.EditCopy | frontend/src/Pages/ManageStudents.js:38-41 | the edit buffer is the record with the password cleared |
| ManagePanels.Payload | frontend/src/Pages/ManageStudents.js:51-52 | the payload never carries an empty password, and carries a non-empty one unchanged |
| ManagePanels.SaveRoundTrip | frontend/src/Pages/ManageStudents.js:48-64 | saving a buffer gives the stored record the buffer's values, with a typed password hashed and the old hash kept otherwise, through either edit route |
| ManagePanels.PayloadNeverEmptiesPassword | frontend/src/Pages/ManageTrainer.js:51-52 | the trainer page never stores an empty password through the trainer edit route |
| ManagePanels.StudentKeeps | frontend/src/Pages/ManageStudents.js:137-146 | a student is kept when the term occurs in the name, course, email, mobile or fee; the test throws exactly when the course is missing and the name did not match |
| ManagePanels.StudentSearch | frontend/src/Pages/ManageStudents.js:137-146 | when the list renders it has no more entries than the students; the next rows say which |
| ManagePanels.StudentSearchThrows | frontend/src/Pages/ManageStudents.js:137-146 | rendering the list throws exactly when the test throws on some student (no course and a name that does not match) |
| ManagePanels.StudentSearchFilters | frontend/src/Pages/ManageStudents.js:137-146 | when it renders, the list holds exactly the matching students, in their order |
| ManagePanels.StudentSearchEmpty | frontend/src/Pages/ManageStudents.js:137-146 | an empty search term keeps every student and never throws |
| ManagePanels.TrainerKeeps | frontend/src/Pages/ManageTrainer.js:86-90 | every trainer passes the test for an empty term |
| ManagePanels.TrainerSearch | frontend/src/Pages/ManageTrainer.js:86-90 | the list keeps exactly the trainers whose name or present course includes the term |
| ManagePanels.TrainerSearchEmpty | frontend/src/Pages/ManageTrainer.js:86-90 | an empty term keeps every trainer, in order |
| ManagePanels.WithoutId | frontend/src/Pages/ManageStudents.js:80 | a delete removes exactly the entries with that id |
| ManagePanels.WithoutIdCommutes | frontend/src/Pages/ManageTrainer.js:80 | deletes of two ids give the same list in either order |
| ManagePanels.NormalizePicture | frontend/src/Pages/ManageTrainer.js:130 | a leading `/uploads/` becomes `uploads/`; any other picture is unchanged |
| ManagePanels.NormalizeIdempotent | frontend/src/Pages/ManageTrainer.js:130 | normalising twice is normalising once |
| ManagePanels.CardsShowStoredFile | frontend/src/Pages/ManageTrainer.js:130 | the trainer card's URL and the student card's URL both point at the file the upload wrote |
| ManagePanels.GradientIndex | frontend/src/Pages/ManageTrainer.js:124 | the gradient index is always within the six colours |
| ManagePanels.ViewDocument | frontend/src/Pages/ManageStudents.js:93-95 | a document is a link exactly when its name ends in `.pdf`, and an image otherwise |
| ManagePanels.DocumentLinkIffPdf | frontend/src/Pages/ManageStudents.js:93-95 | a stored document is a link exactly when its uploaded file's extension was `.pdf` |
| ManagePanels.Panel.Load | frontend/src/Pages/ManageStudents.js:26-36 | a fetched list replaces the records; a failed fetch keeps them and shows 'Failed to fetch ...' |
| ManagePanels.Panel.SetSearchTerm | frontend/src/Pages/ManageStudents.js:159 | the search box sets the term |
| ManagePanels.Panel.HandleEdit | frontend/src/Pages/ManageStudents.js:38-41 | the session edits that record's id, with a buffer copied and the password cleared |
| ManagePanels.Panel.HandleChange | frontend/src/Pages/ManageStudents.js:43-46 | the buffer gets the change |
| ManagePanels.Panel.HandleSave | frontend/src/Pages/ManageStudents.js:48-65 | the payload is sent; success ends the session with a toast and refetches the list (a failed refetch keeps it and adds 'Failed to fetch ...'); failure keeps the session and the list with 'Update failed' |
| ManagePanels.Panel.HandleCancel | frontend/src/Pages/ManageStudents.js:67-70 | cancelling always ends the session |
| ManagePanels.Panel.HandleDelete | frontend/src/Pages/ManageStudents.js:72-84 | no request without confirmation; success removes that id's entries and keeps the rest in order; failure shows 'Delete failed' |
| Dashboard.Click | frontend/src/Pages/SuperAdminDashboard.js:59-63 | opening the modal shows it with ten seconds left and OK disabled |
| Dashboard.Step | frontend/src/Pages/SuperAdminDashboard.js:64-71 | one tick takes off exactly one second while the modal is shown; at zero it enables OK; the invariant is kept |
| Dashboard.Run | frontend/src/Pages/SuperAdminDashboard.js:64-71 | any number of ticks keeps the countdown invariant and never shows or hides the modal |
| Dashboard.RunSettled | frontend/src/Pages/SuperAdminDashboard.js:68-70 | once OK is enabled at zero nothing changes any more |
| Dashboard.RunCounts | frontend/src/Pages/SuperAdminDashboard.js:64-71 | after n ticks s - n seconds are left, never below zero, and OK is enabled only after more than s ticks |
| Dashboard.CountdownFromClick | frontend/src/Pages/SuperAdminDashboard.js:59-71 | after a click, OK is enabled after eleven ticks and not before |
| Dashboard.RunKeeps | frontend/src/Pages/SuperAdminDashboard.js:64-71 | every reachable countdown keeps 0..10 seconds and OK only at zero |
| Dashboard.ProfileUrl | frontend/src/Pages/SuperAdminDashboard.js:165-169 | a `/uploads/` path is put after the host; anything else, including '' or a missing value, after `/uploads/` |
| Dashboard.ProfileUrlShowsStoredFile | frontend/src/Pages/SuperAdminDashboard.js:165-169 | both the public path and the bare name of a stored picture give the URL of the written file |
| Dashboard.GeneratedNameIsBare | backend/middleware/upload.js:9 | a generated file name never starts with `/uploads/` |
| Dashboard.NoPictureUrl | frontend/src/Pages/SuperAdminDashboard.js:165-169 | without a picture the URL is the uploads directory, or `/uploads/undefined` |
| Dashboard.ErrorText | frontend/src/Pages/SuperAdminDashboard.js:112 | the toast is the server's message or the fallback, and is never empty when the fallback is not |
| Dashboard.SuperAdminDashboard.HandleClick | frontend/src/Pages/SuperAdminDashboard.js:59-63 | the countdown state becomes the clicked state |
| Dashboard.SuperAdminDashboard.Tick | frontend/src/Pages/SuperAdminDashboard.js:64-71 | the countdown state takes one step |
| Dashboard.SuperAdminDashboard.CloseModal | frontend/src/Pages/SuperAdminDashboard.js:290 | closing hides the modal and leaves the count as it is |
| Dashboard.SuperAdminDashboard.HandleTrainerChange | frontend/src/Pages/SuperAdminDashboard.js:84 | the named form field takes the value |
| Dashboard.SuperAdminDashboard.HandleTrainerFile | frontend/src/Pages/SuperAdminDashboard.js:85-89 | the picked picture and its preview are kept |
| Dashboard.SuperAdminDashboard.HandleTrainerSubmit | frontend/src/Pages/SuperAdminDashboard.js:91-114 | the form and picture are sent; success resets every field, the picture and the preview; failure keeps them and shows the message |
| Dashboard.SuperAdminDashboard.HandleStudentDocs | frontend/src/Pages/SuperAdminDashboard.js:122-129 | 2 to 5 files replace the selection; any other count keeps the previous one and shows 'Upload 2 to 5 documents' |
| Dashboard.PictureWithFiveDocumentsFails | frontend/src/Pages/SuperAdminDashboard.js:134-137 | a picture and five documents, a selection the picker keeps, are six files, which the server's `files: 5` limit refuses |

## Left out

- Salts and cost: `Hash` is a deterministic, injective tag. bcrypt's random salt, its 72-byte truncation and its fixed 60-character length are not modelled; the bound `|Hash(p)| > |p|` holds only for this stand-in.
- Token expiry and signature checking: the token is its `(id, role)` payload. The auth middleware is given as its outcome, and `backend/middleware/authMiddleware.js` is not part of this model.
- Invalid ObjectId strings: ids are natural numbers, so the cast errors Mongoose raises for malformed ids are not modelled.
- Mongoose casts of `age` (Number) and `dateOfJoin` (Date) are not modelled. Dates are kept as strings, and the age input is modelled as an already-cast `Option<int>`.
- JSON `null` is not told apart from an absent field: both are `None`, which a query drops as Mongoose drops `undefined`, whereas Mongoose matches `null` only against documents without the path. Paths outside the schema (`address`) are not stored; strict mode drops them.
- `Routes.Server.UploadVideo`: the reply's `error: err.message` detail is not modelled.
- Multer internals are not modelled: the streaming, partial writes before an error and their cleanup timing. An upload error is modelled as writing no files, followed by Express's default 500 reply.
- Server start-up, the static file server and the database connection (`backend/server.js`) are not modelled.
- `StudentDashboard.js`, `TrainerDashboard .js` and `SuperAdminRegister.js` are not modelled. They only render and assemble form data, and the routes they call are modelled.
- The printed profile's HTML, `toLocaleDateString`, toasts' timing, `setTimeout` delays and React rendering are not modelled.
- Each fetch on mount is the `Load` method, called with the fetch's result.
- The student registration form and its reset are not modelled.
- `Text.Lower`: lower-casing covers ASCII letters only, with no Unicode case mapping.
- Upload.Run: `originalname` is taken as busboy reports it. busboy's base-name step (with `preservePath` false it cuts through the last `/` or `\`, and turns `.` and `..` into '', so multer then skips the part) is not modelled; a part is skipped only when its name is ''.
- Routes.Server.EditStudent, Routes.Server.DeleteVideo: `NoReply` assumes Express 4, where a rejected async handler leaves the request unanswered and the process keeps running; Express 5 would answer 500 and Node's default for an unhandled rejection would stop the process.
- Timestamps: the `createdAt` and `updatedAt` paths that `{ timestamps: true }` adds, and the `__v` version key, are not modelled.
- Concurrency is not modelled: concurrent requests and the race between concurrent `findOne` and `save` calls on the same email.
- `ManagePanels.Panel.HandleChange`: the age input's text-to-number cast is not modelled; the new age is given as a number.
