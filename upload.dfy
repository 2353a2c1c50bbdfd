/**
 * The upload gatekeeper: the two multer pipelines the routes put in front of
 * their handlers. Each has a destination directory, a filename rule, a MIME
 * filter and limits. Images whose type is not allowed are dropped without an
 * error; a video whose type is not allowed fails the whole request.
 *
 * `Receive` follows one request's file parts in order, the way multer handles
 * them: the files limit, then the per-field count of `.single`/`.fields`, then
 * the file filter, then the size limit. The first error fails the request and
 * leaves no file behind. `Date.now()` is each part's `receivedAt`.
 */
module Upload {
  import opened Wrappers
  import opened Text

  const ImageDestination: string := "uploads/"
  const VideoDestination: string := "uploads/videos/"

  const ImageMimeTypes: seq<string> := ["image/jpeg", "image/png", "image/jpg"]
  const VideoMimeTypes: seq<string> := ["video/mp4", "video/webm", "video/ogg"]
  const VideoTypeMessage: string := "Only MP4, WebM, or OGG video files are allowed"

  /** `limits: { files: 5 }` of the image pipeline. */
  const ImageMaxFiles: nat := 5
  /** `limits: { fileSize: 100 * 1024 * 1024 }` of the video pipeline, in bytes. */
  const VideoMaxFileSize: nat := 100 * 1024 * 1024

  /** `p` without its trailing slashes. */
  function TrimTrailingSlashes(p: string): (r: string)
    ensures |r| <= |p| && r == p[..|r|]
    ensures |r| > 0 ==> r[|r| - 1] != '/'
    ensures forall i :: |r| <= i < |p| ==> p[i] == '/'
    decreases |p|
  {
    if |p| > 0 && p[|p| - 1] == '/' then TrimTrailingSlashes(p[..|p| - 1]) else p
  }

  /** The last path segment: everything after the last `/`. */
  function Basename(p: string): (b: string)
    ensures EndsWith(p, b)
    ensures forall i :: 0 <= i < |b| ==> b[i] != '/'
  {
    var k := LastIndexOf(p, '/');
    assert p[|p| - |p[k + 1..]|..] == p[k + 1..];
    p[k + 1..]
  }

  /** The last segment is the longest slash-free suffix: unless it is the whole path, a `/` precedes it. */
  lemma BasenameAfterSlash(p: string)
    ensures Basename(p) != p ==> p[|p| - |Basename(p)| - 1] == '/'
  {
  }

  /**
   * Node's `path.extname`: from the last `.` of the final segment (trailing
   * slashes ignored) to its end; empty when that segment has no `.`, when its
   * only `.`s lead it, or when it is `..`.
   */
  function ExtName(path: string): (ext: string)
    ensures ext == "" || ext[0] == '.'
    ensures forall i :: 0 < i < |ext| ==> ext[i] != '.'
    ensures forall i :: 0 <= i < |ext| ==> ext[i] != '/'
  {
    var trimmed := TrimTrailingSlashes(path);
    var base := Basename(trimmed);
    var dot := LastIndexOf(base, '.');
    if dot <= 0 || base == ".." then ""
    else
      LastDotSuffix(base, dot);
      base[dot..]
  }

  /** The part of a segment from its last `.` starts with that `.` and holds no other `.` and no `/`. */
  lemma LastDotSuffix(base: string, dot: int)
    requires 0 <= dot < |base| && base[dot] == '.'
    requires forall j :: dot < j < |base| ==> base[j] != '.'
    requires forall i :: 0 <= i < |base| ==> base[i] != '/'
    ensures base[dot..][0] == '.'
    ensures forall i :: 0 < i < |base[dot..]| ==> base[dot..][i] != '.'
    ensures forall i :: 0 <= i < |base[dot..]| ==> base[dot..][i] != '/'
  {
    assert forall i :: 0 <= i < |base| - dot ==> base[dot..][i] == base[dot + i];
  }

  /** `s` has no occurrence of `c`. */
  predicate Lacks(s: string, c: char) {
    forall i :: 0 <= i < |s| ==> s[i] != c
  }

  lemma LacksConcat(a: string, b: string, c: char)
    ensures Lacks(a + b, c) <==> Lacks(a, c) && Lacks(b, c)
  {
    assert forall i :: 0 <= i < |b| ==> b[i] == (a + b)[|a| + i];
    assert forall i :: 0 <= i < |a| ==> a[i] == (a + b)[i];
  }

  /** A path without slashes is its own last segment. */
  lemma SegmentOfPlainName(p: string)
    requires Lacks(p, '/')
    ensures TrimTrailingSlashes(p) == p
    ensures Basename(p) == p
  {
    assert LastIndexOf(p, '/') == -1;
  }

  /** An ordinary file name `stem.ext` has the extension `.ext`. */
  lemma ExtNameOfName(stem: string, ext: string)
    requires stem != "" && Lacks(stem, '/')
    requires Lacks(ext, '.') && Lacks(ext, '/')
    requires !(stem == "." && ext == "")
    ensures ExtName(stem + "." + ext) == "." + ext
  {
    var path := stem + ("." + ext);
    assert path == stem + "." + ext;
    LacksConcat(".", ext, '/');
    LacksConcat(stem, "." + ext, '/');
    assert path[|stem| + 1..] == ext;
    LastIndexOfAt(path, |stem|, '.');
    assert path != ".." by {
      if |path| == 2 {
        assert stem == path[..1];
      }
    }
    ExtNameOfSegmentAt(path, |stem|);
    assert path[|stem|..] == "." + ext;
  }

  /** A single segment whose last `.` does not lead it has the extension from that `.` on. */
  lemma ExtNameOfSegmentAt(base: string, dot: int)
    requires Lacks(base, '/') && 0 < dot && LastIndexOf(base, '.') == dot && base != ".."
    ensures ExtName(base) == base[dot..]
  {
    SegmentOfPlainName(base);
  }

  /** The last occurrence of `c` is at `i` when `c` is at `i` and not after it. */
  lemma LastIndexOfAt(s: string, i: nat, c: char)
    requires i < |s| && s[i] == c && Lacks(s[i + 1..], c)
    ensures LastIndexOf(s, c) == i
  {
  }

  /** A name without any `.` has no extension. */
  lemma ExtNameEmpty(name: string)
    requires Lacks(name, '.') && Lacks(name, '/')
    ensures ExtName(name) == ""
  {
    assert LastIndexOf(name, '.') == -1;
    ExtNameOfSegment(name);
  }

  /** Nor has a dot-file such as `.bashrc`. */
  lemma ExtNameDotFile(name: string)
    requires Lacks(name, '.') && Lacks(name, '/')
    ensures ExtName("." + name) == ""
  {
    var dotted := "." + name;
    LacksConcat(".", name, '/');
    assert dotted[1..] == name;
    LastIndexOfAt(dotted, 0, '.');
    ExtNameOfSegment(dotted);
  }

  /** A single segment whose only `.` may lead it has no extension. */
  lemma ExtNameOfSegment(base: string)
    requires Lacks(base, '/') && LastIndexOf(base, '.') <= 0
    ensures ExtName(base) == ""
  {
    SegmentOfPlainName(base);
  }


  /** The `filename` callback of both storages: `${Date.now()}-${fieldname}${extname(originalname)}`. */
  function FileName(now: nat, fieldname: string, originalname: string): (name: string)
    ensures |name| > |fieldname| && IsDigit(name[0])
    ensures EndsWith(name, fieldname + ExtName(originalname))
  {
    StampedLeadingDigit(now, fieldname + ExtName(originalname));
    Stamped(now, fieldname + ExtName(originalname))
  }

  /** `rest` after the decimal timestamp and a `-`. */
  function Stamped(now: nat, rest: string): string {
    Decimal(now) + "-" + rest
  }

  /**
   * Names only collide within one millisecond: files received at different
   * times always get different names, whatever their fields and original names.
   */
  lemma {:induction false} FileNameTimestamp(now1: nat, field1: string, name1: string,
                                             now2: nat, field2: string, name2: string)
    ensures FileName(now1, field1, name1) == FileName(now2, field2, name2) ==> now1 == now2
  {
    StampedInjective(now1, field1 + ExtName(name1), now2, field2 + ExtName(name2));
  }

  /** A stored name is its timestamp, a `-`, the field name and the extension. */
  lemma FileNameSplit(now: nat, fieldname: string, originalname: string)
    ensures FileName(now, fieldname, originalname) == (Decimal(now) + "-" + fieldname) + ExtName(originalname)
  {
  }

  /** A stored name starts with a digit of its timestamp. */
  lemma StampedLeadingDigit(now: nat, rest: string)
    ensures |Stamped(now, rest)| > 0 && IsDigit(Stamped(now, rest)[0])
  {
    var d := Decimal(now);
    assert IsDigit(d[0]);
    assert Stamped(now, rest)[0] == d[0];
  }

  /** The timestamp before the first `-` determines the time. */
  lemma StampedInjective(now1: nat, r1: string, now2: nat, r2: string)
    ensures Stamped(now1, r1) == Stamped(now2, r2) ==> now1 == now2
  {
    if Stamped(now1, r1) == Stamped(now2, r2) {
      assert Stamped(now1, r1) == Decimal(now1) + ("-" + r1);
      assert Stamped(now2, r2) == Decimal(now2) + ("-" + r2);
      DigitsBeforeDash(Decimal(now1), r1, Decimal(now2), r2);
      DecimalInjective(now1, now2);
    }
  }

  /** A run of digits ended by `-` can be read off unambiguously. */
  lemma DigitsBeforeDash(d1: string, r1: string, d2: string, r2: string)
    requires AllDigits(d1) && AllDigits(d2)
    requires d1 + ("-" + r1) == d2 + ("-" + r2)
    ensures d1 == d2
  {
    var s := d1 + ("-" + r1);
    assert s[|d1|] == '-';
    assert s[|d2|] == '-';
    assert |d1| == |d2|;
    assert s[..|d1|] == d1;
    assert s[..|d2|] == d2;
  }

  /** What a file filter tells multer: store the file, skip it silently, or fail the request. */
  datatype Verdict = Keep | Drop | Fail(message: string)

  datatype FileFilter = ImageFileFilter | VideoFileFilter

  /** `imageFileFilter` and `videoFileFilter`. */
  function Check(filter: FileFilter, mimetype: string): (v: Verdict)
    ensures filter == ImageFileFilter ==> !v.Fail?
    ensures filter == VideoFileFilter ==> !v.Drop?
  {
    match filter
    case ImageFileFilter => if mimetype in ImageMimeTypes then Keep else Drop
    case VideoFileFilter => if mimetype in VideoMimeTypes then Keep else Fail(VideoTypeMessage)
  }

  /** A filter keeps a file exactly when its type is one of the filter's listed types. */
  lemma CheckKeepsListed(filter: FileFilter, mimetype: string)
    ensures Check(filter, mimetype) == Keep <==> mimetype in (if filter == ImageFileFilter then ImageMimeTypes else VideoMimeTypes)
  {
  }

  datatype Limits = Limits(files: Option<nat>, fileSize: Option<nat>)

  /** A multer instance: its storage's destination, its file filter and its limits. */
  datatype Config = Config(destination: string, fileFilter: FileFilter, limits: Limits)

  const ImageUpload: Config := Config(ImageDestination, ImageFileFilter, Limits(Some(ImageMaxFiles), None))
  const VideoUpload: Config := Config(VideoDestination, VideoFileFilter, Limits(None, Some(VideoMaxFileSize)))

  /** One file part of a multipart request. */
  datatype FilePart = FilePart(fieldname: string, originalname: string, mimetype: string, size: nat, receivedAt: nat)

  /** A file multer has written, as `req.file` / `req.files` describe it. */
  datatype StoredFile = StoredFile(fieldname: string, originalname: string, mimetype: string, size: nat,
                                   destination: string, filename: string)
  {
    function Path(): string {
      destination + filename
    }
  }

  datatype UploadError =
    | FileCountLimit            // LIMIT_FILE_COUNT
    | UnexpectedField(field: string)  // LIMIT_UNEXPECTED_FILE
    | FilterError(message: string)   // the error the file filter raised
    | FileSizeLimit(field: string)   // LIMIT_FILE_SIZE

  /** How many more files each field accepts: `.single(name)` or `.fields([...])`. */
  type Allowance = map<string, nat>

  function Single(field: string): Allowance {
    map[field := 1]
  }

  function Left(allowance: Allowance, field: string): nat {
    if field in allowance then allowance[field] else 0
  }

  function Store(cfg: Config, part: FilePart): (f: StoredFile)
    ensures f.filename == FileName(part.receivedAt, part.fieldname, part.originalname)
    ensures f.destination == cfg.destination
    ensures f.fieldname == part.fieldname && f.mimetype == part.mimetype && f.size == part.size
  {
    StoredFile(part.fieldname, part.originalname, part.mimetype, part.size,
               cfg.destination, FileName(part.receivedAt, part.fieldname, part.originalname))
  }

  /** The files one request leaves on disk, or the error that failed it; `seen` counts earlier parts. */
  function Receive(cfg: Config, allowance: Allowance, parts: seq<FilePart>, seen: nat): (r: Result<seq<StoredFile>, UploadError>)
    decreases |parts|
  {
    if parts == [] then Success([])
    else
      var part := parts[0];
      if cfg.limits.files.Some? && seen + 1 > cfg.limits.files.value then Failure(FileCountLimit)
      else if part.originalname == "" then Receive(cfg, allowance, parts[1..], seen + 1)
      else if Left(allowance, part.fieldname) == 0 then Failure(UnexpectedField(part.fieldname))
      else
        var allowance' := allowance[part.fieldname := Left(allowance, part.fieldname) - 1];
        match Check(cfg.fileFilter, part.mimetype)
        case Fail(message) => Failure(FilterError(message))
        case Drop => Receive(cfg, allowance', parts[1..], seen + 1)
        case Keep =>
          if cfg.limits.fileSize.Some? && part.size > cfg.limits.fileSize.value then
            Failure(FileSizeLimit(part.fieldname))
          else
            match Receive(cfg, allowance', parts[1..], seen + 1)
            case Failure(e) => Failure(e)
            case Success(rest) => Success([Store(cfg, part)] + rest)
  }

  /** A request's upload middleware run. */
  function Run(cfg: Config, allowance: Allowance, parts: seq<FilePart>): (r: Result<seq<StoredFile>, UploadError>)
    ensures r.Success? ==> |r.value| <= |parts|
  {
    ReceiveAccepts(cfg, allowance, parts, 0);
    Receive(cfg, allowance, parts, 0)
  }

  /** A part the filter keeps: it has a file name and an allowed type. */
  predicate Admitted(cfg: Config, part: FilePart) {
    part.originalname != "" && Check(cfg.fileFilter, part.mimetype) == Keep
  }

  /** The files written for the admitted parts, in the order the parts arrived. */
  function Accepted(cfg: Config, parts: seq<FilePart>): (files: seq<StoredFile>)
    ensures |files| <= |parts|
    ensures forall k :: 0 <= k < |files| ==> files[k].destination == cfg.destination
    decreases |parts|
  {
    if parts == [] then []
    else (if Admitted(cfg, parts[0]) then [Store(cfg, parts[0])] else []) + Accepted(cfg, parts[1..])
  }

  /** Every stored name starts with a digit of its timestamp. */
  lemma {:induction false} AcceptedNamesLeadWithDigit(cfg: Config, parts: seq<FilePart>)
    ensures forall k :: 0 <= k < |Accepted(cfg, parts)| ==>
      |Accepted(cfg, parts)[k].filename| > 0 && IsDigit(Accepted(cfg, parts)[k].filename[0])
    decreases |parts|
  {
    if parts != [] {
      var part := parts[0];
      AcceptedNamesLeadWithDigit(cfg, parts[1..]);
      StampedLeadingDigit(part.receivedAt, part.fieldname + ExtName(part.originalname));
      AcceptedCons(cfg, parts);
    }
  }

  /** A request that gets through stores exactly its admitted parts, under their generated names, in order. */
  lemma {:induction false} ReceiveAccepts(cfg: Config, allowance: Allowance, parts: seq<FilePart>, seen: nat)
    ensures Receive(cfg, allowance, parts, seen).Success? ==> Receive(cfg, allowance, parts, seen).value == Accepted(cfg, parts)
    decreases |parts|
  {
    if parts != [] && Receive(cfg, allowance, parts, seen).Success? {
      var part := parts[0];
      AcceptedCons(cfg, parts);
      if part.originalname == "" {
        ReceiveAccepts(cfg, allowance, parts[1..], seen + 1);
      } else {
        ReceiveAccepts(cfg, allowance[part.fieldname := Left(allowance, part.fieldname) - 1], parts[1..], seen + 1);
        ReceiveNamed(cfg, allowance, parts, seen);
      }
    }
  }

  lemma AcceptedCons(cfg: Config, parts: seq<FilePart>)
    requires parts != []
    ensures Accepted(cfg, parts) == (if Admitted(cfg, parts[0]) then [Store(cfg, parts[0])] else []) + Accepted(cfg, parts[1..])
  {
  }

  /** A named part that gets through is stored when admitted and left out when dropped, ahead of the rest. */
  lemma ReceiveNamed(cfg: Config, allowance: Allowance, parts: seq<FilePart>, seen: nat)
    requires parts != [] && parts[0].originalname != ""
    requires Receive(cfg, allowance, parts, seen).Success?
    ensures var part := parts[0];
      var r := Receive(cfg, allowance[part.fieldname := Left(allowance, part.fieldname) - 1], parts[1..], seen + 1);
      && r.Success?
      && Receive(cfg, allowance, parts, seen).value == (if Admitted(cfg, part) then [Store(cfg, part)] else []) + r.value
  {
    var part := parts[0];
    var r := Receive(cfg, allowance[part.fieldname := Left(allowance, part.fieldname) - 1], parts[1..], seen + 1);
    if Check(cfg.fileFilter, part.mimetype) == Drop {
      assert [] + r.value == r.value;
    }
  }

  /** Every admitted part of a request that gets through is within the size limit. */
  lemma {:induction false} ReceiveWithinSize(cfg: Config, allowance: Allowance, parts: seq<FilePart>, seen: nat)
    requires cfg.limits.fileSize.Some?
    ensures Receive(cfg, allowance, parts, seen).Success? ==>
      forall k :: 0 <= k < |parts| && Admitted(cfg, parts[k]) ==> parts[k].size <= cfg.limits.fileSize.value
    decreases |parts|
  {
    if parts != [] && Receive(cfg, allowance, parts, seen).Success? {
      var part := parts[0];
      if part.originalname == "" {
        ReceiveWithinSize(cfg, allowance, parts[1..], seen + 1);
        ReceiveUnnamed(cfg, allowance, parts, seen);
      } else {
        ReceiveWithinSize(cfg, allowance[part.fieldname := Left(allowance, part.fieldname) - 1], parts[1..], seen + 1);
        ReceiveNamed(cfg, allowance, parts, seen);
        if Admitted(cfg, part) {
          ReceiveAdmittedSize(cfg, allowance, parts, seen);
        }
      }
      WithinSizeCons(cfg, parts, cfg.limits.fileSize.value);
    }
  }

  lemma WithinSizeCons(cfg: Config, parts: seq<FilePart>, limit: nat)
    requires parts != []
    requires Admitted(cfg, parts[0]) ==> parts[0].size <= limit
    requires forall k :: 0 <= k < |parts[1..]| && Admitted(cfg, parts[1..][k]) ==> parts[1..][k].size <= limit
    ensures forall k :: 0 <= k < |parts| && Admitted(cfg, parts[k]) ==> parts[k].size <= limit
  {
    forall k | 0 < k < |parts| && Admitted(cfg, parts[k]) ensures parts[k].size <= limit {
      assert parts[k] == parts[1..][k - 1];
    }
  }

  /** A part without a file name is skipped. */
  lemma ReceiveUnnamed(cfg: Config, allowance: Allowance, parts: seq<FilePart>, seen: nat)
    requires parts != [] && parts[0].originalname == ""
    requires Receive(cfg, allowance, parts, seen).Success?
    ensures Receive(cfg, allowance, parts, seen) == Receive(cfg, allowance, parts[1..], seen + 1)
  {
  }

  /** An admitted first part of a request that gets through is within the size limit. */
  lemma ReceiveAdmittedSize(cfg: Config, allowance: Allowance, parts: seq<FilePart>, seen: nat)
    requires cfg.limits.fileSize.Some? && parts != [] && Admitted(cfg, parts[0])
    requires Receive(cfg, allowance, parts, seen).Success?
    ensures parts[0].size <= cfg.limits.fileSize.value
  {
  }

  /** With a files limit, a request that gets through has no more parts than the limit. */
  lemma {:induction false} ReceiveWithinFileLimit(cfg: Config, allowance: Allowance, parts: seq<FilePart>, seen: nat)
    requires cfg.limits.files.Some?
    ensures Receive(cfg, allowance, parts, seen).Success? && parts != [] ==> seen + |parts| <= cfg.limits.files.value
    decreases |parts|
  {
    if parts != [] && !(seen + 1 > cfg.limits.files.value) {
      var part := parts[0];
      if part.originalname == "" {
        ReceiveWithinFileLimit(cfg, allowance, parts[1..], seen + 1);
      } else if Left(allowance, part.fieldname) != 0 {
        ReceiveWithinFileLimit(cfg, allowance[part.fieldname := Left(allowance, part.fieldname) - 1], parts[1..], seen + 1);
      }
    }
  }

  /** The image pipeline never fails a request over a file's type: such files are only left out. */
  lemma {:induction false} ImageTypeNeverFails(allowance: Allowance, parts: seq<FilePart>, seen: nat)
    ensures var r := Receive(ImageUpload, allowance, parts, seen);
      r.Failure? ==> r.error == FileCountLimit || r.error.UnexpectedField?
    decreases |parts|
  {
    if parts != [] && !(seen + 1 > ImageMaxFiles) {
      var part := parts[0];
      if part.originalname == "" {
        ImageTypeNeverFails(allowance, parts[1..], seen + 1);
      } else if Left(allowance, part.fieldname) != 0 {
        ImageTypeNeverFails(allowance[part.fieldname := Left(allowance, part.fieldname) - 1], parts[1..], seen + 1);
      }
    }
  }

  /** The number of files stored under one field name. */
  function CountField(files: seq<StoredFile>, field: string): nat {
    if files == [] then 0 else (if files[0].fieldname == field then 1 else 0) + CountField(files[1..], field)
  }

  /** No field gets more files than its `maxCount`: `.single` yields at most one file. */
  lemma {:induction false} ReceiveWithinAllowance(cfg: Config, allowance: Allowance, parts: seq<FilePart>, seen: nat, field: string)
    ensures Receive(cfg, allowance, parts, seen).Success? ==>
      CountField(Receive(cfg, allowance, parts, seen).value, field) <= Left(allowance, field)
    decreases |parts|
  {
    if parts != [] && !(cfg.limits.files.Some? && seen + 1 > cfg.limits.files.value) {
      var part := parts[0];
      if part.originalname == "" {
        ReceiveWithinAllowance(cfg, allowance, parts[1..], seen + 1, field);
      } else if Left(allowance, part.fieldname) != 0 {
        var allowance' := allowance[part.fieldname := Left(allowance, part.fieldname) - 1];
        ReceiveWithinAllowance(cfg, allowance', parts[1..], seen + 1, field);
        var r := Receive(cfg, allowance', parts[1..], seen + 1);
        assert Left(allowance', field) == Left(allowance, field) - (if field == part.fieldname then 1 else 0);
        if r.Success? && Check(cfg.fileFilter, part.mimetype) == Keep
           && !(cfg.limits.fileSize.Some? && part.size > cfg.limits.fileSize.value) {
          var f := Store(cfg, part);
          assert Receive(cfg, allowance, parts, seen) == Success([f] + r.value);
          CountCons(f, r.value, field);
        }
      }
    }
  }

  lemma CountCons(f: StoredFile, rest: seq<StoredFile>, field: string)
    ensures CountField([f] + rest, field) == (if f.fieldname == field then 1 else 0) + CountField(rest, field)
  {
    assert ([f] + rest)[1..] == rest;
  }

  /**
   * A video whose type is not one of the three fails the request with the
   * filter's error, where the same part sent to the image pipeline is dropped.
   */
  lemma FiltersDisagree(part: FilePart, field: string)
    requires part.originalname != "" && part.fieldname == field
    requires part.mimetype !in VideoMimeTypes && part.mimetype !in ImageMimeTypes
    ensures Run(VideoUpload, Single(field), [part]) == Failure(FilterError(VideoTypeMessage))
    ensures Run(ImageUpload, Single(field), [part]) == Success([])
  {
    assert [part][1..] == [];
    assert Check(ImageFileFilter, part.mimetype) == Drop;
    assert Receive(ImageUpload, Single(field)[field := 0], [], 1) == Success([]);
  }
}
