/** The contributor's upload form: the file picker's accepted types, the
    storage paths built from the user, the type, the time and the file's
    extension, and the submit handler that uploads the file, then the
    optional cover, then inserts the row, stopping at the first failure. */
module ContentUpload {
  import opened Common
  import opened Text
  import opened Tags
  import opened ContentRecords

  /** The extensions the file picker accepts for each type. */
  function AcceptedExtensions(t: ContentType): seq<string> {
    match t
    case Book => ["pdf", "epub", "doc", "docx"]
    case Audio => ["mp3", "wav", "ogg", "m4a"]
    case Video => ["mp4", "webm", "mov"]
  }

  /** `getAcceptedFileTypes`, the picker's `accept` attribute: the type's
      extensions, each after a dot, joined by commas (".pdf,.epub,.doc,.docx"
      for a book). */
  function AcceptedFileTypes(t: ContentType): string {
    Join(Prefixed(AcceptedExtensions(t), "."), ",")
  }

  /** Reading the `accept` attribute back as the browser does, by splitting
      on commas, gives one ".ext" entry per accepted extension, in order;
      the extension a file named after an entry reports is that
      extension. */
  lemma AcceptedFileTypesListsExtensions(t: ContentType)
    ensures Split(AcceptedFileTypes(t), ',') == Prefixed(AcceptedExtensions(t), ".")
    ensures forall i :: 0 <= i < |AcceptedExtensions(t)| ==>
      AfterLastDot(Prefixed(AcceptedExtensions(t), ".")[i]) == AcceptedExtensions(t)[i]
  {
    var es := AcceptedExtensions(t);
    var p := Prefixed(es, ".");
    forall i | 0 <= i < |p| ensures ',' !in p[i] && '.' !in es[i] {
    }
    SplitJoin(p, ',');
    forall i | 0 <= i < |es| ensures AfterLastDot(p[i]) == es[i] {
      AfterLastDotOf("", es[i]);
      assert "" + "." + es[i] == p[i];
    }
  }

  lemma JoinThree(a: string, b: string, c: string, sep: string)
    ensures Join([a, b, c], sep) == a + sep + b + sep + c
  {
    assert [a, b, c][1..] == [b, c];
    assert [b, c][1..] == [c];
    assert Join([b, c], sep) == b + sep + c;
    assert a + sep + (b + sep + c) == a + sep + b + sep + c;
  }

  lemma JoinFour(a: string, b: string, c: string, d: string, sep: string)
    ensures Join([a, b, c, d], sep) == a + sep + b + sep + c + sep + d
  {
    assert [a, b, c, d][1..] == [b, c, d];
    JoinThree(b, c, d, sep);
    assert a + sep + (b + sep + c + sep + d) == a + sep + b + sep + c + sep + d;
  }

  /** No extension is accepted for two types. */
  lemma AcceptedExtensionsDisjoint(a: ContentType, b: ContentType, e: string)
    requires a != b
    ensures !(e in AcceptedExtensions(a) && e in AcceptedExtensions(b))
  {
  }

  /** The `content_type` value as it appears in a path. */
  function TypeName(t: ContentType): string {
    match t
    case Book => "book"
    case Audio => "audio"
    case Video => "video"
  }

  /** `file.name.split('.').pop()`. */
  function FileExtension(name: string): string {
    AfterLastDot(name)
  }

  function DigitChar(d: nat): (c: char)
    requires d < 10
    ensures '0' <= c <= '9'
  {
    (48 + d) as char
  }

  /** A millisecond count written in decimal, as a template literal does. */
  function Decimal(n: nat): (r: string)
    ensures |r| >= 1 && forall i :: 0 <= i < |r| ==> '0' <= r[i] <= '9'
    decreases n
  {
    if n < 10 then [DigitChar(n)] else Decimal(n / 10) + [DigitChar(n % 10)]
  }

  /** `${user.id}/${contentType}/${Date.now()}.${fileExt}`. */
  function ContentPath(userId: Id, t: ContentType, now: nat, fileName: string): string {
    userId + "/" + TypeName(t) + "/" + Decimal(now) + "." + FileExtension(fileName)
  }

  /** `${user.id}/covers/${Date.now()}.${coverExt}`. */
  function CoverPath(userId: Id, now: nat, fileName: string): string {
    userId + "/covers/" + Decimal(now) + "." + FileExtension(fileName)
  }

  /** The content path has three folders: the user's id, the type and the
      stamped file name, and the stored object keeps the file's extension
      (the whole name when it has no dot). */
  lemma ContentPathShape(userId: Id, t: ContentType, now: nat, fileName: string)
    requires '/' !in userId && '/' !in fileName
    ensures var ext := FileExtension(fileName);
      && Split(ContentPath(userId, t, now, fileName), '/') == [userId, TypeName(t), Decimal(now) + "." + ext]
      && FileExtension(ContentPath(userId, t, now, fileName)) == ext
      && ('.' !in fileName ==> ext == fileName)
  {
    var ext := FileExtension(fileName);
    AfterLastDotMeaning(fileName);
    var last := Decimal(now) + "." + ext;
    StampedNameFree(now, ext);
    var parts := [userId, TypeName(t), last];
    JoinThree(userId, TypeName(t), last, "/");
    assert ContentPath(userId, t, now, fileName) == Join(parts, "/");
    SplitJoin(parts, '/');
    assert ContentPath(userId, t, now, fileName) == userId + "/" + TypeName(t) + "/" + Decimal(now) + "." + ext;
    AfterLastDotOf(userId + "/" + TypeName(t) + "/" + Decimal(now), ext);
  }

  /** The cover path has the folders user id, `covers` and the stamped
      file name, and keeps the cover's extension. */
  lemma CoverPathShape(userId: Id, now: nat, fileName: string)
    requires '/' !in userId && '/' !in fileName
    ensures var ext := FileExtension(fileName);
      && Split(CoverPath(userId, now, fileName), '/') == [userId, "covers", Decimal(now) + "." + ext]
      && FileExtension(CoverPath(userId, now, fileName)) == ext
  {
    var ext := FileExtension(fileName);
    AfterLastDotMeaning(fileName);
    var last := Decimal(now) + "." + ext;
    StampedNameFree(now, ext);
    var parts := [userId, "covers", last];
    JoinThree(userId, "covers", last, "/");
    assert CoverPath(userId, now, fileName) == Join(parts, "/");
    SplitJoin(parts, '/');
    AfterLastDotOf(userId + "/covers/" + Decimal(now), ext);
  }

  /** A stamped file name has no folder separator when the extension has
      none. */
  lemma StampedNameFree(now: nat, ext: string)
    requires '/' !in ext
    ensures '/' !in Decimal(now) + "." + ext
  {
    var d := Decimal(now);
    var s := d + "." + ext;
    forall i | 0 <= i < |s| ensures s[i] != '/' {
      if i >= |d| + 1 {
        assert s[i] == ext[i - |d| - 1];
      }
    }
  }

  /** A picked file; only its name is used. */
  datatype FileInfo = FileInfo(name: string)

  /** The row the form inserts. It carries no status, notes or
      publication time: those come from the table's column defaults,
      which are not part of the client code. */
  datatype NewContent = NewContent(
    contributorId: Id, ctype: ContentType, title: string, description: string,
    author: string, language: string, tags: seq<string>, fileUrl: string,
    coverImageUrl: Option<string>)

  /** The row as stored, assuming the column defaults `pending`, null
      and null for status, notes and publication time. */
  function Inserted(id: Id, n: NewContent): Content {
    Content(id, n.contributorId, n.ctype, n.title, Some(n.description), Some(n.author),
            Some(n.language), Some(n.tags), Some(n.fileUrl), n.coverImageUrl,
            Pending, None, None)
  }

  /** Under those column defaults a new row starts in a consistent
      state, and it keeps the id, the type and the contributor it was
      inserted with. */
  lemma InsertedStartsPending(id: Id, n: NewContent)
    ensures var c := Inserted(id, n);
      c.status == Pending && c.adminNotes == None && c.publishedAt == None && Consistent(c)
      && c.id == id && c.ctype == n.ctype && c.contributorId == n.contributorId
  {
  }

  /** The calls the submit handler makes, in order. */
  datatype UploadCall = PutObject(path: string) | InsertContent(row: NewContent)

  datatype UploadResult = Blocked | NotSignedIn | NoFile | Failed | Uploaded

  /** The form's fields at the moment of submitting. */
  datatype UploadFields = UploadFields(
    contentType: ContentType, title: string, description: string, author: string,
    language: string, tags: string, file: Option<FileInfo>, coverImage: Option<FileInfo>)

  /** The row inserted for these fields. */
  function Row(f: UploadFields, userId: Id, fileUrl: string, coverUrl: Option<string>): NewContent {
    NewContent(userId, f.contentType, f.title, f.description, f.author, f.language,
               ParseTags(f.tags), fileUrl, coverUrl)
  }

  /** The calls `handleSubmit` makes for a signed-in user with a file:
      the upload of the file, then the upload of the cover if one is
      chosen, then the insert, each only when the one before succeeded.
      The inserted row carries the user, the untouched text fields, the
      parsed tags and a cover URL exactly when a cover was chosen. */
  function PlannedCalls(f: UploadFields, uid: Id, mainStamp: nat, coverStamp: nat,
                        publicUrl: string -> string, mainOk: bool, coverOk: bool): (r: seq<UploadCall>)
    requires f.file.Some?
    ensures 1 <= |r| <= 3
    ensures r[0] == PutObject(ContentPath(uid, f.contentType, mainStamp, f.file.value.name))
    ensures !mainOk ==> |r| == 1
    ensures mainOk ==> |r| >= 2
    ensures mainOk && f.coverImage.Some? ==> r[1] == PutObject(CoverPath(uid, coverStamp, f.coverImage.value.name))
    ensures r[|r| - 1].InsertContent? <==> mainOk && (f.coverImage.None? || coverOk)
    ensures forall i :: 0 <= i < |r| - 1 ==> r[i].PutObject?
    ensures r[|r| - 1].InsertContent? ==>
      var row := r[|r| - 1].row;
      && row.contributorId == uid && row.ctype == f.contentType && row.title == f.title
      && row.description == f.description && row.author == f.author && row.language == f.language
      && row.tags == ParseTags(f.tags)
      && row.fileUrl == publicUrl(ContentPath(uid, f.contentType, mainStamp, f.file.value.name))
      && (row.coverImageUrl.None? <==> f.coverImage.None?)
  {
    var mainPath := ContentPath(uid, f.contentType, mainStamp, f.file.value.name);
    if !mainOk then [PutObject(mainPath)]
    else if f.coverImage.None? then
      [PutObject(mainPath), InsertContent(Row(f, uid, publicUrl(mainPath), None))]
    else
      var coverPath := CoverPath(uid, coverStamp, f.coverImage.value.name);
      [PutObject(mainPath), PutObject(coverPath)]
      + if coverOk then [InsertContent(Row(f, uid, publicUrl(mainPath), Some(publicUrl(coverPath))))] else []
  }

  /** The fields after a reset: text and files empty, language English,
      type kept. */
  function ResetFields(f: UploadFields): UploadFields {
    UploadFields(f.contentType, "", "", "", "English", "", None, None)
  }

  class UploadForm {
    var isSubmitting: bool
    var contentType: ContentType
    var title: string
    var description: string
    var author: string
    var language: string
    var tags: string
    var file: Option<FileInfo>
    var coverImage: Option<FileInfo>

    constructor ()
      ensures !isSubmitting && Fields() == ResetFields(Fields()) && contentType == Book
    {
      isSubmitting := false;
      contentType := Book;
      title, description, author, language, tags := "", "", "", "English", "";
      file, coverImage := None, None;
    }

    function Fields(): UploadFields
      reads this
    {
      UploadFields(contentType, title, description, author, language, tags, file, coverImage)
    }

    /** The form reset after a successful upload. */
    method Reset()
      modifies this
      ensures Fields() == ResetFields(old(Fields())) && isSubmitting == old(isSubmitting)
    {
      title, description, author, language, tags := "", "", "", "English", "";
      file, coverImage := None, None;
    }

    /** `handleSubmit`. `mainStamp` and `coverStamp` are the two readings of
        the clock, `publicUrl` is `getPublicUrl`, and `mainOk`, `coverOk` and
        `insertOk` the outcomes of the upload of the file, of the cover and
        of the insert. An empty title fails the input's `required`
        constraint, so the browser never calls the handler. Without a user
        or a file nothing is called and nothing changes; otherwise the calls are the planned ones, a success
        resets the form (keeping the type), a failure keeps every field,
        and `isSubmitting` ends false. */
    method Submit(user: Option<Account>, mainStamp: nat, coverStamp: nat, publicUrl: string -> string,
                  mainOk: bool, coverOk: bool, insertOk: bool)
      returns (result: UploadResult, calls: seq<UploadCall>)
      modifies this
      ensures old(title) == "" ==> result == Blocked && calls == []
      ensures old(title) != "" && user.None? ==> result == NotSignedIn && calls == []
      ensures old(title) != "" && user.Some? && old(file).None? ==> result == NoFile && calls == []
      ensures old(title) != "" && user.Some? && old(file).Some? ==>
        calls == PlannedCalls(old(Fields()), user.value.id, mainStamp, coverStamp, publicUrl, mainOk, coverOk)
      ensures result == Uploaded <==>
        old(title) != "" && user.Some? && old(file).Some? && mainOk && (old(coverImage).None? || coverOk) && insertOk
      ensures Fields() == if result == Uploaded then ResetFields(old(Fields())) else old(Fields())
      ensures result == Blocked || result == NotSignedIn || result == NoFile ==> isSubmitting == old(isSubmitting)
      ensures result == Failed || result == Uploaded ==> !isSubmitting
    {
      var f := Fields();
      if title == "" {
        return Blocked, [];
      }
      if user.None? {
        return NotSignedIn, [];
      }
      if file.None? {
        return NoFile, [];
      }
      var uid := user.value.id;
      var mainPath := ContentPath(uid, f.contentType, mainStamp, f.file.value.name);
      calls := [PutObject(mainPath)];
      result := Failed;
      if mainOk {
        var coverUrl: Option<string> := None;
        var coverStored := true;
        if f.coverImage.Some? {
          var coverPath := CoverPath(uid, coverStamp, f.coverImage.value.name);
          calls := calls + [PutObject(coverPath)];
          coverStored := coverOk;
          coverUrl := Some(publicUrl(coverPath));
        }
        if coverStored {
          calls := calls + [InsertContent(Row(f, uid, publicUrl(mainPath), coverUrl))];
        }
      }
      assert calls == PlannedCalls(f, uid, mainStamp, coverStamp, publicUrl, mainOk, coverOk);
      isSubmitting := true;
      if mainOk && (f.coverImage.None? || coverOk) && insertOk {
        result := Uploaded;
        Reset();
      }
      isSubmitting := false;
    }
  }
}
