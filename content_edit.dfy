/** The contributor's edit dialog: the form is prefilled from a content
    row, validated and normalised on submit, and sent as one update whose
    status and notes follow the resubmission rule (a rejected item goes
    back to pending with its notes cleared). */
module ContentEdit {
  import opened Common
  import opened Text
  import opened Tags
  import opened ContentRecords

  const MaxTitle: nat := 200
  const MaxDescription: nat := 2000
  const MaxAuthor: nat := 200

  /** The validation failures, in the order the form's fields are checked. */
  datatype EditError = TitleRequired | TitleTooLong | DescriptionTooLong | AuthorTooLong

  /** The toast shown for the first failure. */
  function ErrorMessage(e: EditError): string {
    match e
    case TitleRequired => "Title is required"
    case TitleTooLong => "Title must be less than 200 characters"
    case DescriptionTooLong => "Description must be less than 2000 characters"
    case AuthorTooLong => "Author name must be less than 200 characters"
  }

  /** The five text fields of the form, as typed. */
  datatype EditFields = EditFields(title: string, description: string, author: string, language: string, tags: string)

  /** The schema's output: trimmed texts and parsed tags. */
  datatype ValidEdit = ValidEdit(title: string, description: string, author: string, language: string, tags: seq<string>)

  /** `contentSchema.safeParse`; zod's `min` and `max` compare JavaScript
      lengths, which count UTF-16 code units. */
  function Validate(f: EditFields): Result<ValidEdit, EditError> {
    var title := Trim(f.title);
    var description := Trim(f.description);
    var author := Trim(f.author);
    if Utf16Len(title) < 1 then Err(TitleRequired)
    else if Utf16Len(title) > MaxTitle then Err(TitleTooLong)
    else if Utf16Len(description) > MaxDescription then Err(DescriptionTooLong)
    else if Utf16Len(author) > MaxAuthor then Err(AuthorTooLong)
    else Ok(ValidEdit(title, description, author, f.language, ParseTagsCapped(f.tags)))
  }

  /** The form is valid exactly when the trimmed title has 1 to 200
      UTF-16 units, the trimmed description at most 2000 and the trimmed
      author at most 200; the edit then carries the trimmed texts and the
      capped tag parse. Otherwise the error is that of the first failing
      field in form order. Within the Basic Multilingual Plane the limits
      are limits on characters. */
  lemma ValidateSpec(f: EditFields)
    ensures var r := Validate(f);
      && (r.Ok? <==>
          1 <= Utf16Len(Trim(f.title)) <= MaxTitle && Utf16Len(Trim(f.description)) <= MaxDescription
          && Utf16Len(Trim(f.author)) <= MaxAuthor)
      && (r.Ok? ==> r.value == ValidEdit(Trim(f.title), Trim(f.description), Trim(f.author), f.language, ParseTagsCapped(f.tags)))
      && (r == Err(TitleRequired) <==> IsBlank(f.title))
      && (r == Err(TitleTooLong) <==> Utf16Len(Trim(f.title)) > MaxTitle)
      && (r == Err(DescriptionTooLong) <==>
          1 <= Utf16Len(Trim(f.title)) <= MaxTitle && Utf16Len(Trim(f.description)) > MaxDescription)
      && (r == Err(AuthorTooLong) <==>
          1 <= Utf16Len(Trim(f.title)) <= MaxTitle && Utf16Len(Trim(f.description)) <= MaxDescription
          && Utf16Len(Trim(f.author)) > MaxAuthor)
    ensures InBmp(Trim(f.title)) ==> (Utf16Len(Trim(f.title)) > MaxTitle <==> |Trim(f.title)| > MaxTitle)
  {
    Utf16LenOfBmp(Trim(f.title));
  }

  /** `content.status === 'rejected' ? 'pending' : content.status`. */
  function ResubmitStatus(s: Status): (r: Status)
    ensures s == Rejected ==> r == Pending
    ensures s != Rejected ==> r == s
  {
    if s == Rejected then Pending else s
  }

  /** The update the dialog sends: every edited column, the new status, and
      `admin_notes: null` exactly when the new status is pending. */
  function EditPatch(current: Status, v: ValidEdit): Patch {
    var st := ResubmitStatus(current);
    Patch(Some(v.title), Some(EmptyToNull(v.description)), Some(EmptyToNull(v.author)),
          Some(v.language), Some(v.tags), Some(st),
          if st == Pending then Some(None) else None, None)
  }

  /** What the edit does to the row: a rejected item is pending again; the
      notes are cleared exactly when the new status is pending (editing a
      pending item clears them too) and otherwise kept; empty texts are
      stored as null; type and publication time are never touched, so the
      state-machine invariant is kept. */
  lemma EditEffect(c: Content, v: ValidEdit)
    ensures var r := Apply(c, EditPatch(c.status, v));
      && r.status == ResubmitStatus(c.status)
      && r.status != Rejected
      && (r.status == Pending ==> r.adminNotes == None)
      && (r.status != Pending ==> r.adminNotes == c.adminNotes)
      && (r.description == None <==> v.description == "")
      && (r.author == None <==> v.author == "")
      && r.title == v.title && r.tags == Some(v.tags) && r.language == Some(v.language)
      && r.ctype == c.ctype && r.publishedAt == c.publishedAt
      && (Consistent(c) ==> Consistent(r))
  {
  }

  /** The prefill effect: `title`, `description || ''`, `author || ''`,
      `language || 'English'`, `tags?.join(', ') || ''`. */
  function PrefillFields(c: Content): EditFields {
    EditFields(
      c.title,
      NullToEmpty(c.description),
      NullToEmpty(c.author),
      if Truthy(c.language) then c.language.value else "English",
      if c.tags.Some? then TagsText(c.tags.value) else "")
  }

  /** A column as the edit dialog would store it: trimmed, within its
      limit, and null rather than empty. */
  predicate StoredText(s: Option<string>, limit: nat) {
    s.Some? ==> s.value != "" && IsTrimmed(s.value) && Utf16Len(s.value) <= limit
  }

  /** A row that is already in the shape the dialog stores. */
  predicate Normalised(c: Content) {
    && c.title != "" && IsTrimmed(c.title) && Utf16Len(c.title) <= MaxTitle
    && StoredText(c.description, MaxDescription)
    && StoredText(c.author, MaxAuthor)
    && Truthy(c.language)
    && c.tags.Some? && |c.tags.value| <= MaxTags
    && (forall i :: 0 <= i < |c.tags.value| ==> IsTag(c.tags.value[i]) && Utf16Len(c.tags.value[i]) <= MaxTagLength)
  }

  /** The prefilled texts of a normalised row are already trimmed. */
  lemma PrefillTextsTrimmed(c: Content)
    requires Normalised(c)
    ensures var f := PrefillFields(c);
      Trim(f.title) == f.title && Trim(f.description) == f.description && Trim(f.author) == f.author
  {
    var f := PrefillFields(c);
    TrimOfTrimmed(c.title);
    TrimOfTrimmed(f.description);
    TrimOfTrimmed(f.author);
  }

  /** The prefilled tag text of a normalised row parses back to its tags. */
  lemma PrefillTagsParse(c: Content)
    requires Normalised(c)
    ensures ParseTagsCapped(PrefillFields(c).tags) == c.tags.value
  {
    TagsRoundTrip(c.tags.value);
  }

  /** Opening the dialog on a normalised row gives a valid form whose
      output is the row's own texts and tags. */
  lemma PrefillValidates(c: Content)
    requires Normalised(c)
    ensures Validate(PrefillFields(c))
      == Ok(ValidEdit(c.title, NullToEmpty(c.description), NullToEmpty(c.author), c.language.value, c.tags.value))
  {
    PrefillTextsTrimmed(c);
    PrefillTagsParse(c);
  }

  /** Opening the dialog on a normalised row and saving without typing
      anything validates and writes the row back unchanged, apart from the
      resubmission rule for status and notes. */
  lemma PrefillSubmitUnchanged(c: Content)
    requires Normalised(c)
    ensures var r := Validate(PrefillFields(c));
      && r.Ok?
      && Apply(c, EditPatch(c.status, r.value))
         == c.(status := ResubmitStatus(c.status),
               adminNotes := if ResubmitStatus(c.status) == Pending then None else c.adminNotes)
  {
    var v := ValidEdit(c.title, NullToEmpty(c.description), NullToEmpty(c.author), c.language.value, c.tags.value);
    PrefillValidates(c);
    assert Validate(PrefillFields(c)) == Ok(v);
    var r := Apply(c, EditPatch(c.status, v));
    assert r.description == c.description && r.author == c.author;
  }

  /** What a submit did before its request completes. */
  datatype SubmitStart = Blocked | NoContent | Invalid(error: EditError) | Sent(request: Request)

  /** The dialog's state. `open` is the visibility the parent controls
      through `onOpenChange`; `notified` counts `onSuccess` calls. */
  class EditDialog {
    var isSubmitting: bool
    var fields: EditFields
    var open: bool
    var notified: nat

    constructor ()
      ensures !isSubmitting && !open && notified == 0
      ensures fields == EditFields("", "", "", "English", "")
    {
      isSubmitting := false;
      fields := EditFields("", "", "", "English", "");
      open := false;
      notified := 0;
    }

    /** The effect run when the `content` prop changes. */
    method Prefill(content: Option<Content>)
      modifies this`fields
      ensures content.Some? ==> fields == PrefillFields(content.value)
      ensures content.None? ==> fields == old(fields)
    {
      if content.Some? {
        fields := PrefillFields(content.value);
      }
    }

    /** A submit of the form: an empty title fails the input's `required`
        constraint, so the browser never calls `handleSubmit`. Then, up to
        the update call: no content or an invalid form sends nothing and
        changes nothing; otherwise the update for the content's id is sent
        and `isSubmitting` is set. */
    method BeginSubmit(content: Option<Content>) returns (start: SubmitStart)
      modifies this`isSubmitting
      ensures fields.title == "" ==> start == Blocked && isSubmitting == old(isSubmitting)
      ensures fields.title != "" && content.None? ==> start == NoContent && isSubmitting == old(isSubmitting)
      ensures fields.title != "" && content.Some? && Validate(fields).Err? ==>
        start == Invalid(Validate(fields).error) && isSubmitting == old(isSubmitting)
      ensures fields.title != "" && content.Some? && Validate(fields).Ok? ==>
        start == Sent(Update(content.value.id, EditPatch(content.value.status, Validate(fields).value)))
        && isSubmitting
    {
      if fields.title == "" {
        return Blocked;
      }
      if content.None? {
        return NoContent;
      }
      var result := Validate(fields);
      if result.Err? {
        return Invalid(result.error);
      }
      isSubmitting := true;
      var c := content.value;
      start := Sent(Update(c.id, EditPatch(c.status, result.value)));
    }

    /** The rest of `handleSubmit`: on success `onSuccess` fires and the
        dialog closes; on failure it stays as it was; `isSubmitting` is
        cleared either way. */
    method FinishSubmit(ok: bool)
      modifies this`isSubmitting, this`open, this`notified
      ensures !isSubmitting
      ensures ok ==> !open && notified == old(notified) + 1
      ensures !ok ==> open == old(open) && notified == old(notified)
    {
      if ok {
        notified := notified + 1;
        open := false;
      }
      isSubmitting := false;
    }
  }
}
