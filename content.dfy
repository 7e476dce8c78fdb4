/** The `content` table: one row per uploaded book, audio or video, the
    column updates the moderation handlers send, and the two ways every
    component patches its local copy of a list of rows (drop by id, change
    the status of one id). */
module ContentRecords {
  import opened Common
  import opened Text
  import opened Lists

  /** A row of `content`. `created_at` is left out: it only orders fetches. */
  datatype Content = Content(
    id: Id,
    contributorId: Id,
    ctype: ContentType,
    title: string,
    description: Option<string>,
    author: Option<string>,
    language: Option<string>,
    tags: Option<seq<string>>,
    fileUrl: Option<string>,
    coverImageUrl: Option<string>,
    status: Status,
    adminNotes: Option<string>,
    publishedAt: Option<Timestamp>)

  /** The payload of an `update`: `None` is a column the payload does not
      name (`undefined`), `Some(v)` writes `v`. There is no column for the
      id, the contributor, the type or the files: no handler can send one. */
  datatype Patch = Patch(
    title: Option<string>,
    description: Option<Option<string>>,
    author: Option<Option<string>>,
    language: Option<string>,
    tags: Option<seq<string>>,
    status: Option<Status>,
    adminNotes: Option<Option<string>>,
    publishedAt: Option<Option<Timestamp>>)

  /** What the database does with an update payload on one row. */
  function Apply(c: Content, p: Patch): (r: Content)
    ensures r.id == c.id && r.contributorId == c.contributorId && r.ctype == c.ctype
    ensures r.fileUrl == c.fileUrl && r.coverImageUrl == c.coverImageUrl
  {
    c.(title := p.title.GetOr(c.title),
       description := p.description.GetOr(c.description),
       author := p.author.GetOr(c.author),
       language := if p.language.Some? then Some(p.language.value) else c.language,
       tags := if p.tags.Some? then Some(p.tags.value) else c.tags,
       status := p.status.GetOr(c.status),
       adminNotes := p.adminNotes.GetOr(c.adminNotes),
       publishedAt := p.publishedAt.GetOr(c.publishedAt))
  }

  /** `handleApprove`: status approved, stamped with the time of approval. */
  function ApprovePatch(now: Timestamp): Patch {
    Patch(None, None, None, None, None, Some(Approved), None, Some(Some(now)))
  }

  /** `handleReject`: status rejected and the trimmed notes, blank as null. */
  function RejectPatch(notes: string): Patch {
    Patch(None, None, None, None, None, Some(Rejected), Some(EmptyToNull(Trim(notes))), None)
  }

  /** `handleStatusChange`: the chosen status, and a publication time only
      when that status is approved. */
  function StatusChangePatch(newStatus: Status, now: Timestamp): Patch {
    Patch(None, None, None, None, None, Some(newStatus), None,
          if newStatus == Approved then Some(Some(now)) else None)
  }

  /** The state-machine invariant: an approved row has a publication time. */
  predicate Consistent(c: Content) {
    c.status == Approved ==> c.publishedAt.Some?
  }

  /** Approving sets the status and a publication time and nothing else. */
  lemma ApproveEffect(c: Content, now: Timestamp)
    ensures var r := Apply(c, ApprovePatch(now));
      r == c.(status := Approved, publishedAt := Some(now)) && Consistent(r)
  {
  }

  /** Rejecting writes the status and the trimmed notes (null when blank);
      the publication time and every other column stay as they were. */
  lemma RejectEffect(c: Content, notes: string)
    ensures var r := Apply(c, RejectPatch(notes));
      && r.status == Rejected
      && r.publishedAt == c.publishedAt
      && (IsBlank(notes) ==> r.adminNotes == None)
      && (!IsBlank(notes) ==> r.adminNotes == Some(Trim(notes)) && IsTrimmed(r.adminNotes.value))
      && r == c.(status := Rejected, adminNotes := r.adminNotes)
      && Consistent(r)
  {
    TrimIsSlice(notes);
  }

  /** Any of the three statuses can be set from any current one; the
      publication time is replaced exactly when the new status is approved,
      and otherwise kept, so it is never cleared. */
  lemma StatusChangeEffect(c: Content, newStatus: Status, now: Timestamp)
    requires Consistent(c)
    ensures var r := Apply(c, StatusChangePatch(newStatus, now));
      && r.status == newStatus
      && (newStatus == Approved ==> r.publishedAt == Some(now))
      && (newStatus != Approved ==> r.publishedAt == c.publishedAt)
      && (c.publishedAt.Some? ==> r.publishedAt.Some?)
      && r.adminNotes == c.adminNotes
      && Consistent(r)
  {
  }

  /** The server table. */
  type Store = map<Id, Content>

  predicate StoreConsistent(db: Store) {
    forall id :: id in db ==> db[id].id == id && Consistent(db[id])
  }

  /** The write requests the moderation handlers send. */
  datatype Request = Update(id: Id, patch: Patch) | Delete(id: Id)

  /** A successful request on the table: an update of an id that is not
      there matches no row. */
  function Perform(db: Store, req: Request): (db': Store)
    ensures req.Delete? ==> db'.Keys == db.Keys - {req.id}
    ensures req.Update? ==> db'.Keys == db.Keys
    ensures forall id :: id in db' && id != req.id ==> db'[id] == db[id]
  {
    match req
    case Update(id, p) => if id in db then db[id := Apply(db[id], p)] else db
    case Delete(id) => db - {id}
  }

  /** Every admin moderation request keeps the table consistent. */
  lemma AdminRequestsKeepConsistent(db: Store, id: Id, now: Timestamp, notes: string, st: Status)
    requires StoreConsistent(db)
    ensures StoreConsistent(Perform(db, Update(id, ApprovePatch(now))))
    ensures StoreConsistent(Perform(db, Update(id, RejectPatch(notes))))
    ensures StoreConsistent(Perform(db, Update(id, StatusChangePatch(st, now))))
    ensures StoreConsistent(Perform(db, Delete(id)))
  {
    if id in db {
      ApproveEffect(db[id], now);
      RejectEffect(db[id], notes);
      StatusChangeEffect(db[id], st, now);
    }
  }

  /** No two rows of a fetched list share an id. */
  predicate DistinctIds(s: seq<Content>) {
    forall i, j :: 0 <= i < j < |s| ==> s[i].id != s[j].id
  }

  /** `list.filter(c => c.id !== id)`. */
  function WithoutId(s: seq<Content>, id: Id): seq<Content> {
    Filter(s, (c: Content) => c.id != id)
  }

  /** Dropping an id keeps every other row, in order, and no row with that
      id; when the ids are distinct and present it removes exactly one row,
      and when the id is absent it changes nothing. */
  lemma WithoutIdEffect(s: seq<Content>, id: Id)
    ensures var r := WithoutId(s, id);
      && IsSubsequence(r, s)
      && (forall i :: 0 <= i < |r| ==> r[i].id != id)
      && (forall i :: 0 <= i < |s| && s[i].id != id ==> s[i] in r)
      && ((forall i :: 0 <= i < |s| ==> s[i].id != id) ==> r == s)
    ensures DistinctIds(s) && (exists i :: 0 <= i < |s| && s[i].id == id) ==>
      |WithoutId(s, id)| == |s| - 1
  {
    var p := (c: Content) => c.id != id;
    FilterIsSubsequence(s, p);
    forall i | 0 <= i < |s| && s[i].id != id ensures s[i] in WithoutId(s, id) {
      FilterMembership(s, p, s[i]);
    }
    if forall i :: 0 <= i < |s| ==> s[i].id != id {
      FilterAll(s, p);
    }
    if DistinctIds(s) && (exists i :: 0 <= i < |s| && s[i].id == id) {
      var k :| 0 <= k < |s| && s[k].id == id;
      RemoveOne(s, id, k);
    }
  }

  /** With distinct ids, the row at `k` is the only one the filter drops. */
  lemma {:induction false} RemoveOne(s: seq<Content>, id: Id, k: nat)
    requires DistinctIds(s) && k < |s| && s[k].id == id
    ensures |WithoutId(s, id)| == |s| - 1
    decreases |s|
  {
    var p := (c: Content) => c.id != id;
    if k == 0 {
      FilterAll(s[1..], p);
    } else {
      RemoveOne(s[1..], id, k - 1);
    }
  }

  /** `list.map(c => c.id === id ? { ...c, status } : c)`. */
  function WithStatus(s: seq<Content>, id: Id, st: Status): seq<Content> {
    seq(|s|, i requires 0 <= i < |s| => if s[i].id == id then s[i].(status := st) else s[i])
  }

  /** Changing one id's status keeps the length and order, changes the
      status of the rows with that id and nothing else about any row. */
  lemma WithStatusEffect(s: seq<Content>, id: Id, st: Status)
    ensures var r := WithStatus(s, id, st);
      && |r| == |s|
      && (forall i :: 0 <= i < |s| ==> r[i].(status := s[i].status) == s[i])
      && (forall i :: 0 <= i < |s| && s[i].id == id ==> r[i].status == st)
      && (forall i :: 0 <= i < |s| && s[i].id != id ==> r[i] == s[i])
  {
  }
}
