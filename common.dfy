/** Vocabulary shared by every component of the portal: identifiers, the
    three content types, the moderation statuses, the application roles and
    the optional value that stands for JavaScript's `null`. */
module Common {

  /** `T | null` in the source. */
  datatype Option<+T> = None | Some(value: T) {
    function GetOr(default: T): T {
      match this
      case Some(v) => v
      case None => default
    }
  }

  /** The outcome of a validation: a value or the first error found. */
  datatype Result<+T, +E> = Ok(value: T) | Err(error: E)

  /** Row identifiers (uuids in the database) are opaque strings. */
  type Id = string

  /** Timestamps are opaque instants; only their presence is ever inspected. */
  type Timestamp = int

  /** `content_type` enum: a resource is a book, an audio or a video. */
  datatype ContentType = Book | Audio | Video

  /** `content_status` enum, shared by content and answers. */
  datatype Status = Pending | Approved | Rejected

  /** `app_role` enum. */
  datatype Role = User | Contributor | Admin

  /** The signed-in user as the auth context exposes it; only the id is used. */
  datatype Account = Account(id: Id)

  /** `role === 'admin' || role === 'contributor'` with the role possibly not
      resolved (null). */
  predicate IsStaff(role: Option<Role>) {
    role == Some(Admin) || role == Some(Contributor)
  }

  /** JavaScript truthiness of a nullable string: null and "" are falsy. */
  predicate Truthy(s: Option<string>) {
    s.Some? && s.value != ""
  }

  /** `s || null`: the empty string is stored as null. */
  function EmptyToNull(s: string): (r: Option<string>)
    ensures r.None? <==> s == ""
    ensures r.Some? ==> r.value == s
  {
    if s == "" then None else Some(s)
  }

  /** `s || ''`: null reads back as the empty string. */
  function NullToEmpty(s: Option<string>): (r: string)
    ensures s.Some? ==> r == s.value
    ensures s.None? ==> r == ""
  {
    s.GetOr("")
  }

  /** A text stored with `|| null` reads back with `|| ''` as it was; a
      stored value reads back and is stored again unchanged unless it is
      the empty string, which no write produces. */
  lemma NullEmptyRoundTrip(s: string, stored: Option<string>)
    ensures NullToEmpty(EmptyToNull(s)) == s
    ensures stored != Some("") ==> EmptyToNull(NullToEmpty(stored)) == stored
    ensures EmptyToNull(s) != Some("")
  {
  }

  /** `data?.length || 0`: the rows of a query whose data is null count
      as none. */
  function Length<T>(data: Option<seq<T>>): nat {
    if data.Some? then |data.value| else 0
  }

  /** `data || []`: the rows of a query whose data may be null. */
  function RowsOf<T>(data: Option<seq<T>>): (rows: seq<T>)
    ensures |rows| == Length(data)
  {
    if data.Some? then data.value else []
  }
}
