/** The admin's view of all content: set any status on any item, delete an
    item, and filter the list by a search text, a status and a type. */
module AllContent {
  import opened Common
  import opened Text
  import opened Lists
  import opened ContentRecords

  /** The status choices offered for every item. */
  const StatusOptions: seq<Status> := [Pending, Approved, Rejected]

  /** Every status is offered, whatever the item's current status. */
  lemma EveryStatusOffered(st: Status)
    ensures st in StatusOptions
  {
  }

  /** `!searchQuery || title includes it || author includes it`, ignoring
      case; a null author cannot match. */
  predicate MatchesSearch(item: Content, query: string) {
    query == "" || IncludesIgnoringCase(item.title, query)
    || (item.author.Some? && IncludesIgnoringCase(item.author.value, query))
  }

  /** One row of `filteredContent`; `None` stands for the filter `'all'`. */
  predicate Matches(item: Content, query: string, status: Option<Status>, ctype: Option<ContentType>) {
    && MatchesSearch(item, query)
    && (status.None? || item.status == status.value)
    && (ctype.None? || item.ctype == ctype.value)
  }

  function Filtered(s: seq<Content>, query: string, status: Option<Status>, ctype: Option<ContentType>): seq<Content> {
    Filter(s, (c: Content) => Matches(c, query, status, ctype))
  }

  /** The filtered list is the ordered sub-sequence of the rows that pass
      all three tests. */
  lemma FilteredSpec(s: seq<Content>, query: string, status: Option<Status>, ctype: Option<ContentType>, c: Content)
    ensures IsSubsequence(Filtered(s, query, status, ctype), s)
    ensures c in Filtered(s, query, status, ctype) <==> c in s && Matches(c, query, status, ctype)
  {
    FilterIsSubsequence(s, (c: Content) => Matches(c, query, status, ctype));
    FilterMembership(s, (c: Content) => Matches(c, query, status, ctype), c);
  }

  /** An empty search with both filters on `'all'` shows every row. */
  lemma NeutralFilterKeepsAll(s: seq<Content>)
    ensures Filtered(s, "", None, None) == s
  {
    FilterAll(s, (c: Content) => Matches(c, "", None, None));
  }

  class AllContentList {
    var content: seq<Content>
    var actionLoading: Option<Id>
    var searchQuery: string
    var statusFilter: Option<Status>
    var typeFilter: Option<ContentType>

    constructor (fetched: seq<Content>)
      ensures content == fetched && actionLoading == None
      ensures searchQuery == "" && statusFilter == None && typeFilter == None
    {
      content := fetched;
      actionLoading := None;
      searchQuery := "";
      statusFilter := None;
      typeFilter := None;
    }

    /** The list as rendered. */
    function Shown(): seq<Content>
      reads this
    {
      Filtered(content, searchQuery, statusFilter, typeFilter)
    }

    /** `handleStatusChange` up to the update. */
    method BeginStatusChange(id: Id, newStatus: Status, now: Timestamp) returns (req: Request)
      modifies this`actionLoading
      ensures actionLoading == Some(id)
      ensures req == Update(id, StatusChangePatch(newStatus, now))
    {
      actionLoading := Some(id);
      req := Update(id, StatusChangePatch(newStatus, now));
    }

    /** The rest of `handleStatusChange`: on success only the status of the
        rows with that id changes in the local list. */
    method FinishStatusChange(id: Id, newStatus: Status, ok: bool)
      modifies this`content, this`actionLoading
      ensures ok ==> content == WithStatus(old(content), id, newStatus)
      ensures !ok ==> content == old(content)
      ensures actionLoading == None
    {
      if ok {
        content := WithStatus(content, id, newStatus);
      }
      actionLoading := None;
    }

    /** `handleDelete` up to the delete. */
    method BeginDelete(id: Id) returns (req: Request)
      modifies this`actionLoading
      ensures actionLoading == Some(id) && req == Delete(id)
    {
      actionLoading := Some(id);
      req := Delete(id);
    }

    /** The rest of `handleDelete`: on success the rows with that id leave
        the list; on failure it is unchanged. */
    method FinishDelete(id: Id, ok: bool)
      modifies this`content, this`actionLoading
      ensures ok ==> content == WithoutId(old(content), id)
      ensures !ok ==> content == old(content)
      ensures actionLoading == None
    {
      if ok {
        content := WithoutId(content, id);
      }
      actionLoading := None;
    }
  }
}
