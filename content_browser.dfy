/** The public browser of one content type: the tag index, the search,
    language and tag filters, the open-and-track action, and the entry to
    the add-to-playlist dialog. */
module Browse {
  import opened Common
  import opened Text
  import opened Lists
  import opened Order
  import opened ContentRecords

  /** The language choices; 'All' switches the language filter off. */
  const Languages: seq<string> :=
    ["All", "English", "Arabic", "Urdu", "Turkish", "Malay", "Indonesian", "French", "Spanish"]

  /** A listed row with the signed URLs `fetchContent` obtained for its
      file and cover (null when signing failed or there was no file). */
  datatype Listed = Listed(row: Content, signedFileUrl: Option<string>, signedCoverUrl: Option<string>)

  /** The tags of one item as a set; an item without tags has none. */
  function TagsOf(c: Content): set<string> {
    if c.tags.Some? then set t | t in c.tags.value else {}
  }

  /** The set the `forEach` loops of `allTags` fill: every tag of every
      item. */
  ghost predicate Occurs(items: seq<Listed>, t: string) {
    exists i :: 0 <= i < |items| && t in TagsOf(items[i].row)
  }

  /** `allTags`: the `forEach` loops add every tag of every item to a set,
      which is then listed in ascending order. */
  method AllTags(items: seq<Listed>) returns (r: seq<string>)
    ensures StrictlySorted(r)
    ensures forall t :: t in r <==> Occurs(items, t)
  {
    var tags: set<string> := {};
    var i := 0;
    while i < |items|
      invariant 0 <= i <= |items|
      invariant forall t :: t in tags <==> Occurs(items[..i], t)
    {
      var c := items[i].row;
      if c.tags.Some? {
        var ts := c.tags.value;
        var j := 0;
        while j < |ts|
          invariant 0 <= j <= |ts|
          invariant forall t :: t in tags <==> Occurs(items[..i], t) || t in ts[..j]
        {
          tags := tags + {ts[j]};
          j := j + 1;
        }
        assert ts[..j] == ts;
      }
      forall t ensures Occurs(items[..i + 1], t) <==> Occurs(items[..i], t) || t in TagsOf(c) {
        if Occurs(items[..i + 1], t) {
          var k :| 0 <= k < i + 1 && t in TagsOf(items[..i + 1][k].row);
          if k < i {
            assert items[..i][k] == items[..i + 1][k];
          }
        }
        if Occurs(items[..i], t) {
          var k :| 0 <= k < i && t in TagsOf(items[..i][k].row);
          assert items[..i + 1][k] == items[..i][k];
        }
        if t in TagsOf(c) {
          assert items[..i + 1][i].row == c;
        }
      }
      i := i + 1;
    }
    assert items[..i] == items;
    r := SortedList(tags);
  }

  /** The search test: an empty query, or the title, the author or the
      description contains it ignoring case; a null author or description
      cannot match. */
  predicate MatchesSearch(c: Content, query: string) {
    || query == ""
    || IncludesIgnoringCase(c.title, query)
    || (c.author.Some? && IncludesIgnoringCase(c.author.value, query))
    || (c.description.Some? && IncludesIgnoringCase(c.description.value, query))
  }

  /** `selectedLanguage === 'All' || item.language === selectedLanguage`. */
  predicate MatchesLanguage(c: Content, language: string) {
    language == "All" || c.language == Some(language)
  }

  /** `!selectedTag || item.tags?.includes(selectedTag)`. */
  predicate MatchesTag(c: Content, tag: Option<string>) {
    !Truthy(tag) || (c.tags.Some? && tag.value in c.tags.value)
  }

  predicate Matches(c: Content, query: string, language: string, tag: Option<string>) {
    MatchesSearch(c, query) && MatchesLanguage(c, language) && MatchesTag(c, tag)
  }

  /** `filteredContent`. */
  function FilteredContent(items: seq<Listed>, query: string, language: string, tag: Option<string>): seq<Listed> {
    Filter(items, (it: Listed) => Matches(it.row, query, language, tag))
  }

  /** The filtered list is the ordered sub-sequence of the items that pass
      the three tests. */
  lemma FilteredContentSpec(items: seq<Listed>, query: string, language: string, tag: Option<string>, it: Listed)
    ensures IsSubsequence(FilteredContent(items, query, language, tag), items)
    ensures it in FilteredContent(items, query, language, tag) <==>
      it in items && Matches(it.row, query, language, tag)
  {
    FilterIsSubsequence(items, (it: Listed) => Matches(it.row, query, language, tag));
    FilterMembership(items, (it: Listed) => Matches(it.row, query, language, tag), it);
  }

  /** `hasActiveFilters`. */
  predicate ActiveFilters(query: string, language: string, tag: Option<string>) {
    query != "" || language != "All" || Truthy(tag)
  }

  /** With no active filter every item is shown, in order. */
  lemma InactiveFiltersShowAll(items: seq<Listed>, query: string, language: string, tag: Option<string>)
    requires !ActiveFilters(query, language, tag)
    ensures FilteredContent(items, query, language, tag) == items
  {
    FilterAll(items, (it: Listed) => Matches(it.row, query, language, tag));
  }

  /** The analytics event `handleAction` records. */
  datatype Tracked = TrackDownload(contentId: Id) | TrackPlay(contentId: Id)

  /** A file opened in a new tab and the event recorded for it. */
  datatype Opened = Opened(url: string, track: Tracked)

  /** `handleAction`: the signed URL, else the stored one; nothing happens
      when neither is set. */
  function ActionOf(it: Listed): Option<Opened> {
    var url := if Truthy(it.signedFileUrl) then it.signedFileUrl else it.row.fileUrl;
    if !Truthy(url) then None
    else Some(Opened(url.value, if it.row.ctype == Book then TrackDownload(it.row.id) else TrackPlay(it.row.id)))
  }

  /** The signed URL is preferred, the stored one is the fallback, and no
      event is recorded unless a file is opened; a book records a
      download, audio and video a play, both for the item's id. */
  lemma ActionSpec(it: Listed)
    ensures ActionOf(it).None? <==> !Truthy(it.signedFileUrl) && !Truthy(it.row.fileUrl)
    ensures Truthy(it.signedFileUrl) ==> ActionOf(it).Some? && ActionOf(it).value.url == it.signedFileUrl.value
    ensures !Truthy(it.signedFileUrl) && Truthy(it.row.fileUrl) ==>
      ActionOf(it).Some? && ActionOf(it).value.url == it.row.fileUrl.value
    ensures ActionOf(it).Some? ==>
      && ActionOf(it).value.url != ""
      && ActionOf(it).value.track.contentId == it.row.id
      && (ActionOf(it).value.track.TrackDownload? <==> it.row.ctype == Book)
  {
  }

  class ContentBrowser {
    var content: seq<Listed>
    var searchQuery: string
    var selectedLanguage: string
    var selectedTag: Option<string>
    var playlistDialogOpen: bool
    var selectedContentId: Option<Id>

    constructor ()
      ensures content == [] && searchQuery == "" && selectedLanguage == "All" && selectedTag == None
      ensures !playlistDialogOpen && selectedContentId == None
    {
      content := [];
      searchQuery := "";
      selectedLanguage := "All";
      selectedTag := None;
      playlistDialogOpen := false;
      selectedContentId := None;
    }

    /** The list as rendered. */
    function Shown(): seq<Listed>
      reads this
    {
      FilteredContent(content, searchQuery, selectedLanguage, selectedTag)
    }

    predicate HasActiveFilters()
      reads this
    {
      ActiveFilters(searchQuery, selectedLanguage, selectedTag)
    }

    /** `fetchContent` finished; a failed fetch keeps the list. */
    method Fetched(ok: bool, rows: seq<Listed>)
      modifies this`content
      ensures content == if ok then rows else old(content)
    {
      if ok {
        content := rows;
      }
    }

    /** `handleAddToPlaylist`: without a user nothing happens; otherwise the
        item is selected and the dialog opens. */
    method AddToPlaylist(user: Option<Account>, contentId: Id)
      modifies this`selectedContentId, this`playlistDialogOpen
      ensures user.None? ==> selectedContentId == old(selectedContentId) && playlistDialogOpen == old(playlistDialogOpen)
      ensures user.Some? ==> selectedContentId == Some(contentId) && playlistDialogOpen
    {
      if user.None? {
        return;
      }
      selectedContentId := Some(contentId);
      playlistDialogOpen := true;
    }

    /** `clearFilters`: afterwards no filter is active and every item is
        shown. */
    method ClearFilters()
      modifies this`searchQuery, this`selectedLanguage, this`selectedTag
      ensures searchQuery == "" && selectedLanguage == "All" && selectedTag == None
      ensures !HasActiveFilters() && Shown() == content
    {
      searchQuery := "";
      selectedLanguage := "All";
      selectedTag := None;
      InactiveFiltersShowAll(content, searchQuery, selectedLanguage, selectedTag);
    }
  }
}
