/** The admin analytics panel: action and type counts over the selected
    time range, the number of contributors, and the five most tracked
    items. The per-item tally is the loop over the tracked rows; the top
    ids are its entries, in insertion order, stably sorted by count and
    cut to five. */
module Analytics {
  import opened Common
  import opened Text
  import opened Lists
  import opened Order

  /** The range selector; the panel opens on the last 30 days. */
  datatype TimeRange = Last7Days | Last30Days | Last90Days | AllTime

  const DefaultRange: TimeRange := Last30Days

  const DayMs: int := 86_400_000

  /** The number of days `getDateFilter` goes back; `'all'` has none. */
  function LookbackDays(r: TimeRange): (days: Option<nat>)
    ensures days.None? <==> r == AllTime
    ensures days.Some? ==> days.value in {7, 30, 90}
  {
    match r
    case Last7Days => Some(7)
    case Last30Days => Some(30)
    case Last90Days => Some(90)
    case AllTime => None
  }

  /** `getDateFilter()`: the earliest `created_at` a query keeps, or no
      filter at all. */
  function DateFilter(r: TimeRange, now: Timestamp): Option<Timestamp> {
    var days := LookbackDays(r);
    if days.None? then None else Some(now - days.value * DayMs)
  }

  /** One `content_analytics` row. */
  datatype AnalyticsRow = AnalyticsRow(contentId: Id, actionType: string, createdAt: Timestamp)

  /** The rows a query with `.gte('created_at', filter)` returns, the
      filter applied only when there is one. */
  function SinceFilter(rows: seq<AnalyticsRow>, filter: Option<Timestamp>): seq<AnalyticsRow> {
    Filter(rows, Kept(filter))
  }

  /** The test a row passes to be kept by the date filter. */
  function Kept(filter: Option<Timestamp>): AnalyticsRow -> bool {
    (a: AnalyticsRow) => filter.None? || a.createdAt >= filter.value
  }

  /** Range `'all'` keeps every row; any other range keeps, in order,
      exactly the rows tracked at most that many days before `now`. */
  lemma DateFilterSpec(rows: seq<AnalyticsRow>, r: TimeRange, now: Timestamp, a: AnalyticsRow)
    ensures r == AllTime ==> SinceFilter(rows, DateFilter(r, now)) == rows
    ensures r != AllTime ==>
      (a in SinceFilter(rows, DateFilter(r, now)) <==>
       a in rows && a.createdAt >= now - LookbackDays(r).value * DayMs)
    ensures IsSubsequence(SinceFilter(rows, DateFilter(r, now)), rows)
  {
    var f := DateFilter(r, now);
    if r == AllTime {
      FilterAll(rows, Kept(f));
    }
    FilterMembership(rows, Kept(f), a);
    FilterIsSubsequence(rows, Kept(f));
  }

  /** `analyticsData?.filter(a => a.action_type === action).length || 0`. */
  function ActionCount(data: Option<seq<AnalyticsRow>>, action: string): nat {
    if data.None? then 0 else Count(data.value, (a: AnalyticsRow) => a.actionType == action)
  }

  /** A row is a view, a download or a play. */
  predicate Tracked(a: AnalyticsRow) {
    a.actionType == "view" || a.actionType == "download" || a.actionType == "play"
  }

  /** A row has one action type, so views, downloads and plays add up to
      at most the number of rows, and to exactly that when every row is
      one of the three. */
  lemma ActionCountsBounded(data: Option<seq<AnalyticsRow>>)
    ensures ActionCount(data, "view") + ActionCount(data, "download") + ActionCount(data, "play") <= Length(data)
    ensures data.Some? && (forall i :: 0 <= i < |data.value| ==> Tracked(data.value[i])) ==>
      ActionCount(data, "view") + ActionCount(data, "download") + ActionCount(data, "play") == Length(data)
  {
    assert "view"[0] != "download"[0] && "view"[0] != "play"[0] && "download"[0] != "play"[0];
    if data.Some? {
      CountThree(data.value, (a: AnalyticsRow) => a.actionType == "view",
        (a: AnalyticsRow) => a.actionType == "download", (a: AnalyticsRow) => a.actionType == "play");
    }
  }

  /** `contentData?.filter(c => c.type === t).length || 0`, over the types
      of the approved rows. */
  function TypeCount(data: Option<seq<ContentType>>, t: ContentType): nat {
    if data.None? then 0 else Count(data.value, (c: ContentType) => c == t)
  }

  /** Every row is a book, an audio or a video item, so the three type
      counts add up to `totalContent`. */
  lemma TypeCountsTotal(data: Option<seq<ContentType>>)
    ensures TypeCount(data, Book) + TypeCount(data, Audio) + TypeCount(data, Video) == Length(data)
  {
    if data.Some? {
      CountThree(data.value, (c: ContentType) => c == Book, (c: ContentType) => c == Audio,
        (c: ContentType) => c == Video);
    }
  }

  /** The test "this row tracks item `id`". */
  function IsFor(id: Id): AnalyticsRow -> bool {
    (a: AnalyticsRow) => a.contentId == id
  }

  /** The number of rows tracking item `id`, whatever their action. */
  function Tally(rows: seq<AnalyticsRow>, id: Id): nat {
    Count(rows, IsFor(id))
  }

  lemma TallyAppend(rows: seq<AnalyticsRow>, a: AnalyticsRow, id: Id)
    ensures Tally(rows + [a], id) == Tally(rows, id) + (if a.contentId == id then 1 else 0)
  {
    FilterAppend(rows, a, IsFor(id));
  }

  /** `m` is the `viewCounts` record of `rows`: a key for each tracked item
      and no other, holding its number of rows. */
  ghost predicate Tallies(m: map<Id, nat>, rows: seq<AnalyticsRow>) {
    && (forall k :: k in m <==> Tally(rows, k) > 0)
    && (forall k :: k in m ==> m[k] == Tally(rows, k))
  }

  /** The `forEach` that fills `viewCounts`, a missing key standing for 0. */
  method ViewCounts(topData: Option<seq<AnalyticsRow>>) returns (m: map<Id, nat>)
    ensures Tallies(m, RowsOf(topData))
  {
    var rows := RowsOf(topData);
    m := map[];
    var i := 0;
    while i < |rows|
      invariant 0 <= i <= |rows|
      invariant Tallies(m, rows[..i])
    {
      var a := rows[i];
      assert rows[..i + 1] == rows[..i] + [a];
      forall k ensures Tally(rows[..i + 1], k) == Tally(rows[..i], k) + (if a.contentId == k then 1 else 0) {
        TallyAppend(rows[..i], a, k);
      }
      m := m[a.contentId := (if a.contentId in m then m[a.contentId] else 0) + 1];
      i := i + 1;
    }
    assert rows[..i] == rows;
  }

  /** The tracked item ids, in row order. */
  function ContentIds(rows: seq<AnalyticsRow>): (ids: seq<Id>)
    ensures |ids| == |rows|
    ensures forall i :: 0 <= i < |rows| ==> ids[i] == rows[i].contentId
  {
    seq(|rows|, i requires 0 <= i < |rows| => rows[i].contentId)
  }

  /** The keys of `Object.entries(viewCounts)`: each id once, in the order
      the loop first met it. */
  function EntryKeys(rows: seq<AnalyticsRow>): seq<Id> {
    Dedup(ContentIds(rows))
  }

  /** The keys of the tally are exactly the entry keys. */
  lemma EntryKeysAreTallied(m: map<Id, nat>, rows: seq<AnalyticsRow>, k: Id)
    requires Tallies(m, rows)
    ensures k in m <==> k in EntryKeys(rows)
  {
    var ids := ContentIds(rows);
    FilterMembership(rows, IsFor(k), AnalyticsRow(k, "", 0));
    if k in m {
      var r := Filter(rows, IsFor(k));
      assert |r| > 0;
      FilterMembership(rows, IsFor(k), r[0]);
      var j :| 0 <= j < |rows| && rows[j] == r[0];
      assert ids[j] == k;
    } else if k in EntryKeys(rows) {
      var j :| 0 <= j < |ids| && ids[j] == k;
      FilterMembership(rows, IsFor(k), rows[j]);
    }
  }

  /** How often `id` occurs in `ks`. */
  function Hits(ks: seq<Id>, id: Id): nat {
    if ks == [] then 0 else (if ks[0] == id then 1 else 0) + Hits(ks[1..], id)
  }

  lemma {:induction false} HitsAbsent(ks: seq<Id>, id: Id)
    requires id !in ks
    ensures Hits(ks, id) == 0
  {
    if ks != [] {
      HitsAbsent(ks[1..], id);
    }
  }

  lemma {:induction false} HitsOnce(ks: seq<Id>, id: Id)
    requires Distinct(ks) && id in ks
    ensures Hits(ks, id) == 1
  {
    if ks[0] == id {
      HitsAbsent(ks[1..], id);
    } else {
      HitsOnce(ks[1..], id);
    }
  }

  /** The tallies of the ids in `ks`, added up. */
  function SumTallies(rows: seq<AnalyticsRow>, ks: seq<Id>): nat {
    if ks == [] then 0 else Tally(rows, ks[0]) + SumTallies(rows, ks[1..])
  }

  lemma {:induction false} SumTalliesAppend(rows: seq<AnalyticsRow>, a: AnalyticsRow, ks: seq<Id>)
    ensures SumTallies(rows + [a], ks) == SumTallies(rows, ks) + Hits(ks, a.contentId)
  {
    if ks != [] {
      TallyAppend(rows, a, ks[0]);
      SumTalliesAppend(rows, a, ks[1..]);
    }
  }

  lemma {:induction false} SumTalliesOfNone(ks: seq<Id>)
    ensures SumTallies([], ks) == 0
  {
    if ks != [] {
      SumTalliesOfNone(ks[1..]);
    }
  }

  /** Over a list of distinct ids that holds every tracked id, the
      tallies add up to the number of rows. */
  lemma {:induction false} SumTalliesCovers(rows: seq<AnalyticsRow>, ks: seq<Id>)
    requires Distinct(ks)
    requires forall i :: 0 <= i < |rows| ==> rows[i].contentId in ks
    ensures SumTallies(rows, ks) == |rows|
    decreases |rows|
  {
    if rows == [] {
      SumTalliesOfNone(ks);
    } else {
      var init := rows[..|rows| - 1];
      var a := rows[|rows| - 1];
      assert rows == init + [a];
      SumTalliesCovers(init, ks);
      SumTalliesAppend(init, a, ks);
      HitsOnce(ks, a.contentId);
    }
  }

  /** Every row is counted once: the entries of `viewCounts` add up to the
      number of tracked rows. */
  lemma ViewCountsSumToRows(m: map<Id, nat>, rows: seq<AnalyticsRow>)
    requires Tallies(m, rows)
    ensures SumTallies(rows, EntryKeys(rows)) == |rows|
    ensures forall i :: 0 <= i < |EntryKeys(rows)| ==>
      EntryKeys(rows)[i] in m && m[EntryKeys(rows)[i]] == Tally(rows, EntryKeys(rows)[i])
  {
    var ids := ContentIds(rows);
    forall i | 0 <= i < |rows| ensures rows[i].contentId in EntryKeys(rows) {
      assert ids[i] == rows[i].contentId;
    }
    SumTalliesCovers(rows, EntryKeys(rows));
    forall i | 0 <= i < |EntryKeys(rows)| ensures EntryKeys(rows)[i] in m {
      EntryKeysAreTallied(m, rows, EntryKeys(rows)[i]);
    }
  }

  /** `viewCounts[id] || 0`. */
  function Views(m: map<Id, nat>, id: Id): nat {
    if id in m then m[id] else 0
  }

  /** The sort key of an entry. */
  function ByViews(m: map<Id, nat>): Id -> int {
    (id: Id) => Views(m, id)
  }

  /** `topContentIds`: the entries sorted by non-increasing count, stably,
      cut to five, keys only. */
  function TopIds(m: map<Id, nat>, keys: seq<Id>): seq<Id> {
    Take(SortByKeyDesc(keys, ByViews(m)), 5)
  }

  /** The entries, sorted by count. */
  function SortedEntries(m: map<Id, nat>, rows: seq<AnalyticsRow>): seq<Id> {
    SortByKeyDesc(EntryKeys(rows), ByViews(m))
  }

  /** The sorted entries are the tallied ids, each once, by non-increasing
      count. */
  lemma SortedEntriesSpec(m: map<Id, nat>, rows: seq<AnalyticsRow>, k: Id)
    requires Tallies(m, rows)
    ensures var sorted := SortedEntries(m, rows);
      && |sorted| == |EntryKeys(rows)|
      && Distinct(sorted)
      && NonIncreasing(sorted, ByViews(m))
      && (k in sorted <==> k in m)
  {
    var keys := EntryKeys(rows);
    SortByKeyDescSpec(keys, ByViews(m));
    EntryKeysAreTallied(m, rows, k);
    assert k in SortedEntries(m, rows) <==> k in multiset(SortedEntries(m, rows));
  }

  /** A tallied id outside the first five sorted entries has no larger
      count than any of them. */
  lemma LeftOutNotLarger(m: map<Id, nat>, rows: seq<AnalyticsRow>, k: Id, i: nat)
    requires Tallies(m, rows)
    requires k in m && k !in TopIds(m, EntryKeys(rows)) && i < |TopIds(m, EntryKeys(rows))|
    ensures TopIds(m, EntryKeys(rows))[i] in m
    ensures m[k] <= m[TopIds(m, EntryKeys(rows))[i]]
  {
    var sorted := SortedEntries(m, rows);
    var top := TopIds(m, EntryKeys(rows));
    SortedEntriesSpec(m, rows, k);
    SortedEntriesSpec(m, rows, top[i]);
    assert top == sorted[..|top|];
    var j :| 0 <= j < |sorted| && sorted[j] == k;
    assert top[i] == sorted[i];
    assert j >= |top|;
    assert ByViews(m)(sorted[i]) >= ByViews(m)(sorted[j]);
  }

  /** The top ids are the first entries of the sorted ones: as many as
      there are, up to five, each tallied once. */
  lemma TopIdsChosen(m: map<Id, nat>, rows: seq<AnalyticsRow>)
    requires Tallies(m, rows)
    ensures var top := TopIds(m, EntryKeys(rows));
      && top == SortedEntries(m, rows)[..|top|]
      && |top| == (if |EntryKeys(rows)| < 5 then |EntryKeys(rows)| else 5)
      && Distinct(top)
      && (forall i :: 0 <= i < |top| ==> top[i] in m)
  {
    var sorted := SortedEntries(m, rows);
    var top := TopIds(m, EntryKeys(rows));
    SortedEntriesSpec(m, rows, "");
    forall i | 0 <= i < |top| ensures top[i] in m {
      SortedEntriesSpec(m, rows, top[i]);
    }
  }

  /** The top ids come in non-increasing order of their counts. */
  lemma TopIdsOrdered(m: map<Id, nat>, rows: seq<AnalyticsRow>)
    requires Tallies(m, rows)
    ensures var top := TopIds(m, EntryKeys(rows));
      forall i, j :: 0 <= i < j < |top| ==> Views(m, top[i]) >= Views(m, top[j])
  {
    var sorted := SortedEntries(m, rows);
    var top := TopIds(m, EntryKeys(rows));
    SortedEntriesSpec(m, rows, "");
    TopIdsChosen(m, rows);
    forall i, j | 0 <= i < j < |top| ensures Views(m, top[i]) >= Views(m, top[j]) {
      assert ByViews(m)(sorted[i]) >= ByViews(m)(sorted[j]);
    }
  }

  /** The top ids are at most five distinct tracked items, as many as
      there are when there are fewer, in non-increasing order of their
      tallies, and no item left out has a larger tally than one chosen. */
  lemma TopIdsSpec(m: map<Id, nat>, rows: seq<AnalyticsRow>)
    requires Tallies(m, rows)
    ensures var top := TopIds(m, EntryKeys(rows));
      && |top| == (if |EntryKeys(rows)| < 5 then |EntryKeys(rows)| else 5)
      && Distinct(top)
      && (forall i :: 0 <= i < |top| ==> top[i] in m && m[top[i]] == Tally(rows, top[i]))
      && (forall i, j :: 0 <= i < j < |top| ==> m[top[i]] >= m[top[j]])
      && (forall k, i :: k in m && k !in top && 0 <= i < |top| ==> m[k] <= m[top[i]])
  {
    var top := TopIds(m, EntryKeys(rows));
    TopIdsChosen(m, rows);
    TopIdsOrdered(m, rows);
    forall k, i | k in m && k !in top && 0 <= i < |top| ensures m[k] <= m[top[i]] {
      LeftOutNotLarger(m, rows, k, i);
    }
  }

  /** One row of the `.in('id', topContentIds)` query. */
  datatype ContentRef = ContentRef(id: Id, title: string, ctype: ContentType)

  /** One entry of `topContent`. */
  datatype TopItem = TopItem(id: Id, title: string, ctype: ContentType, views: nat)

  function ItemViews(t: TopItem): int {
    t.views
  }

  /** The fetched rows, each with its tally or 0. */
  function WithViews(rows: seq<ContentRef>, m: map<Id, nat>): (items: seq<TopItem>)
    ensures |items| == |rows|
    ensures forall i :: 0 <= i < |rows| ==>
      items[i] == TopItem(rows[i].id, rows[i].title, rows[i].ctype, Views(m, rows[i].id))
  {
    seq(|rows|, i requires 0 <= i < |rows| => TopItem(rows[i].id, rows[i].title, rows[i].ctype, Views(m, rows[i].id)))
  }

  /** `topContent`: empty without top ids, otherwise the fetched rows with
      their views, sorted by non-increasing views. */
  function TopContent(topIds: seq<Id>, fetched: Option<seq<ContentRef>>, m: map<Id, nat>): seq<TopItem> {
    if |topIds| > 0 then SortByKeyDesc(WithViews(RowsOf(fetched), m), ItemViews) else []
  }

  /** `topContent` is a reordering of the fetched rows, each carrying its
      tally (0 for an untracked id), by non-increasing views; it is empty
      when there are no top ids or the fetch failed. */
  lemma TopContentSpec(topIds: seq<Id>, fetched: Option<seq<ContentRef>>, m: map<Id, nat>)
    ensures var t := TopContent(topIds, fetched, m);
      && (forall i, j :: 0 <= i < j < |t| ==> t[i].views >= t[j].views)
      && (|topIds| > 0 ==> multiset(t) == multiset(WithViews(RowsOf(fetched), m)))
      && (forall i :: 0 <= i < |t| ==> t[i].views == Views(m, t[i].id))
      && (|topIds| == 0 || fetched.None? ==> t == [])
  {
    var t := TopContent(topIds, fetched, m);
    if |topIds| > 0 {
      var items := WithViews(RowsOf(fetched), m);
      SortByKeyDescSpec(items, ItemViews);
      forall i, j | 0 <= i < j < |t| ensures t[i].views >= t[j].views {
        assert ItemViews(t[i]) >= ItemViews(t[j]);
      }
      forall i | 0 <= i < |t| ensures t[i].views == Views(m, t[i].id) {
        assert t[i] in multiset(items);
      }
    }
  }

  /** `AnalyticsSummary`; the activity series is not computed. */
  datatype Summary = Summary(
    totalViews: nat, totalDownloads: nat, totalPlays: nat,
    totalContent: nat, totalContributors: nat,
    bookCount: nat, audioCount: nat, videoCount: nat,
    recentActivity: seq<(string, nat)>,
    topContent: seq<TopItem>)

  class AnalyticsPanel {
    var analytics: Option<Summary>
    var loading: bool
    var timeRange: TimeRange

    constructor ()
      ensures analytics == None && loading && timeRange == DefaultRange
    {
      analytics := None;
      loading := true;
      timeRange := DefaultRange;
    }

    /** Choosing a range starts a fetch with that range's date filter. */
    method SelectRange(r: TimeRange, now: Timestamp) returns (filter: Option<Timestamp>)
      modifies this`timeRange, this`loading
      ensures timeRange == r && loading
      ensures filter == DateFilter(r, now)
    {
      timeRange := r;
      loading := true;
      filter := DateFilter(r, now);
    }

    /** The body of `fetchAnalytics` once the four queries have answered
        (`None` for a query whose data is null); `topContentData` answers
        the id query, which is sent only when `topIds` is not empty. The
        summary is set and loading ends. */
    method Fetched(analyticsData: Option<seq<AnalyticsRow>>, contentData: Option<seq<ContentType>>,
                   rolesData: Option<seq<Id>>, topData: Option<seq<AnalyticsRow>>,
                   topContentData: Option<seq<ContentRef>>)
      returns (viewCounts: map<Id, nat>, topIds: seq<Id>)
      modifies this`analytics, this`loading
      ensures Tallies(viewCounts, RowsOf(topData))
      ensures topIds == TopIds(viewCounts, EntryKeys(RowsOf(topData)))
      ensures analytics == Some(Summary(
        ActionCount(analyticsData, "view"), ActionCount(analyticsData, "download"),
        ActionCount(analyticsData, "play"), Length(contentData), Length(rolesData),
        TypeCount(contentData, Book), TypeCount(contentData, Audio), TypeCount(contentData, Video),
        [], TopContent(topIds, topContentData, viewCounts)))
      ensures !loading
    {
      viewCounts := ViewCounts(topData);
      topIds := TopIds(viewCounts, EntryKeys(RowsOf(topData)));
      analytics := Some(Summary(
        ActionCount(analyticsData, "view"), ActionCount(analyticsData, "download"),
        ActionCount(analyticsData, "play"), Length(contentData), Length(rolesData),
        TypeCount(contentData, Book), TypeCount(contentData, Audio), TypeCount(contentData, Video),
        [], TopContent(topIds, topContentData, viewCounts)));
      loading := false;
    }
  }
}
