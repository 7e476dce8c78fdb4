/** The contributor's overview: counts of their own submissions by status
    and by type, the views of their approved items, and the approval rate
    shown as a whole percentage. */
module ContributorOverview {
  import opened Common
  import opened Lists

  /** One row of the contributor's own content query (`id, status, type`). */
  datatype OwnRow = OwnRow(id: Id, status: Status, ctype: ContentType)

  /** The object the query returns. */
  datatype Stats = Stats(
    total: nat, pending: nat, approved: nat, rejected: nat,
    books: nat, audio: nat, video: nat, totalViews: nat)

  function StatusCount(rows: seq<OwnRow>, st: Status): nat {
    Count(rows, (c: OwnRow) => c.status == st)
  }

  function TypeCount(rows: seq<OwnRow>, t: ContentType): nat {
    Count(rows, (c: OwnRow) => c.ctype == t)
  }

  /** `approvedContentIds`: the ids of the approved rows, in row order. */
  function ApprovedIds(rows: seq<OwnRow>): seq<Id> {
    var approved := Filter(rows, (c: OwnRow) => c.status == Approved);
    seq(|approved|, i requires 0 <= i < |approved| => approved[i].id)
  }

  /** The approved ids are exactly the ids of approved rows, one per
      approved row. */
  lemma ApprovedIdsSpec(rows: seq<OwnRow>, id: Id)
    ensures |ApprovedIds(rows)| == StatusCount(rows, Approved)
    ensures id in ApprovedIds(rows) <==> exists i :: 0 <= i < |rows| && rows[i].status == Approved && rows[i].id == id
  {
    var p := (c: OwnRow) => c.status == Approved;
    var approved := Filter(rows, p);
    var ids := ApprovedIds(rows);
    if id in ids {
      var j :| 0 <= j < |ids| && ids[j] == id;
      FilterMembership(rows, p, approved[j]);
      var i :| 0 <= i < |rows| && rows[i] == approved[j];
      assert rows[i].status == Approved && rows[i].id == id;
    }
    if exists i :: 0 <= i < |rows| && rows[i].status == Approved && rows[i].id == id {
      var i :| 0 <= i < |rows| && rows[i].status == Approved && rows[i].id == id;
      FilterMembership(rows, p, rows[i]);
      var j :| 0 <= j < |approved| && approved[j] == rows[i];
      assert ids[j] == id;
    }
  }

  /** The views query: sent, for the approved ids, only when there are
      some. */
  function ViewsQuery(rows: seq<OwnRow>): (ids: Option<seq<Id>>)
    ensures ids.Some? <==> |ApprovedIds(rows)| > 0
    ensures ids.Some? ==> ids.value == ApprovedIds(rows)
  {
    var ids := ApprovedIds(rows);
    if |ids| > 0 then Some(ids) else None
  }

  /** The statistics for the rows fetched; `count` is the exact count the
      views query returned (null counts as 0) and is read only when the
      query was sent. */
  function StatsOf(content: Option<seq<OwnRow>>, count: Option<nat>): Stats {
    var rows := RowsOf(content);
    Stats(
      Length(content),
      StatusCount(rows, Pending), StatusCount(rows, Approved), StatusCount(rows, Rejected),
      TypeCount(rows, Book), TypeCount(rows, Audio), TypeCount(rows, Video),
      if ViewsQuery(rows).Some? then count.GetOr(0) else 0)
  }

  /** `queryFn`: no user id gives null; a failed content query throws, and
      the component renders nothing in both cases. */
  function Overview(userId: Option<Id>, failed: bool, content: Option<seq<OwnRow>>, count: Option<nat>): Option<Stats> {
    if !Truthy(userId) || failed then None else Some(StatsOf(content, count))
  }

  /** Every row has one status and one type: the status counts and the
      type counts each add up to the total; without approved rows the
      view total is 0 whatever the count; without a user id there are no
      statistics. */
  lemma StatsSpec(userId: Option<Id>, failed: bool, content: Option<seq<OwnRow>>, count: Option<nat>)
    ensures var s := StatsOf(content, count);
      && s.pending + s.approved + s.rejected == s.total
      && s.books + s.audio + s.video == s.total
      && (s.approved == 0 ==> s.totalViews == 0)
      && (s.approved > 0 ==> s.totalViews == count.GetOr(0))
    ensures !Truthy(userId) ==> Overview(userId, failed, content, count) == None
    ensures Overview(userId, failed, content, count).Some? <==> Truthy(userId) && !failed
  {
    var rows := RowsOf(content);
    CountThree(rows, (c: OwnRow) => c.status == Pending, (c: OwnRow) => c.status == Approved,
      (c: OwnRow) => c.status == Rejected);
    CountThree(rows, (c: OwnRow) => c.ctype == Book, (c: OwnRow) => c.ctype == Audio,
      (c: OwnRow) => c.ctype == Video);
    ApprovedIdsSpec(rows, "");
  }

  /** `total > 0 ? Math.round(approved / total * 100) : 0`, computed on
      exact fractions: the integer nearest to 100·approved/total, a half
      rounding up. */
  function ApprovalRate(s: Stats): nat {
    if s.total == 0 then 0 else (200 * s.approved + s.total) / (2 * s.total)
  }

  /** The rate is the nearest whole percentage: 100·approved/total lies
      within half a point of it, a tie resolved upwards; it is within
      0..100 whenever approved ≤ total, is 100 for an all-approved list
      and 0 for a list without approvals. */
  lemma {:induction false} ApprovalRateSpec(s: Stats)
    ensures s.total == 0 ==> ApprovalRate(s) == 0
    ensures s.total > 0 ==>
      -(s.total as int) <= 200 * s.approved - 2 * s.total * ApprovalRate(s) < s.total
    ensures s.approved <= s.total ==> ApprovalRate(s) <= 100
    ensures s.total > 0 && s.approved == s.total ==> ApprovalRate(s) == 100
    ensures s.approved == 0 ==> ApprovalRate(s) == 0
  {
    if s.total > 0 {
      var t := s.total;
      var x := 200 * s.approved + t;
      var q := x / (2 * t);
      assert 2 * t * q <= x < 2 * t * q + 2 * t;
      if s.approved <= t {
        if q > 100 {
          assert 2 * t * q >= 2 * t * 101 by {
            MulMonotone(2 * t, 101, q);
          }
        }
      }
      if s.approved == t {
        if q < 100 {
          assert 2 * t * q <= 2 * t * 99 by {
            MulMonotone(2 * t, q, 99);
          }
        }
      }
      if s.approved == 0 {
        if q > 0 {
          assert 2 * t * q >= 2 * t * 1 by {
            MulMonotone(2 * t, 1, q);
          }
        }
      }
    }
  }

  lemma MulMonotone(a: nat, b: int, c: int)
    requires b <= c
    ensures a * b <= a * c
  {
  }
}
