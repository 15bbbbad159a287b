/** Cursor pages over a list of rows, newest first: the activity feed, and with the same few lines the issue list and
    the user list. */
module CursorPaging {
  import opened Prelude

  datatype Row = Row(id: string, field: Option<string>, oldValue: Option<string>, newValue: Option<string>)

  const DEFAULT_TAKE: nat := 20
  const MAX_TAKE: nat := 100

  /** `raw` is absent for undefined and for NaN. */
  function ClampTake(raw: Option<real>): (take: nat)
    ensures 1 <= take <= MAX_TAKE
    ensures raw.None? || raw.value < 1.0 ==> take == 20
    ensures raw.Some? && raw.value >= 100.0 ==> take == 100
    ensures raw.Some? && 1.0 <= raw.value <= MAX_TAKE as real ==> take as real <= raw.value < take as real + 1.0
  {
    if raw.None? || raw.value < 1.0 then DEFAULT_TAKE
    else if raw.value > MAX_TAKE as real then MAX_TAKE
    else raw.value.Floor
  }

  // ─── One page ──────────────────────────────────────────

  ghost predicate DistinctIds(rows: seq<Row>) {
    forall i, j | 0 <= i < j < |rows| :: rows[i].id != rows[j].id
  }

  /** The position of a row, or the number of rows. */
  function Position(rows: seq<Row>, id: string): (i: nat)
    ensures i <= |rows| && (i < |rows| ==> rows[i].id == id)
    ensures forall j | 0 <= j < i :: rows[j].id != id
  {
    if rows == [] || rows[0].id == id then 0 else 1 + Position(rows[1..], id)
  }

  /** Where a page starts: after the cursor row, or nowhere if the cursor row is gone. */
  function Start(rows: seq<Row>, cursor: Option<string>): (start: nat)
    ensures start <= |rows|
  {
    if cursor.None? then 0
    else
      var i := Position(rows, cursor.value);
      if i < |rows| then i + 1 else |rows|
  }

  function FindMany(rows: seq<Row>, cursor: Option<string>, take: nat): seq<Row> {
    var start := Start(rows, cursor);
    if start + take <= |rows| then rows[start..start + take] else rows[start..]
  }

  datatype Page = Page(data: seq<Row>, nextCursor: Option<string>, hasMore: bool)

  /** One row more than the page is fetched, to know whether there are more. */
  function Cut(fetched: seq<Row>, take: nat): Page
    requires take >= 1
  {
    var hasMore := |fetched| > take;
    var sliced := if hasMore then fetched[..take] else fetched;
    Page(sliced, if hasMore then Some(sliced[|sliced| - 1].id) else None, hasMore)
  }

  function Load(rows: seq<Row>, cursor: Option<string>, take: nat): Page
    requires take >= 1
  {
    Cut(FindMany(rows, cursor, take + 1), take)
  }

  /** A page is the next `take` rows, and says there are more exactly when there are. */
  lemma PageIs(rows: seq<Row>, cursor: Option<string>, take: nat)
    requires take >= 1 && DistinctIds(rows)
    ensures var start, page := Start(rows, cursor), Load(rows, cursor, take);
            && (page.hasMore <==> |rows| - start > take)
            && page.data == rows[start..if |rows| - start > take then start + take else |rows|]
            && (page.nextCursor.Some? <==> page.hasMore)
            && (page.hasMore ==> Start(rows, page.nextCursor) == start + take)
  {
    var start := Start(rows, cursor);
    if |rows| - start > take {
      assert rows[start..start + take + 1][..take] == rows[start..start + take];
      var last := start + take - 1;
      assert Load(rows, cursor, take).nextCursor == Some(rows[last].id);
      var i := Position(rows, rows[last].id);
      assert i == last;
    }
  }

  // ─── All pages ─────────────────────────────────────────

  /** What a client gets that follows the cursors to the end. */
  function Follow(rows: seq<Row>, cursor: Option<string>, take: nat): (pages: seq<seq<Row>>)
    requires take >= 1 && DistinctIds(rows)
    decreases |rows| - Start(rows, cursor)
  {
    PageIs(rows, cursor, take);
    var page := Load(rows, cursor, take);
    if page.nextCursor.None? then [page.data] else [page.data] + Follow(rows, page.nextCursor, take)
  }

  function Concat(pages: seq<seq<Row>>): seq<Row> {
    if pages == [] then [] else pages[0] + Concat(pages[1..])
  }

  /** The number of pages of n rows: one more than needed only for no rows at all. */
  predicate PageCount(n: nat, take: nat, pages: nat) {
    if n == 0 then pages == 1 else pages >= 1 && (pages - 1) * take < n <= pages * take
  }

  lemma FollowUnfold(rows: seq<Row>, cursor: Option<string>, take: nat)
    requires take >= 1 && DistinctIds(rows)
    ensures var page := Load(rows, cursor, take);
            Follow(rows, cursor, take) == if page.nextCursor.None? then [page.data]
                else [page.data] + Follow(rows, page.nextCursor, take)
  {
  }

  lemma ConcatCons(page: seq<Row>, pages: seq<seq<Row>>)
    ensures Concat([page] + pages) == page + Concat(pages)
  {
    assert ([page] + pages)[1..] == pages;
  }

  lemma SlicesJoin(rows: seq<Row>, a: nat, b: nat)
    requires a <= b <= |rows|
    ensures rows[a..b] + rows[b..] == rows[a..]
  {
  }

  lemma {:induction false} FollowFrom(rows: seq<Row>, cursor: Option<string>, take: nat)
    requires take >= 1 && DistinctIds(rows)
    ensures Concat(Follow(rows, cursor, take)) == rows[Start(rows, cursor)..]
    decreases |rows| - Start(rows, cursor)
  {
    PageIs(rows, cursor, take);
    FollowUnfold(rows, cursor, take);
    var start, page := Start(rows, cursor), Load(rows, cursor, take);
    assert Concat([]) == [];
    hide Follow, Concat, Load, Start, DistinctIds;
    if page.nextCursor.None? {
      ConcatCons(page.data, []);
    } else {
      FollowFrom(rows, page.nextCursor, take);
      ConcatCons(page.data, Follow(rows, page.nextCursor, take));
      SlicesJoin(rows, start, start + take);
    }
  }

  lemma PageMoves(rows: seq<Row>, cursor: Option<string>, take: nat)
    requires take >= 1 && DistinctIds(rows)
    ensures var next := Load(rows, cursor, take).nextCursor;
            && (next.Some? <==> |rows| - Start(rows, cursor) > take)
            && (next.Some? ==> Start(rows, next) == Start(rows, cursor) + take)
            && |Follow(rows, cursor, take)| == if next.None? then 1 else 1 + |Follow(rows, next, take)|
  {
    PageIs(rows, cursor, take);
    hide Load, Start, DistinctIds;
    FollowUnfold(rows, cursor, take);
  }

  lemma {:induction false} FollowCount(rows: seq<Row>, cursor: Option<string>, take: nat)
    requires take >= 1 && DistinctIds(rows)
    ensures PageCount(|rows| - Start(rows, cursor), take, |Follow(rows, cursor, take)|)
    decreases |rows| - Start(rows, cursor)
  {
    hide Follow, Load, Start, DistinctIds;
    PageMoves(rows, cursor, take);
    var n, next := |rows| - Start(rows, cursor), Load(rows, cursor, take).nextCursor;
    if next.Some? {
      FollowCount(rows, next, take);
      hide PageCount;
      OneMorePage(n, take, |Follow(rows, next, take)|);
    }
  }

  lemma OneMorePage(n: nat, take: nat, pages: nat)
    requires n > take >= 1 && PageCount(n - take, take, pages)
    ensures PageCount(n, take, pages + 1)
  {
    assert pages * take == (pages - 1) * take + take;
    assert (pages + 1) * take == pages * take + take;
  }

  /** Following the cursors from the start yields every row once, in order, and stops after max(1, ceil(n / take))
      pages. */
  lemma AllRowsOnce(rows: seq<Row>, take: nat)
    requires take >= 1 && DistinctIds(rows)
    ensures Concat(Follow(rows, None, take)) == rows
    ensures var pages := |Follow(rows, None, take)|;
            if rows == [] then pages == 1 else pages >= 1 && (pages - 1) * take < |rows| <= pages * take
  {
    FollowFrom(rows, None, take);
    FollowCount(rows, None, take);
    assert rows[0..] == rows;
  }

  // ─── Rows that come and go between two pages ───────────

  lemma {:induction false} PositionBehind(newer: seq<Row>, rows: seq<Row>, id: string)
    requires forall i | 0 <= i < |newer| :: newer[i].id != id
    ensures Position(newer + rows, id) == |newer| + Position(rows, id)
  {
    if newer == [] {
      assert newer + rows == rows;
    } else {
      assert (newer + rows)[1..] == newer[1..] + rows;
      PositionBehind(newer[1..], rows, id);
    }
  }

  /** Rows that arrive at the front in the meantime change no later page: nothing is shown twice or skipped. */
  lemma NewerRowsDoNotShiftPages(newer: seq<Row>, rows: seq<Row>, cursor: string, take: nat)
    requires take >= 1 && DistinctIds(newer + rows) && exists i :: 0 <= i < |rows| && rows[i].id == cursor
    ensures Load(newer + rows, Some(cursor), take) == Load(rows, Some(cursor), take)
  {
    CursorBehind(newer, rows, cursor);
    hide Start, DistinctIds, FindMany, Cut;
    FindManyBehind(newer, rows, Some(cursor), take + 1);
  }

  lemma FindManyBehind(newer: seq<Row>, rows: seq<Row>, cursor: Option<string>, take: nat)
    requires Start(newer + rows, cursor) == |newer| + Start(rows, cursor)
    ensures FindMany(newer + rows, cursor, take) == FindMany(rows, cursor, take)
  {
    hide Start;
    SliceBehind(newer, rows, Start(rows, cursor), take);
  }

  lemma CursorBehind(newer: seq<Row>, rows: seq<Row>, cursor: string)
    requires DistinctIds(newer + rows) && exists i :: 0 <= i < |rows| && rows[i].id == cursor
    ensures Start(newer + rows, Some(cursor)) == |newer| + Start(rows, Some(cursor))
  {
    var all := newer + rows;
    var k :| 0 <= k < |rows| && rows[k].id == cursor;
    forall i | 0 <= i < |newer| ensures newer[i].id != cursor {
      assert all[i] == newer[i] && all[|newer| + k] == rows[k];
    }
    PositionBehind(newer, rows, cursor);
    assert Position(rows, cursor) <= k;
  }

  lemma SliceBehind(newer: seq<Row>, rows: seq<Row>, start: nat, n: nat)
    requires start <= |rows|
    ensures (newer + rows)[|newer| + start..] == rows[start..]
    ensures start + n <= |rows| ==> (newer + rows)[|newer| + start..|newer| + start + n] == rows[start..start + n]
  {
  }

  /** A client that follows on from a cursor gets the rest exactly if that row still exists or nothing was left; when it
      was deleted, the next page is empty and claims to be the last. */
  lemma CursorRowGoneIff(before: seq<Row>, gone: Row, rest: seq<Row>, rows: seq<Row>, take: nat)
    requires take >= 1 && DistinctIds(before + [gone] + rest) && DistinctIds(rows)
    requires rows == before + [gone] + rest || rows == before + rest
    ensures Concat(Follow(rows, Some(gone.id), take)) == rest <==> rows == before + [gone] + rest || rest == []
    ensures rows == before + rest ==> Load(rows, Some(gone.id), take) == Page([], None, false)
  {
    var all := before + [gone] + rest;
    forall i | 0 <= i < |before|
      ensures before[i].id != gone.id
    {
      assert all[i] == before[i] && all[|before|] == gone;
    }
    forall i | 0 <= i < |rest|
      ensures rest[i].id != gone.id
    {
      assert all[|before| + 1 + i] == rest[i] && all[|before|] == gone;
    }
    if rows == all {
      StartBehind(before, gone, rest);
    } else {
      assert Position(rest, gone.id) == |rest|;
      PositionBehind(before, rest, gone.id);
    }
    hide Position, DistinctIds, Follow;
    FollowFrom(rows, Some(gone.id), take);
  }

  lemma StartBehind(before: seq<Row>, gone: Row, rest: seq<Row>)
    requires forall i | 0 <= i < |before| :: before[i].id != gone.id
    ensures var all := before + [gone] + rest; Start(all, Some(gone.id)) == |before| + 1 && all[|before| + 1..] == rest
  {
    PositionBehind(before, [gone] + rest, gone.id);
    assert before + [gone] + rest == before + ([gone] + rest);
  }

  // ─── The references of a page ──────────────────────────

  const USER_FIELDS: set<string> := {"assigneeId", "reporterId"}
  const SPRINT_FIELDS: set<string> := {"sprintId"}
  const ISSUE_FIELDS: set<string> := {"parentId", "epicId"}

  ghost function Mentioned(rows: seq<Row>, fields: set<string>): set<string> {
    set i, v | 0 <= i < |rows| && v in [rows[i].oldValue, rows[i].newValue] && v.Some? && v.value != "" &&
               rows[i].field.Some? && rows[i].field.value in fields :: v.value
  }

  /** The page, and the ids whose display names it needs: of each kind exactly those some row of the page mentions. */
  method LoadActivity(rows: seq<Row>, cursor: Option<string>, take: nat)
    returns (page: Page, userIds: set<string>, sprintIds: set<string>, issueIds: set<string>)
    requires take >= 1
    ensures page == Load(rows, cursor, take)
    ensures userIds == Mentioned(page.data, {"assigneeId", "reporterId"})
    ensures sprintIds == Mentioned(page.data, {"sprintId"})
    ensures issueIds == Mentioned(page.data, {"parentId", "epicId"})
  {
    var fetched := FindMany(rows, cursor, take + 1);
    var hasMore := |fetched| > take;
    var sliced := if hasMore then fetched[..take] else fetched;
    page := Page(sliced, if hasMore then Some(sliced[|sliced| - 1].id) else None, hasMore);
    userIds, sprintIds, issueIds := {}, {}, {};
    var i := 0;
    while i < |sliced|
      invariant 0 <= i <= |sliced|
      invariant userIds == Mentioned(sliced[..i], USER_FIELDS)
      invariant sprintIds == Mentioned(sliced[..i], SPRINT_FIELDS)
      invariant issueIds == Mentioned(sliced[..i], ISSUE_FIELDS)
    {
      MentionedSnoc(sliced, i, USER_FIELDS);
      MentionedSnoc(sliced, i, SPRINT_FIELDS);
      MentionedSnoc(sliced, i, ISSUE_FIELDS);
      var field := if sliced[i].field.Some? then sliced[i].field.value else "";
      var ids := Named(sliced[i].oldValue) + Named(sliced[i].newValue);
      if field in USER_FIELDS {
        userIds := userIds + ids;
      } else if field in SPRINT_FIELDS {
        sprintIds := sprintIds + ids;
      } else if field in ISSUE_FIELDS {
        issueIds := issueIds + ids;
      }
      i := i + 1;
    }
    assert sliced[..i] == sliced;
  }

  function Named(v: Option<string>): set<string> {
    if v.Some? && v.value != "" then {v.value} else {}
  }

  lemma MentionedSnoc(rows: seq<Row>, n: nat, fields: set<string>)
    requires n < |rows|
    ensures Mentioned(rows[..n + 1], fields) == Mentioned(rows[..n], fields) +
            if rows[n].field.Some? && rows[n].field.value in fields then Named(rows[n].oldValue) +
                 Named(rows[n].newValue) else {}
  {
    var here := if rows[n].field.Some? &&
        rows[n].field.value in fields then Named(rows[n].oldValue) + Named(rows[n].newValue) else {};
    forall v ensures v in Mentioned(rows[..n + 1], fields) <==> v in Mentioned(rows[..n], fields) || v in here {
      MentionedIff(rows[..n + 1], fields, v);
      MentionedIff(rows[..n], fields, v);
    }
  }

  lemma MentionedIff(rows: seq<Row>, fields: set<string>, v: string)
    ensures v in Mentioned(rows, fields) <==>
            exists i :: 0 <= i < |rows| && rows[i].field.Some? && rows[i].field.value in fields &&
                        v in Named(rows[i].oldValue) + Named(rows[i].newValue)
  {
    if v in Mentioned(rows, fields) {
      var i, w :| 0 <= i < |rows| && w in [rows[i].oldValue, rows[i].newValue] && w.Some? && w.value != "" &&
                  rows[i].field.Some? && rows[i].field.value in fields && w.value == v;
      assert w == rows[i].oldValue || w == rows[i].newValue;
    }
    if i :| 0 <= i < |rows| && rows[i].field.Some? && rows[i].field.value in fields &&
            v in Named(rows[i].oldValue) + Named(rows[i].newValue) {
      assert Some(v) in [rows[i].oldValue, rows[i].newValue] && Some(v).value == v;
    }
  }
}
