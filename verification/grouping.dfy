/** Grouping of raw ledger rows by reference id, in the order each id is first seen.

    `read_data` folds the rows into an insertion-ordered dictionary keyed by `refid`;
    here the dictionary is a sequence of groups searched by id, so that the order in
    which groups come out is part of the model rather than a property of a hash map.
 */
module Grouping {

  /** One ledger row, with every field still as text (the reported `balance` is carried
      along for the reporter and never read by the core). */
  datatype RawRow = RawRow(refid: string, kind: string, time: string, asset: string,
                           amount: string, fee: string, balance: string)

  /** The rows that share one reference id, in input order (an unclassified `Entry`). */
  datatype Group = Group(refid: string, rows: seq<RawRow>)

  /** No element occurs twice. */
  ghost predicate Distinct<T>(s: seq<T>) {
    forall i, j :: 0 <= i < j < |s| ==> s[i] != s[j]
  }

  /** The set of elements of a sequence. */
  function Elements<T>(s: seq<T>): set<T> {
    set x | x in s
  }

  /** The reference id of every row, in row order. */
  function RowIds(rows: seq<RawRow>): (ids: seq<string>)
    ensures |ids| == |rows|
    ensures forall i :: 0 <= i < |rows| ==> ids[i] == rows[i].refid
  {
    seq(|rows|, i requires 0 <= i < |rows| => rows[i].refid)
  }

  /** The reference id of every group, in group order. */
  function Ids(groups: seq<Group>): (ids: seq<string>)
    ensures |ids| == |groups|
    ensures forall i :: 0 <= i < |groups| ==> ids[i] == groups[i].refid
  {
    seq(|groups|, i requires 0 <= i < |groups| => groups[i].refid)
  }

  /** Reference definition of first-seen order: each element of `s` once, at the place
      where it first occurs. */
  function FirstSeen(s: seq<string>): (r: seq<string>)
    ensures Distinct(r)
    ensures forall x :: x in r <==> x in s
  {
    if |s| == 0 then []
    else
      var p, x := s[..|s| - 1], s[|s| - 1];
      FirstSeen(p) + (if x in p then [] else [x])
  }

  /** Reference definition of a group's contents: the rows carrying `id`, as a
      subsequence of the input (same relative order). */
  function RowsWith(rows: seq<RawRow>, id: string): (r: seq<RawRow>)
    ensures forall x :: x in r ==> x in rows && x.refid == id
    ensures |r| > 0 <==> id in RowIds(rows)
  {
    if |rows| == 0 then []
    else
      var p, x := rows[..|rows| - 1], rows[|rows| - 1];
      assert RowIds(rows) == RowIds(p) + [x.refid];
      RowsWith(p, id) + (if x.refid == id then [x] else [])
  }

  /** Position of the group with reference id `id`, or `|groups|` when there is none
      (the `refid in entries` test of the grouping loop). */
  function Find(groups: seq<Group>, id: string): (k: nat)
    ensures k <= |groups|
    ensures k < |groups| ==> groups[k].refid == id
    ensures k == |groups| <==> id !in Ids(groups)
  {
    if |groups| == 0 then 0
    else if groups[0].refid == id then
      assert Ids(groups)[0] == id;
      0
    else
      assert Ids(groups) == [groups[0].refid] + Ids(groups[1..]);
      1 + Find(groups[1..], id)
  }

  /** One step of the grouping loop: append the row to the group of its id, or open a
      new group at the end when the id has not been seen. */
  function AddRow(groups: seq<Group>, row: RawRow): (r: seq<Group>)
    // Groups keep their ids and places; a group opens only for an unseen id ...
    ensures |r| == |groups| + (if row.refid in Ids(groups) then 0 else 1)
    ensures forall i :: 0 <= i < |groups| ==> r[i].refid == groups[i].refid
    ensures forall i :: 0 <= i < |groups| && groups[i].refid != row.refid ==> r[i] == groups[i]
    ensures row.refid !in Ids(groups) ==> r[|groups|] == Group(row.refid, [row])
    // ... and while ids are distinct (as dictionary keys are), the row is appended to
    // the one group with its id, and ids stay distinct.
    ensures Distinct(Ids(groups)) ==>
              && Distinct(Ids(r))
              && forall i :: 0 <= i < |groups| && groups[i].refid == row.refid ==>
                   r[i].rows == groups[i].rows + [row]
  {
    var k := Find(groups, row.refid);
    if k < |groups| then
      var r := groups[k := Group(groups[k].refid, groups[k].rows + [row])];
      assert Ids(r) == Ids(groups);
      r
    else
      var r := groups + [Group(row.refid, [row])];
      assert Ids(r) == Ids(groups) + [row.refid];
      r
  }

  /** The grouping loop of `read_data`: fold `AddRow` over the rows in input order. */
  function GroupRows(rows: seq<RawRow>): (groups: seq<Group>)
    ensures forall i :: 0 <= i < |groups| ==> |groups[i].rows| > 0
  {
    if |rows| == 0 then []
    else AddRow(GroupRows(rows[..|rows| - 1]), rows[|rows| - 1])
  }

  /** `groups` is what grouping `rows` should give: the distinct reference ids in
      first-seen order, each group holding exactly the input rows with its id, in their
      original relative order. */
  ghost predicate Grouped(rows: seq<RawRow>, groups: seq<Group>) {
    && Ids(groups) == FirstSeen(RowIds(rows))
    && forall i :: 0 <= i < |groups| ==> groups[i].rows == RowsWith(rows, groups[i].refid)
  }

  /** First-seen order of the ids after one more row. */
  lemma FirstSeenSnoc(p: seq<RawRow>, x: RawRow)
    ensures FirstSeen(RowIds(p + [x]))
         == FirstSeen(RowIds(p)) + (if x.refid in RowIds(p) then [] else [x.refid])
  {
    var rows := p + [x];
    assert RowIds(rows)[..|rows| - 1] == RowIds(p);
  }

  /** The rows with a given id after one more row. */
  lemma RowsWithSnoc(p: seq<RawRow>, x: RawRow, id: string)
    ensures RowsWith(p + [x], id) == RowsWith(p, id) + (if x.refid == id then [x] else [])
  {
  }

  /** One step of the grouping loop keeps `Grouped`. */
  lemma AddRowStep(p: seq<RawRow>, x: RawRow, g: seq<Group>)
    requires Grouped(p, g)
    ensures Grouped(p + [x], AddRow(g, x))
  {
    var rows := p + [x];
    FirstSeenSnoc(p, x);
    var k := Find(g, x.refid);
    var g' := AddRow(g, x);
    if k < |g| {
      assert Ids(g') == Ids(g);
      forall i | 0 <= i < |g'|
        ensures g'[i].rows == RowsWith(rows, g'[i].refid)
      {
        RowsWithSnoc(p, x, g'[i].refid);
        if i != k {
          assert Ids(g)[i] != Ids(g)[k];
        }
      }
    } else {
      assert Ids(g') == Ids(g) + [x.refid];
      forall i | 0 <= i < |g'|
        ensures g'[i].rows == RowsWith(rows, g'[i].refid)
      {
        RowsWithSnoc(p, x, g'[i].refid);
        if i == |g| {
          assert RowsWith(p, x.refid) == [];
        } else {
          assert g'[i] == g[i];
          assert Ids(g')[i] != x.refid;
        }
      }
    }
  }

  /** Grouping yields the distinct reference ids in first-seen order, and each group
      holds exactly the input rows with its id, in their original relative order. */
  lemma {:induction false} GroupRowsCorrect(rows: seq<RawRow>)
    ensures Grouped(rows, GroupRows(rows))
  {
    if |rows| > 0 {
      var p, x := rows[..|rows| - 1], rows[|rows| - 1];
      assert p + [x] == rows;
      assert GroupRows(rows) == AddRow(GroupRows(p), x);
      GroupRowsCorrect(p);
      AddRowStep(p, x, GroupRows(p));
    }
  }

  /** Every row of a group carries the group's reference id. */
  lemma GroupRowsShareId(rows: seq<RawRow>)
    ensures forall i, r :: 0 <= i < |GroupRows(rows)| && r in GroupRows(rows)[i].rows ==>
              r.refid == GroupRows(rows)[i].refid && r in rows
  {
    GroupRowsCorrect(rows);
  }

  /** A sequence without repetitions has as many elements as its set. */
  lemma {:induction false} DistinctCardinality<T>(s: seq<T>)
    requires Distinct(s)
    ensures |Elements(s)| == |s|
  {
    if |s| > 0 {
      var p := s[..|s| - 1];
      DistinctCardinality(p);
      assert Elements(s) == Elements(p) + {s[|s| - 1]};
      assert s[|s| - 1] !in Elements(p);
    }
  }

  /** Grouping makes exactly one group per distinct reference id of the input. */
  lemma GroupCount(rows: seq<RawRow>)
    ensures |GroupRows(rows)| == |Elements(RowIds(rows))|
  {
    GroupRowsCorrect(rows);
    var ids := FirstSeen(RowIds(rows));
    DistinctCardinality(ids);
    assert Elements(ids) == Elements(RowIds(rows));
  }
}
