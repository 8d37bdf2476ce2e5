/** The pipeline of `main` without its file reading and printing: group and classify the
    rows (`read_data`), then apply every entry to an initially empty wallet, keeping the
    wallet as it stands after each entry (the snapshot `main` prints).
 */
module Reconcile {
  import opened Errors
  import opened Grouping
  import opened Entries
  import opened Wallets

  /** Reference definition of one entry: the classification of all the rows carrying a
      reference id that occurs in the input. */
  function ClassifyId(rows: seq<RawRow>, id: string, parse: string -> Option<real>): Result<Entry>
    requires id in RowIds(rows)
  {
    Classify(Group(id, RowsWith(rows, id)), parse)
  }

  /** Group the rows by reference id and classify every group, in first-seen order. */
  function ReadData(rows: seq<RawRow>, parse: string -> Option<real>): (r: Result<seq<Entry>>)
    // One entry per distinct reference id, in the order the ids are first seen ...
    ensures r.Ok? ==> |r.value| == |Elements(RowIds(rows))|
    ensures r.Ok? ==>
              && |r.value| == |FirstSeen(RowIds(rows))|
              && forall i :: 0 <= i < |r.value| ==> r.value[i].refid == FirstSeen(RowIds(rows))[i]
    // ... each built from exactly the rows with its id, in input order.
    ensures r.Ok? ==>
              forall i :: 0 <= i < |r.value| ==> r.value[i].rows == RowsWith(rows, r.value[i].refid)
    // Reading succeeds exactly when every group classifies ...
    ensures r.Ok? <==> forall i :: 0 <= i < |GroupRows(rows)| ==> Classify(GroupRows(rows)[i], parse).Ok?
    // ... each entry being the classification of its own rows ...
    ensures r.Ok? ==>
              forall i :: 0 <= i < |r.value| ==>
                && |r.value[i].rows| > 0
                && Ok(r.value[i]) == Classify(Group(r.value[i].refid, r.value[i].rows), parse)
    // ... and the only failure while reading is a number that does not parse, reported
    // for the first id (in first-seen order) whose rows fail to classify.
    ensures r.Err? ==> r.error.ParseError?
    ensures r.Err? ==> exists k ::
              && 0 <= k < |FirstSeen(RowIds(rows))|
              && (forall i :: 0 <= i < k ==> ClassifyId(rows, FirstSeen(RowIds(rows))[i], parse).Ok?)
              && ClassifyId(rows, FirstSeen(RowIds(rows))[k], parse) == Err(r.error)
  {
    ClassifiedGroups(rows, parse);
    ClassifyFailureLocated(rows, parse);
    ClassifyAll(GroupRows(rows), parse)
  }

  /** Classifying the groups keeps the grouping's guarantees: one entry per distinct
      reference id, in first-seen order, each built from exactly the rows with its id. */
  lemma ClassifiedGroups(rows: seq<RawRow>, parse: string -> Option<real>)
    ensures var r := ClassifyAll(GroupRows(rows), parse);
            r.Ok? ==>
              && |r.value| == |Elements(RowIds(rows))|
              && |r.value| == |FirstSeen(RowIds(rows))|
              && (forall i :: 0 <= i < |r.value| ==> r.value[i].refid == FirstSeen(RowIds(rows))[i])
              && (forall i :: 0 <= i < |r.value| ==> r.value[i].rows == RowsWith(rows, r.value[i].refid))
              && (forall i :: 0 <= i < |r.value| ==> Group(r.value[i].refid, r.value[i].rows) == GroupRows(rows)[i])
  {
    var groups := GroupRows(rows);
    GroupRowsCorrect(rows);
    GroupCount(rows);
    var r := ClassifyAll(groups, parse);
    if r.Ok? {
      forall i | 0 <= i < |r.value|
        ensures r.value[i].refid == FirstSeen(RowIds(rows))[i]
        ensures r.value[i].rows == RowsWith(rows, r.value[i].refid)
        ensures Group(r.value[i].refid, r.value[i].rows) == groups[i]
      {
        assert Group(r.value[i].refid, r.value[i].rows) == groups[i];
        assert Ids(groups)[i] == groups[i].refid;
      }
    }
  }

  /** A failed classification is that of the first id, in first-seen order, whose rows
      fail to classify. */
  lemma ClassifyFailureLocated(rows: seq<RawRow>, parse: string -> Option<real>)
    ensures ClassifyAll(GroupRows(rows), parse).Err? ==> exists k ::
              && 0 <= k < |FirstSeen(RowIds(rows))|
              && (forall i :: 0 <= i < k ==> ClassifyId(rows, FirstSeen(RowIds(rows))[i], parse).Ok?)
              && ClassifyId(rows, FirstSeen(RowIds(rows))[k], parse)
                 == Err(ClassifyAll(GroupRows(rows), parse).error)
  {
    var groups := GroupRows(rows);
    var r := ClassifyAll(groups, parse);
    if r.Err? {
      var k :| && 0 <= k < |groups|
               && (forall i :: 0 <= i < k ==> Classify(groups[i], parse).Ok?)
               && Classify(groups[k], parse) == Err(r.error);
      FailureAtReference(rows, parse, k, r.error);
    }
  }

  /** A group that fails to classify after groups that all classify is the failure of
      its id, in first-seen order. */
  lemma FailureAtReference(rows: seq<RawRow>, parse: string -> Option<real>, k: nat, e: Error)
    ensures && k < |GroupRows(rows)|
            && (forall i :: 0 <= i < k ==> Classify(GroupRows(rows)[i], parse).Ok?)
            && Classify(GroupRows(rows)[k], parse) == Err(e)
            ==>
            && k < |FirstSeen(RowIds(rows))|
            && (forall i :: 0 <= i < k ==> ClassifyId(rows, FirstSeen(RowIds(rows))[i], parse).Ok?)
            && ClassifyId(rows, FirstSeen(RowIds(rows))[k], parse) == Err(e)
  {
    ClassifyIdMatchesGroups(rows, parse);
  }

  /** Classifying the i-th group is classifying the i-th id in first-seen order. */
  lemma ClassifyIdMatchesGroups(rows: seq<RawRow>, parse: string -> Option<real>)
    ensures |GroupRows(rows)| == |FirstSeen(RowIds(rows))|
    ensures forall i :: 0 <= i < |GroupRows(rows)| ==>
              ClassifyId(rows, FirstSeen(RowIds(rows))[i], parse) == Classify(GroupRows(rows)[i], parse)
  {
    GroupsAreReference(rows);
  }

  /** Group `i` is the `i`-th id in first-seen order together with exactly its rows. */
  lemma GroupsAreReference(rows: seq<RawRow>)
    ensures var groups, ids := GroupRows(rows), FirstSeen(RowIds(rows));
            && |groups| == |ids|
            && forall i :: 0 <= i < |groups| ==> groups[i] == Group(ids[i], RowsWith(rows, ids[i]))
  {
    var groups := GroupRows(rows);
    GroupRowsCorrect(rows);
    forall i | 0 <= i < |groups|
      ensures groups[i] == Group(FirstSeen(RowIds(rows))[i], RowsWith(rows, FirstSeen(RowIds(rows))[i]))
    {
      assert Ids(groups)[i] == groups[i].refid;
    }
  }

  /** Apply the entries in order to an empty wallet (the loop of `main`). `history` holds
      the wallet after each entry applied successfully. */
  method ApplyAll(entries: seq<Entry>) returns (r: Result<Wallet>, history: seq<Wallet>)
    ensures r == Run(map[], entries)
    ensures |history| <= |entries|
    ensures forall i :: 0 <= i < |history| ==> Run(map[], entries[..i + 1]) == Ok(history[i])
    ensures r.Ok? ==> |history| == |entries| && (|entries| > 0 ==> r.value == history[|entries| - 1])
    ensures r.Err? ==>
              && |history| < |entries|
              && r == Update(if |history| == 0 then map[] else history[|history| - 1], entries[|history|])
  {
    var w: Wallet := map[];
    history := [];
    var i := 0;
    while i < |entries|
      invariant 0 <= i <= |entries|
      invariant |history| == i
      invariant Run(map[], entries[..i]) == Ok(w)
      invariant w == if i == 0 then map[] else history[i - 1]
      invariant forall j :: 0 <= j < i ==> Run(map[], entries[..j + 1]) == Ok(history[j])
    {
      var u := Update(w, entries[i]);
      if u.Err? {
        RunStopsAtFirstError(map[], entries, i, w);
        r := u;
        return;
      }
      RunExtend(map[], entries, i, w);
      w := u.value;
      assert forall j :: 0 <= j < i ==> (history + [w])[j] == history[j];
      history := history + [w];
      i := i + 1;
    }
    assert entries[..i] == entries;
    r := Ok(w);
  }

  /** The whole run: read the entries, then apply them; the first error of either phase
      is the outcome. */
  method Reconcile(rows: seq<RawRow>, parse: string -> Option<real>)
    returns (r: Result<Wallet>, history: seq<Wallet>)
    ensures ReadData(rows, parse).Err? ==> r == Err(ReadData(rows, parse).error) && history == []
    ensures ReadData(rows, parse).Ok? ==> r == Run(map[], ReadData(rows, parse).value)
    ensures ReadData(rows, parse).Ok? ==> |history| <= |ReadData(rows, parse).value|
    // One snapshot per entry on success; on failure, the entry after the last snapshot fails.
    ensures ReadData(rows, parse).Ok? && r.Ok? ==> |history| == |ReadData(rows, parse).value|
    ensures ReadData(rows, parse).Ok? && r.Err? ==>
              && |history| < |ReadData(rows, parse).value|
              && r == Update(if |history| == 0 then map[] else history[|history| - 1],
                             ReadData(rows, parse).value[|history|])
    ensures ReadData(rows, parse).Ok? ==>
              forall i :: 0 <= i < |history| ==>
                Run(map[], ReadData(rows, parse).value[..i + 1]) == Ok(history[i])
  {
    var entries := ReadData(rows, parse);
    if entries.Err? {
      return Err(entries.error), [];
    }
    r, history := ApplyAll(entries.value);
  }
}
