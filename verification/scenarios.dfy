/** Worked examples of a whole run on concrete rows, with a number parser that knows
    only the texts the rows use. */
module Scenarios {
  import opened Errors
  import opened Grouping
  import opened Entries
  import opened Wallets
  import opened Reconcile

  /** The texts used below and their values; anything else does not parse. */
  function SampleParse(s: string): Option<real> {
    if s == "0.5" then Some(0.5)
    else if s == "0" then Some(0.0)
    else if s == "-1.0" then Some(-1.0)
    else if s == "10" then Some(10.0)
    else if s == "0.001" then Some(0.001)
    else None
  }

  /** A single deposit row yields one scalar entry, and the wallet holds the amount. */
  lemma DepositScenario()
    ensures var rows := [RawRow("R1", "deposit", "t0", "BTC", "0.5", "0", "0.5")];
            && ReadData(rows, SampleParse)
               == Ok([Event("R1", "deposit", "t0", Scalar("BTC", 0.5), 0.0, rows)])
            && Run(map[], ReadData(rows, SampleParse).value) == Ok(map["BTC" := 0.5])
  {
    var rows := [RawRow("R1", "deposit", "t0", "BTC", "0.5", "0", "0.5")];
    assert rows[..0] == [];
    var groups := GroupRows(rows);
    assert groups == [Group("R1", rows)];
    var e := Event("R1", "deposit", "t0", Scalar("BTC", 0.5), 0.0, rows);
    assert Classify(groups[0], SampleParse) == Ok(e);
    assert ClassifyAll(groups[1..], SampleParse) == Ok([]);
    assert [e] + [] == [e];
    assert ClassifyAll(groups, SampleParse) == Ok([e]);
    assert ReadData(rows, SampleParse) == Ok([e]);
  }

  /** The two legs of one trade: one BTC sold for ten ETH, with the fee on both rows. */
  function TradeRows(): seq<RawRow> {
    [RawRow("R2", "trade", "t1", "BTC", "-1.0", "0.001", ""),
     RawRow("R2", "trade", "t1", "ETH", "10", "0.001", "")]
  }

  /** The two trade rows form one group, in row order. */
  lemma TradeGrouping()
    ensures GroupRows(TradeRows()) == [Group("R2", TradeRows())]
  {
    var rows := TradeRows();
    var r0, r1 := rows[0], rows[1];
    assert [r0][..0] == [];
    assert GroupRows([r0]) == [Group("R2", [r0])];
    assert rows[..1] == [r0];
    var g1 := [Group("R2", [r0])];
    assert r1.refid == "R2" && g1[0].refid == "R2";
    assert Find(g1, r1.refid) == 0;
    assert g1[0].rows + [r1] == [r0, r1];
    assert AddRow(g1, r1) == g1[0 := Group("R2", [r0, r1])];
    assert rows[..|rows| - 1] == [r0] && rows == [r0, r1];
  }

  /** The entry the trade rows classify into. */
  function TradeEntry(): Entry {
    Event("R2", "trade", "t1", Legs([Leg("BTC", -1.0), Leg("ETH", 10.0)]), 0.001, TradeRows())
  }

  /** The trade group classifies into one entry with two legs in row order. */
  lemma TradeClassification()
    ensures ReadData(TradeRows(), SampleParse) == Ok([TradeEntry()])
  {
    var rows := TradeRows();
    TradeGrouping();
    var e := TradeEntry();
    assert SampleParse(rows[1].amount) == Some(10.0);
    assert ParseLegs("R2", rows[1..][1..], SampleParse) == Ok([]);
    assert [Leg("ETH", 10.0)] + [] == [Leg("ETH", 10.0)];
    assert ParseLegs("R2", rows[1..], SampleParse) == Ok([Leg("ETH", 10.0)]);
    assert SampleParse(rows[0].amount) == Some(-1.0);
    assert [Leg("BTC", -1.0)] + [Leg("ETH", 10.0)] == [Leg("BTC", -1.0), Leg("ETH", 10.0)];
    assert ParseLegs("R2", rows, SampleParse) == Ok([Leg("BTC", -1.0), Leg("ETH", 10.0)]);
    assert Classify(Group("R2", rows), SampleParse) == Ok(e);
    assert [e] + [] == [e];
    assert ClassifyAll([Group("R2", rows)], SampleParse) == Ok([e]);
  }

  /** A trade charges the fee on both legs. From an empty wallet both legs are first
      insertions, so the negative BTC leg is kept rather than pruned. */
  lemma TradeScenario()
    ensures Run(map[], [TradeEntry()]) == Ok(map["BTC" := -1.001, "ETH" := 9.999])
  {
  }

  /** A balance that an update brings to exactly 0.00005 is pruned from the wallet. */
  lemma DustScenario()
    ensures var e: Entry := Event("R5", "deposit", "t3", Scalar("BTC", -0.49995), 0.0, []);
            Update(map["BTC" := 0.5, "ETH" := 2.0], e) == Ok(map["ETH" := 2.0])
  {
    var w: Wallet := map["BTC" := 0.5, "ETH" := 2.0];
    assert UpdateAsset(w, "BTC", -0.49995) == map["ETH" := 2.0];
  }

  /** Because pruning forgets the pre-pruning balance, the final wallet depends on the
      order of the entries: a withdrawal that leaves dust deletes the asset, and a later
      deposit starts it afresh; the other order keeps the whole sum. */
  lemma OrderMattersUnderPruning()
    ensures var out: Entry := Event("R6", "withdrawal", "t4", Scalar("BTC", -0.99999), 0.0, []);
            var dep: Entry := Event("R7", "deposit", "t5", Scalar("BTC", 2.0), 0.0, []);
            && Run(map["BTC" := 1.0], [out, dep]) == Ok(map["BTC" := 2.0])
            && Run(map["BTC" := 1.0], [dep, out]) == Ok(map["BTC" := 2.00001])
  {
    var out: Entry := Event("R6", "withdrawal", "t4", Scalar("BTC", -0.99999), 0.0, []);
    var dep: Entry := Event("R7", "deposit", "t5", Scalar("BTC", 2.0), 0.0, []);
    var w: Wallet := map["BTC" := 1.0];
    assert Update(w, out) == Ok(map[]);
    assert Update(map[], dep) == Ok(map["BTC" := 2.0]);
    assert [out, dep][1..] == [dep] && [dep, out][1..] == [out];
    assert UpdateAsset(w, "BTC", 2.0) == map["BTC" := 3.0];
    assert Update(w, dep) == Ok(map["BTC" := 3.0]);
    assert UpdateAsset(map["BTC" := 3.0], "BTC", -0.99999) == map["BTC" := 2.00001];
    assert Update(map["BTC" := 3.0], out) == Ok(map["BTC" := 2.00001]);
    assert Run(map["BTC" := 2.0], []) == Ok(map["BTC" := 2.0]);
    assert Run(map[], [dep]) == Ok(map["BTC" := 2.0]);
    assert Run(map["BTC" := 3.0], [out]) == Ok(map["BTC" := 2.00001]);
  }

  /** An unknown type ends the run with its error, even after a successful entry. */
  lemma InvalidTypeScenario()
    ensures var e0: Entry := Event("R1", "deposit", "t0", Scalar("BTC", 0.5), 0.0, []);
            var e1: Entry := Event("R3", "margin", "t1", Scalar("BTC", 0.1), 0.0, []);
            var e2: Entry := Event("R4", "deposit", "t2", Scalar("ETH", 1.0), 0.0, []);
            Run(map[], [e0, e1, e2]) == Err(InvalidType("R3", "margin"))
  {
  }
}
