/** The wallet: a map from asset symbol to balance, updated entry by entry
    (`Wallet.update_asset`, `Wallet.update`).

    Balances are exact reals standing in for Python floats. Dust pruning is asymmetric
    exactly as `Wallet.update_asset` does it: an asset already present is deleted when its new balance
    falls below the threshold, but an absent asset is inserted with the raw delta and is
    never pruned on that first update, whatever its sign or size.
 */
module Wallets {
  import opened Errors
  import opened Entries

  type Wallet = map<string, real>

  /** The dust threshold, 1e-4. */
  const Dust: real := 0.0001

  /** The balance of `asset`, an absent asset counting as zero. */
  function Balance(w: Wallet, asset: string): real {
    if asset in w then w[asset] else 0.0
  }

  /** `w` and `w'` hold the same balance (or none) for every asset outside `assets`. */
  ghost predicate SameOutside(w: Wallet, w': Wallet, assets: set<string>) {
    forall a :: a !in assets ==> (a in w <==> a in w') && (a in w ==> w[a] == w'[a])
  }

  /** Add `delta` to the balance of `asset`. */
  function UpdateAsset(w: Wallet, asset: string, delta: real): (w': Wallet)
    // The asset disappears exactly when it was present and its sum is dust ...
    ensures asset !in w' <==> asset in w && w[asset] + delta < Dust
    // ... otherwise it holds its old balance (zero when absent) plus the delta ...
    ensures asset in w' ==> w'[asset] == Balance(w, asset) + delta
    // ... and every other asset is untouched.
    ensures SameOutside(w, w', {asset})
  {
    if asset in w then
      if w[asset] + delta < Dust then w - {asset} else w[asset := w[asset] + delta]
    else
      w[asset := delta]
  }

  /** The six types the wallet knows. */
  predicate KnownKind(kind: string) {
    kind in {"transfer", "withdrawal", "spend", "deposit", "trade", "staking"}
  }

  /** The assets an entry may change: its scalar asset, or the assets of its first two
      legs (legs beyond the second are never read). */
  function Touched(e: Entry): set<string> {
    match e.payload
    case Scalar(asset, _) => {asset}
    case Legs(legs) => set i | 0 <= i < |legs| && i < 2 :: legs[i].asset
  }

  /** Apply one entry to the wallet, by its type. */
  function Update(w: Wallet, e: Entry): (r: Result<Wallet>)
    // It fails exactly for an unknown type, or a multi-leg entry without two legs ...
    ensures r.Err? <==> !KnownKind(e.kind) || (IsMultiKind(e.kind) && |e.payload.legs| < 2)
    ensures r.Err? && !KnownKind(e.kind) ==> r.error == InvalidType(e.refid, e.kind)
    ensures r.Err? && KnownKind(e.kind) ==> r.error == MissingLeg(e.refid, |e.payload.legs|)
    // ... and otherwise changes no asset the entry does not name.
    ensures r.Ok? ==> SameOutside(w, r.value, Touched(e))
    // Each single-leg type moves its asset by its own signed delta ...
    ensures e.kind == "transfer" ==> r == Ok(UpdateAsset(w, e.payload.asset, -e.payload.amount))
    ensures e.kind == "withdrawal" ==>
              r == Ok(UpdateAsset(w, e.payload.asset, e.payload.amount - e.fee))
    ensures e.kind == "deposit" ==> r == Ok(UpdateAsset(w, e.payload.asset, e.payload.amount))
    // ... and staking is deliberately a no-op.
    ensures e.kind == "staking" ==> r == Ok(w)
  {
    if e.kind == "transfer" then
      Ok(UpdateAsset(w, e.payload.asset, -e.payload.amount))
    else if e.kind == "withdrawal" then
      Ok(UpdateAsset(w, e.payload.asset, e.payload.amount - e.fee))
    else if e.kind == "spend" then
      var legs := e.payload.legs;
      if |legs| < 2 then Err(MissingLeg(e.refid, |legs|))
      else Ok(UpdateAsset(UpdateAsset(w, legs[0].asset, legs[0].amount), legs[1].asset, legs[1].amount))
    else if e.kind == "deposit" then
      Ok(UpdateAsset(w, e.payload.asset, e.payload.amount))
    else if e.kind == "trade" then
      var legs := e.payload.legs;
      if |legs| < 2 then Err(MissingLeg(e.refid, |legs|))
      else
        var w1 := UpdateAsset(w, legs[0].asset, legs[0].amount - e.fee);
        Ok(UpdateAsset(w1, legs[1].asset, legs[1].amount - e.fee))
    else if e.kind == "staking" then
      Ok(w)
    else
      Err(InvalidType(e.refid, e.kind))
  }

  /** Whether `Update` accepts the entry, whatever the wallet: a known type, and two legs
      for a multi-leg one. */
  predicate Applies(e: Entry) {
    KnownKind(e.kind) && (IsMultiKind(e.kind) ==> |e.payload.legs| >= 2)
  }

  /** Apply the entries in order, starting from `w`; the first failure ends the run. */
  function Run(w: Wallet, entries: seq<Entry>): (r: Result<Wallet>)
    decreases |entries|
    // Whether a run fails depends on the entries alone, not on the balances ...
    ensures r.Ok? <==> forall i :: 0 <= i < |entries| ==> Applies(entries[i])
    // ... and a failed run reports the error of the first entry `Update` rejects.
    ensures r.Err? ==> exists k ::
              && 0 <= k < |entries|
              && (forall i :: 0 <= i < k ==> Applies(entries[i]))
              && !Applies(entries[k])
              && (!KnownKind(entries[k].kind) ==>
                    r.error == InvalidType(entries[k].refid, entries[k].kind))
              && (KnownKind(entries[k].kind) ==>
                    r.error == MissingLeg(entries[k].refid, |entries[k].payload.legs|))
  {
    if |entries| == 0 then Ok(w)
    else
      match Update(w, entries[0])
      case Err(e) =>
        assert !Applies(entries[0]);
        Err(e)
      case Ok(w1) =>
        var r := Run(w1, entries[1..]);
        assert forall i :: 1 <= i < |entries| ==> entries[i] == entries[1..][i - 1];
        r
  }

  /** Two updates of one asset merge into one update by their sum exactly when no dust
      pruning in between changes the outcome: the asset was present and stays above the
      threshold after the first delta (or drops to exactly zero and the second delta alone
      clears the threshold), or it was absent and the summed delta clears the threshold. */
  lemma UpdateAssetMerge(w: Wallet, asset: string, d1: real, d2: real)
    ensures UpdateAsset(UpdateAsset(w, asset, d1), asset, d2) == UpdateAsset(w, asset, d1 + d2)
        <==> if asset in w then w[asset] + d1 >= Dust || (w[asset] + d1 == 0.0 && d2 >= Dust)
             else d1 + d2 >= Dust
  {
  }

  /** The pruning asymmetry on a concrete case: a negative first delta for an absent asset
      is kept, while the same delta applied to a present asset removes it. */
  lemma DustAsymmetry()
    ensures UpdateAsset(map[], "BTC", -1.0) == map["BTC" := -1.0]
    ensures UpdateAsset(map["BTC" := 0.5], "BTC", -1.0) == map[]
  {
  }

  /** Only withdrawals and trades charge the fee: for every other type the fee has no
      effect on the outcome. */
  lemma FeeChargedOnlyOnWithdrawalAndTrade(w: Wallet, e: Entry, fee: real)
    requires e.kind != "withdrawal" && e.kind != "trade"
    ensures Update(w, e) == Update(w, e.(fee := fee))
  {
  }

  /** A withdrawal is a deposit of the amount net of the fee. */
  lemma WithdrawalIsNetDeposit(w: Wallet, e: Entry)
    requires e.kind == "withdrawal"
    ensures Update(w, e)
         == Update(w, e.(kind := "deposit", payload := Scalar(e.payload.asset, e.payload.amount - e.fee)))
  {
  }

  /** A transfer is a deposit of the negated amount, with the fee ignored. */
  lemma TransferIsNegatedDeposit(w: Wallet, e: Entry)
    requires e.kind == "transfer"
    ensures Update(w, e) == Update(w, e.(kind := "deposit", payload := Scalar(e.payload.asset, -e.payload.amount)))
  {
  }

  /** The legs of a multi-leg entry with the fee subtracted from each. */
  function NetOfFee(legs: seq<Leg>, fee: real): (r: seq<Leg>)
    ensures |r| == |legs|
    ensures forall i :: 0 <= i < |legs| ==> r[i] == Leg(legs[i].asset, legs[i].amount - fee)
  {
    seq(|legs|, i requires 0 <= i < |legs| => Leg(legs[i].asset, legs[i].amount - fee))
  }

  /** A trade is a spend whose legs each have the full fee subtracted. */
  lemma TradeIsNetSpend(w: Wallet, e: Entry)
    requires e.kind == "trade"
    ensures Update(w, e) == Update(w, e.(kind := "spend", payload := Legs(NetOfFee(e.payload.legs, e.fee))))
  {
  }

  /** Updates of two different assets commute. */
  lemma UpdateAssetCommutes(w: Wallet, a: string, da: real, b: string, db: real)
    requires a != b
    ensures UpdateAsset(UpdateAsset(w, a, da), b, db) == UpdateAsset(UpdateAsset(w, b, db), a, da)
  {
  }

  /** The fee a multi-leg entry charges on each leg: the entry's fee for a trade, none
      for a spend. */
  function LegFee(e: Entry): real {
    if e.kind == "trade" then e.fee else 0.0
  }

  /** A multi-leg entry with at least two legs applies its first two legs in order, each
      net of `LegFee`. */
  lemma MultiLegUpdate(w: Wallet, e: Entry)
    requires IsMultiKind(e.kind) && |e.payload.legs| >= 2
    ensures var l0, l1, fee := e.payload.legs[0], e.payload.legs[1], LegFee(e);
            Update(w, e) == Ok(UpdateAsset(UpdateAsset(w, l0.asset, l0.amount - fee), l1.asset, l1.amount - fee))
  {
  }

  /** The order of the two legs matters only when they name the same asset. */
  lemma LegOrderIrrelevantForDistinctAssets(w: Wallet, e: Entry)
    requires IsMultiKind(e.kind) && |e.payload.legs| == 2
    requires e.payload.legs[0].asset != e.payload.legs[1].asset
    ensures Update(w, e) == Update(w, e.(payload := Legs([e.payload.legs[1], e.payload.legs[0]])))
  {
    var l0, l1, fee := e.payload.legs[0], e.payload.legs[1], LegFee(e);
    var swapped: Entry := e.(payload := Legs([l1, l0]));
    MultiLegUpdate(w, e);
    MultiLegUpdate(w, swapped);
    UpdateAssetCommutes(w, l0.asset, l0.amount - fee, l1.asset, l1.amount - fee);
  }

  /** Running a concatenation is running the first part, then the second from where the
      first left off; a failure in the first part ends the run there. */
  lemma {:induction false} RunAppend(w: Wallet, xs: seq<Entry>, ys: seq<Entry>)
    ensures Run(w, xs + ys) == match Run(w, xs)
                               case Err(e) => Err(e)
                               case Ok(w1) => Run(w1, ys)
    decreases |xs|
  {
    if |xs| == 0 {
      assert xs + ys == ys;
    } else {
      assert (xs + ys)[0] == xs[0];
      assert (xs + ys)[1..] == xs[1..] + ys;
      match Update(w, xs[0])
      case Err(_) =>
      case Ok(w1) => RunAppend(w1, xs[1..], ys);
    }
  }

  /** A run that reaches entry `k` in state `wk` and fails on it reports that entry's
      error, whatever follows: no later entry is applied. */
  lemma RunStopsAtFirstError(w: Wallet, entries: seq<Entry>, k: nat, wk: Wallet)
    requires k < |entries|
    requires Run(w, entries[..k]) == Ok(wk)
    requires Update(wk, entries[k]).Err?
    ensures Run(w, entries) == Err(Update(wk, entries[k]).error)
  {
    assert entries == entries[..k] + entries[k..];
    RunAppend(w, entries[..k], entries[k..]);
  }

  /** A run that reached `wk` after `k` entries goes one entry further when `Update`
      accepts the next one. */
  lemma RunExtend(w: Wallet, entries: seq<Entry>, k: nat, wk: Wallet)
    requires k < |entries|
    requires Run(w, entries[..k]) == Ok(wk)
    requires Update(wk, entries[k]).Ok?
    ensures Run(w, entries[..k + 1]) == Update(wk, entries[k])
  {
    assert entries[..k] + [entries[k]] == entries[..k + 1];
    RunAppend(w, entries[..k], [entries[k]]);
  }

  /** Entries that are all staking leave the wallet as it was. */
  lemma {:induction false} RunStakingOnly(w: Wallet, entries: seq<Entry>)
    requires forall i :: 0 <= i < |entries| ==> entries[i].kind == "staking"
    ensures Run(w, entries) == Ok(w)
    decreases |entries|
  {
    if |entries| > 0 {
      RunStakingOnly(w, entries[1..]);
    }
  }

  /** A successful run changes no asset that none of its entries names. */
  lemma {:induction false} RunFrame(w: Wallet, entries: seq<Entry>, asset: string)
    requires Run(w, entries).Ok?
    requires forall i :: 0 <= i < |entries| ==> asset !in Touched(entries[i])
    ensures asset in Run(w, entries).value <==> asset in w
    ensures asset in w ==> Run(w, entries).value[asset] == w[asset]
    decreases |entries|
  {
    if |entries| > 0 {
      var w1 := Update(w, entries[0]).value;
      RunFrame(w1, entries[1..], asset);
    }
  }
}
