# Ledger reconciliation core, modelled in Dafny

This project models the core of a small ledger reconciler (`main.py`). The core has two parts:

* **Grouper and classifier.** Raw ledger rows are folded into groups keyed by reference id (`refid`).
  Groups come out in the order their id is first seen. Within a group, rows keep their input order.
  Each group is then classified into a typed entry. Type, time and fee come from the first row. For
  `trade` and `spend`, asset and amount become one leg per row. For every other type they are scalars
  taken from the first row.
* **Wallet.** This is a map from asset symbol to balance. Each entry type applies its own signed
  delta. Dust pruning is asymmetric:
  * an asset that is already present is deleted when its new balance is below 1e-4;
  * an absent asset is inserted with the raw delta and is never pruned on that first update.

Modules:

| file | module | models |
|---|---|---|
| `errors.dfy` | `Errors` | `Option`, `Result` and the three failures: unparsable number, missing leg, invalid type |
| `grouping.dfy` | `Grouping` | the grouping loop of `read_data`, plus reference definitions of first-seen order and of a group's rows |
| `entries.dfy` | `Entries` | `Entry.parse_raw_entries`: the classified entry as a tagged payload (scalar or legs) |
| `wallets.dfy` | `Wallets` | `Wallet.update_asset`, `Wallet.update`, and the fold of `update` over the entries |
| `reconcile.dfy` | `Reconcile` | `read_data` without the file reading, and the update loop of `main` without the printing |
| `scenarios.dfy` | `Scenarios` | worked examples on concrete rows |

Modelling choices:

* Numbers are exact `real`s and the dust threshold is the exact constant `0.0001`.
* Converting text to a number (`float(...)`) is a parameter `parse: string -> Option<real>`. `None`
  stands for a text that `float` rejects.
* Every exception becomes an `Err` value.
* The mutable `is_parsed` flag is replaced by two types: `Group` (unclassified rows) and `Entry`
  (classified). `Entry` is the subset of `Event` whose payload is a list of legs exactly when its type
  is `trade` or `spend`. That is the only shape `parse_raw_entries` can produce.

Behaviours of the code that the model keeps as they are:

* **No pruning on first insertion.** `update_asset` prunes only when the asset was already present
  (main.py:86-93). A first delta is stored as is, even a negative one. See `Wallets.UpdateAsset`,
  `Wallets.DustAsymmetry` and `Scenarios.TradeScenario`.
* **One leg per row.** `parse_raw_entries` builds one leg per row of a trade or spend, however many
  rows there are (main.py:35-36). `update` then reads legs 0 and 1 only (main.py:104-112). With fewer
  than two legs, indexing leg 1 raises; the model returns `MissingLeg`. With more than two, the extra
  legs are ignored.
* **The final balance depends on entry order once pruning fires.** Pruning forgets the balance it
  deletes, so a later update starts the asset again from zero. `Wallets.UpdateAssetMerge` gives the
  exact condition under which two updates of one asset act as one update by their sum.
  `Scenarios.OrderMattersUnderPruning` shows two entries whose order changes the final balance.
* **Only the first row of a single-leg type is read.** `parse_raw_entries` reads asset and amount from
  row 0 whatever the group size, and never converts the amounts of later rows (main.py:35-36).

## Model

| member | source | states |
|---|---|---|
| `Grouping.Find` | main.py:55 | the position found holds the id; the position equals the group count exactly when no group has the id |
| `Grouping.GroupRows` | main.py:52-59 | every group has at least one row, since a group is created holding the row that opened it |
| `Grouping.AddRow` | main.py:53-59 | one iteration of the grouping loop. The groups keep their ids and places, and a new group holding only the row opens at the end exactly when the row's id is unseen. While the ids are distinct, as dictionary keys are, the row is appended to the one group with its id and the ids stay distinct. `Grouping.AddRowStep` states what the iteration does to the whole grouping |
| `Grouping.AddRowStep` | main.py:53-59 | one iteration of the grouping loop keeps two facts. The ids are in first-seen order, and each group holds exactly the rows seen so far with its id |
| `Grouping.GroupRowsCorrect` | main.py:52-62 | the ids of the groups are the distinct refids of the input in first-seen order. Each group's rows are the input rows with that refid, in their original relative order |
| `Grouping.GroupRowsShareId` | main.py:53-59 | every row in a group carries the group's refid and comes from the input |
| `Grouping.GroupCount` | main.py:52-62 | there is exactly one group per distinct refid: the group count equals the size of the set of the rows' refids |
| `Entries.ParseLegs` | main.py:35-36 | success exactly when every row's amount parses, giving one leg per row in row order. Otherwise the error names the first row whose amount does not parse |
| `Entries.ParsePayload` | main.py:32-36 | success exactly when the amounts the type converts parse. `trade`/`spend` give one leg per row with that row's asset and amount; other types give the first row's asset and amount. Otherwise the error names the first amount text, in row order, that does not parse. `Entries.Classify` states the same of the whole entry |
| `Entries.Classify` | main.py:29-37 | type, time and fee come from the first row; the rows are kept. `trade`/`spend` give one leg per row in row order; other types give the first row's asset and amount. Failure happens exactly when a converted amount or the fee does not parse. An amount failure is reported before a fee failure, and it names the first amount text, in row order, that does not parse |
| `Entries.ClassifyAll` | main.py:62-64 | success exactly when every group classifies, giving one entry per group in order. Otherwise the error is that of the first group that fails |
| `Wallets.UpdateAsset` | main.py:84-93 | the asset disappears exactly when it was present and old + delta < 1e-4. Otherwise it holds its old balance (zero if absent) plus delta. An absent asset is never pruned. Every other asset is unchanged |
| `Wallets.UpdateAssetMerge` | main.py:84-93 | two updates of one asset equal one update by their sum exactly when pruning in between does not interfere. That case is characterised in both directions |
| `Wallets.DustAsymmetry` | main.py:86-93 | one concrete example of the asymmetry: delta −1.0 is kept for an absent BTC, while the same delta removes BTC when it holds 0.5. The general rule is the contract of `Wallets.UpdateAsset` |
| `Wallets.UpdateAssetCommutes` | main.py:84-93 | updates of two different assets commute |
| `Wallets.Update` | main.py:95-119 | failure happens exactly for a type outside the six known ones (`InvalidType`) or a trade/spend with fewer than two legs (`MissingLeg`). A success changes no asset other than the entry's asset or its first two legs. `transfer` updates its asset by −amount, `withdrawal` by amount − fee and `deposit` by amount, the fee being ignored. `staking` leaves the wallet unchanged |
| `Wallets.FeeChargedOnlyOnWithdrawalAndTrade` | main.py:97-116 | for every type except withdrawal and trade, changing the fee changes nothing |
| `Wallets.WithdrawalIsNetDeposit` | main.py:100-108 | a withdrawal acts as a deposit of amount − fee |
| `Wallets.TransferIsNegatedDeposit` | main.py:97-108 | a transfer acts as a deposit of −amount |
| `Wallets.TradeIsNetSpend` | main.py:103-112 | a trade acts as a spend whose two legs each have the full fee subtracted |
| `Wallets.MultiLegUpdate` | main.py:103-112 | a trade or spend with at least two legs updates leg 0 and then leg 1. Each leg's amount is net of the fee for a trade and taken as is for a spend |
| `Wallets.LegOrderIrrelevantForDistinctAssets` | main.py:103-112 | swapping the two legs of a trade or spend changes nothing when they name different assets |
| `Wallets.Run` | main.py:124-126 | the update loop of `main` as a fold. It succeeds exactly when every entry has a known type and, for a trade or spend, two legs, whatever the balances. Otherwise it fails with the error of the first entry that does not: `InvalidType` or `MissingLeg`. `Wallets.RunAppend`, `Wallets.RunExtend` and `Wallets.RunStopsAtFirstError` state how it composes, and `Reconcile.ApplyAll` and `Reconcile.Reconcile` are stated over it |
| `Wallets.RunAppend` | main.py:124-126 | folding over a concatenation folds the first part, then continues from its wallet. A failure in the first part ends the run |
| `Wallets.RunExtend` | main.py:125-126 | a run that reached a wallet after k entries, followed by an entry that `update` accepts, gives the wallet after k+1 entries |
| `Wallets.RunStopsAtFirstError` | main.py:118-126 | an entry that fails ends the run with its error, and no later entry is applied |
| `Wallets.RunStakingOnly` | main.py:114-116 | a run of staking entries leaves the wallet unchanged |
| `Wallets.RunFrame` | main.py:95-126 | a successful run leaves every asset that none of its entries names as it was |
| `Reconcile.ReadData` | main.py:51-66 | reading succeeds exactly when every group classifies. Then there is one entry per distinct refid, in first-seen order. Each entry is built from exactly the rows with its refid, in input order, and is the classification of those rows. The only failure is a number that does not parse. It is the error of the first refid, in first-seen order, whose rows fail to classify |
| `Reconcile.ClassifiedGroups` | main.py:51-66 | classifying the groups keeps the grouping's guarantees: one entry per distinct refid in first-seen order, each entry carrying the refid and rows of its group |
| `Reconcile.ClassifyFailureLocated` | main.py:62-64 | when classifying the groups fails, the error is that of the first refid, in first-seen order, whose rows fail to classify; all earlier refids classify |
| `Reconcile.FailureAtReference` | main.py:52-64 | if the k-th group fails to classify after k groups that classify, the same holds of the k-th refid in first-seen order with its rows |
| `Reconcile.ClassifyIdMatchesGroups` | main.py:52-64 | classifying the i-th group is classifying the i-th refid in first-seen order together with all input rows carrying it |
| `Reconcile.GroupsAreReference` | main.py:52-62 | group i is the i-th refid in first-seen order together with exactly the input rows carrying it |
| `Reconcile.ApplyAll` | main.py:124-133 | the result is the fold of `update` from an empty wallet. The snapshot after entry i is the fold over the first i+1 entries. On failure, the failing entry is the one after the last snapshot |
| `Reconcile.Reconcile` | main.py:121-135 | the run fails with the read error if reading fails. Otherwise it yields the fold over the entries read. The snapshot after entry i is the fold over the first i+1 entries. There is one snapshot per entry on success; on failure, the failing entry is the one after the last snapshot |
| `Scenarios.DepositScenario` | main.py:29-37 | one deposit row of 0.5 BTC classifies to a scalar entry, and the wallet ends as {BTC: 0.5} |
| `Scenarios.TradeGrouping` | main.py:52-59 | the two rows of a trade form one group in row order |
| `Scenarios.TradeClassification` | main.py:31-37 | the trade group becomes one entry with legs (BTC, −1.0) and (ETH, 10) and fee 0.001 |
| `Scenarios.TradeScenario` | main.py:110-112 | applying that trade to an empty wallet gives BTC −1.001 and ETH 9.999. The negative first insertion is kept |
| `Scenarios.DustScenario` | main.py:86-90 | a present balance brought to 0.00005 is deleted, and the other assets are unchanged |
| `Scenarios.OrderMattersUnderPruning` | main.py:84-93 | the same two entries applied in opposite orders leave different wallets. A withdrawal that leaves dust deletes the asset, and a later deposit restarts it from zero |
| `Scenarios.InvalidTypeScenario` | main.py:118-119 | an unknown type ends the run with `InvalidType`, even after a successful entry |

## Left out

- Reading the CSV file and zipping the header with each row (main.py:41-49). This is file I/O. Input is a sequence of `RawRow` records that always have every column, so the `KeyError` that a short CSV row could cause is not modelled.
- `float(...)` text-to-number conversion (main.py:36-37). It is the `parse` parameter, and the grammar of Python float literals is not modelled.
- Non-finite numbers. Python's `float` accepts `"nan"`, `"inf"` and `"infinity"`. `parse` yields only exact reals, so such a text must map to a finite real or to a `ParseError`, where Python succeeds. A NaN balance would never be pruned, since `nan < 1e-4` is false (main.py:89). An infinite one behaves differently from any real. Neither is modelled.
- IEEE double rounding. Balances are exact reals. The reported `balance` column is never compared with the wallet, so the mismatch the TODO mentions (main.py:128-129) is outside the model.
- `Entry.__str__`, `Wallet.__str__`, and the printing in `main` (main.py:10-24, 75-82, 128-135). These are console output. `Reconcile.ApplyAll` returns the wallet snapshots that `main` prints instead of printing them.
- The `is_parsed` flag (main.py:8, 39). It is replaced by the separate `Group` and `Entry` types.
- The exception message. `raise Exception("Invalid type!")` carries only that text. `InvalidType` also carries the refid and the type.
- `Wallets.Update`: on a trade or spend with a single leg, `update` changes leg 0 before indexing leg 1 raises. The model returns `MissingLeg` without that partial update. The exception ends the run, so the partial wallet is never observed.
