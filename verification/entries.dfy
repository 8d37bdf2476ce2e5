/** Classification of a group of raw rows into a typed ledger entry
    (`Entry.parse_raw_entries`).

    Type, time and fee are read from the first row only. For the two multi-leg types,
    "trade" and "spend", asset and amount become one leg per raw row, in row order; for
    every other type they are scalars read from the first row. Text-to-number conversion
    is the parameter `parse`; `None` stands for a text `float` rejects.
 */
module Entries {
  import opened Errors
  import opened Grouping

  /** One (asset, amount) leg of a multi-leg entry. */
  datatype Leg = Leg(asset: string, amount: real)

  /** The type-dependent part of an entry: a scalar asset and amount, or a list of legs. */
  datatype Payload = Scalar(asset: string, amount: real) | Legs(legs: seq<Leg>)

  /** A classified entry; `rows` are the raw rows it was built from. */
  datatype Event = Event(refid: string, kind: string, time: string, payload: Payload,
                         fee: real, rows: seq<RawRow>)

  /** The types whose asset and amount are per-row lists. */
  predicate IsMultiKind(kind: string) {
    kind == "trade" || kind == "spend"
  }

  /** An entry carries legs exactly when its type is multi-leg. */
  predicate WellShaped(e: Event) {
    IsMultiKind(e.kind) <==> e.payload.Legs?
  }

  /** A classified entry whose payload shape agrees with its type. */
  type Entry = e: Event | WellShaped(e) witness Event("", "", "", Scalar("", 0.0), 0.0, [])

  /** The amount list of a multi-leg entry: every row's amount parsed, left to right,
      stopping at the first text that does not parse. */
  function ParseLegs(refid: string, rows: seq<RawRow>, parse: string -> Option<real>)
    : (r: Result<seq<Leg>>)
    ensures r.Ok? <==> forall i :: 0 <= i < |rows| ==> parse(rows[i].amount).Some?
    ensures r.Ok? ==>
              && |r.value| == |rows|
              && forall i :: 0 <= i < |rows| ==>
                   r.value[i] == Leg(rows[i].asset, parse(rows[i].amount).value)
    ensures r.Err? ==>
              exists k :: && 0 <= k < |rows|
                          && parse(rows[k].amount).None?
                          && (forall i :: 0 <= i < k ==> parse(rows[i].amount).Some?)
                          && r.error == ParseError(refid, "amount", rows[k].amount)
  {
    if |rows| == 0 then Ok([])
    else
      match parse(rows[0].amount)
      case None => Err(ParseError(refid, "amount", rows[0].amount))
      case Some(a) =>
        match ParseLegs(refid, rows[1..], parse)
        case Err(e) => Err(e)
        case Ok(legs) => Ok([Leg(rows[0].asset, a)] + legs)
  }

  /** Whether every amount text the first row's type makes classification convert parses:
      all rows' amounts for a multi-leg type, only the first row's otherwise. */
  predicate AmountsParse(rows: seq<RawRow>, parse: string -> Option<real>)
    requires |rows| > 0
  {
    if IsMultiKind(rows[0].kind) then forall i :: 0 <= i < |rows| ==> parse(rows[i].amount).Some?
    else parse(rows[0].amount).Some?
  }

  /** The asset/amount part of an entry, as the first row's type dictates. */
  function ParsePayload(refid: string, rows: seq<RawRow>, parse: string -> Option<real>)
    : (r: Result<Payload>)
    requires |rows| > 0
    // It succeeds exactly when the amounts it converts parse ...
    ensures r.Ok? <==> AmountsParse(rows, parse)
    // ... giving one leg per row for a multi-leg type, and the first row's asset and
    // amount otherwise.
    ensures r.Ok? && IsMultiKind(rows[0].kind) ==>
              && r.value.Legs?
              && |r.value.legs| == |rows|
              && forall i :: 0 <= i < |rows| ==>
                   && r.value.legs[i].asset == rows[i].asset
                   && Some(r.value.legs[i].amount) == parse(rows[i].amount)
    ensures r.Ok? && !IsMultiKind(rows[0].kind) ==>
              && r.value.Scalar?
              && r.value.asset == rows[0].asset
              && Some(r.value.amount) == parse(rows[0].amount)
    // The error names the first amount text that does not parse.
    ensures r.Err? ==> exists k ::
              && 0 <= k < |rows|
              && (k > 0 ==> IsMultiKind(rows[0].kind))
              && parse(rows[k].amount).None?
              && (forall i :: 0 <= i < k ==> parse(rows[i].amount).Some?)
              && r.error == ParseError(refid, "amount", rows[k].amount)
  {
    if IsMultiKind(rows[0].kind) then
      match ParseLegs(refid, rows, parse)
      case Err(e) => Err(e)
      case Ok(legs) => Ok(Legs(legs))
    else
      match parse(rows[0].amount)
      case None => Err(ParseError(refid, "amount", rows[0].amount))
      case Some(a) => Ok(Scalar(rows[0].asset, a))
  }

  /** Classify a group. Every group the grouper builds has at least one row. */
  function Classify(g: Group, parse: string -> Option<real>): (r: Result<Entry>)
    requires |g.rows| > 0
    // Type, time and fee always come from the first row; the rows are kept as they are.
    ensures r.Ok? ==> && r.value.refid == g.refid
                      && r.value.kind == g.rows[0].kind
                      && r.value.time == g.rows[0].time
                      && Some(r.value.fee) == parse(g.rows[0].fee)
                      && r.value.rows == g.rows
    // Multi-leg: one leg per raw row, in row order.
    ensures r.Ok? && IsMultiKind(g.rows[0].kind) ==>
              && r.value.payload.Legs?
              && |r.value.payload.legs| == |g.rows|
              && forall i :: 0 <= i < |g.rows| ==>
                   && r.value.payload.legs[i].asset == g.rows[i].asset
                   && Some(r.value.payload.legs[i].amount) == parse(g.rows[i].amount)
    // Single-leg: asset and amount from the first row; later rows are not read.
    ensures r.Ok? && !IsMultiKind(g.rows[0].kind) ==>
              && r.value.payload.Scalar?
              && r.value.payload.asset == g.rows[0].asset
              && Some(r.value.payload.amount) == parse(g.rows[0].amount)
    // Classification fails exactly when a text it converts does not parse ...
    ensures r.Err? <==> !AmountsParse(g.rows, parse) || parse(g.rows[0].fee).None?
    // ... and amounts are converted before the fee, so an amount failure is the one reported.
    ensures r.Err? ==>
              && r.error.ParseError?
              && r.error.refid == g.refid
              && (r.error.field == "amount" <==> !AmountsParse(g.rows, parse))
              && (r.error.field != "amount" ==> r.error == ParseError(g.refid, "fee", g.rows[0].fee))
    // An amount error names the first amount text that does not parse.
    ensures r.Err? && r.error.field == "amount" ==> exists k ::
              && 0 <= k < |g.rows|
              && (k > 0 ==> IsMultiKind(g.rows[0].kind))
              && parse(g.rows[k].amount).None?
              && (forall i :: 0 <= i < k ==> parse(g.rows[i].amount).Some?)
              && r.error == ParseError(g.refid, "amount", g.rows[k].amount)
  {
    var first := g.rows[0];
    match ParsePayload(g.refid, g.rows, parse)
    case Err(e) => Err(e)
    case Ok(payload) =>
      match parse(first.fee)
      case None => Err(ParseError(g.refid, "fee", first.fee))
      case Some(fee) => Ok(Event(g.refid, first.kind, first.time, payload, fee, g.rows))
  }

  /** Classify every group in order, stopping at the first one that fails. */
  function ClassifyAll(groups: seq<Group>, parse: string -> Option<real>): (r: Result<seq<Entry>>)
    requires forall i :: 0 <= i < |groups| ==> |groups[i].rows| > 0
    ensures r.Ok? <==> forall i :: 0 <= i < |groups| ==> Classify(groups[i], parse).Ok?
    ensures r.Ok? ==>
              && |r.value| == |groups|
              && forall i :: 0 <= i < |groups| ==> Ok(r.value[i]) == Classify(groups[i], parse)
    ensures r.Err? ==>
              exists k :: && 0 <= k < |groups|
                          && (forall i :: 0 <= i < k ==> Classify(groups[i], parse).Ok?)
                          && Classify(groups[k], parse) == Err(r.error)
  {
    if |groups| == 0 then Ok([])
    else
      match Classify(groups[0], parse)
      case Err(e) => Err(e)
      case Ok(e0) =>
        match ClassifyAll(groups[1..], parse)
        case Err(e) => Err(e)
        case Ok(rest) => Ok([e0] + rest)
  }
}
