// Values shared by every component: identifiers, market events, the per-symbol market state and
// anomaly records.  Prices, quantities and derived percentages are reals; instants are integer
// milliseconds; update ids are 64-bit naturals.
module Domain {

  datatype Option<+T> = None | Some(value: T)

  datatype Result<+T, +E> = Ok(value: T) | Err(error: E)

  const U64_MAX: nat := 0xFFFF_FFFF_FFFF_FFFF

  type U64 = n: nat | n <= U64_MAX

  type Millis = int

  type Symbol = string

  predicate IsSpace(c: char) {
    c == ' ' || '\t' <= c <= '\r'
  }

  predicate IsUpperAlnum(c: char) {
    'A' <= c <= 'Z' || '0' <= c <= '9'
  }

  function Upper(c: char): char {
    if 'a' <= c <= 'z' then c - 'a' + 'A' else c
  }

  function Uppercase(s: string): (u: string)
    ensures |u| == |s| && forall i :: 0 <= i < |s| ==> u[i] == Upper(s[i])
  {
    if s == "" then "" else [Upper(s[0])] + Uppercase(s[1..])
  }

  function Trim(s: string): (t: string)
    ensures t != "" ==> !IsSpace(t[0]) && !IsSpace(t[|t| - 1])
    ensures s != "" && !IsSpace(s[0]) && !IsSpace(s[|s| - 1]) ==> t == s
  {
    if s == "" then ""
    else if IsSpace(s[0]) then Trim(s[1..])
    else if IsSpace(s[|s| - 1]) then Trim(s[..|s| - 1])
    else s
  }

  predicate Canonical(s: string) {
    s != "" && forall i :: 0 <= i < |s| ==> IsUpperAlnum(s[i])
  }

  // The validating constructor: trim, upper-case, then insist on letters and digits.
  function NewSymbol(raw: string): (r: Option<Symbol>)
    ensures r.Some? ==> Canonical(r.value)
  {
    var normalized := Uppercase(Trim(raw));
    if Canonical(normalized) then Some(normalized) else None
  }

  // Exactly the canonical names survive construction unchanged.
  lemma {:induction false} CanonicalIffUnchanged(raw: string)
    ensures NewSymbol(raw) == Some(raw) <==> Canonical(raw)
  {
    if Canonical(raw) {
      assert IsUpperAlnum(raw[0]) && IsUpperAlnum(raw[|raw| - 1]);
      forall i | 0 <= i < |raw|
        ensures Uppercase(raw)[i] == raw[i]
      {
        assert IsUpperAlnum(raw[i]);
      }
      assert Uppercase(raw) == raw;
    }
  }

  ghost predicate Blank(s: string) {
    forall i :: 0 <= i < |s| ==> s[i] == ' ' || 9 <= s[i] as int <= 13
  }

  predicate IsLetterOrDigit(c: char) {
    'a' <= c <= 'z' || 'A' <= c <= 'Z' || '0' <= c <= '9'
  }

  lemma {:induction false} TrimBlank(s: string)
    requires Blank(s)
    ensures Trim(s) == ""
  {
    if s != "" { TrimBlank(s[1..]); }
  }

  lemma {:induction false} TrimBehind(core: string, right: string)
    requires Blank(right)
    requires core != "" && !IsSpace(core[0]) && !IsSpace(core[|core| - 1])
    ensures Trim(core + right) == core
  {
    var all := core + right;
    assert all[0] == core[0];
    if right == "" {
      assert all == core;
    } else {
      var shorter := right[..|right| - 1];
      assert all[..|all| - 1] == core + shorter && all[|all| - 1] == right[|right| - 1];
      TrimBehind(core, shorter);
    }
  }

  lemma {:induction false} TrimBefore(left: string, rest: string)
    requires Blank(left)
    ensures Trim(left + rest) == Trim(rest)
  {
    if left == "" {
      assert left + rest == rest;
    } else {
      assert (left + rest)[1..] == left[1..] + rest && (left + rest)[0] == left[0];
      TrimBefore(left[1..], rest);
    }
  }

  lemma TrimPadded(left: string, core: string, right: string)
    requires Blank(left) && Blank(right)
    requires core != "" ==> !IsSpace(core[0]) && !IsSpace(core[|core| - 1])
    ensures Trim(left + core + right) == core
  {
    hide Trim;
    assert left + core + right == left + (core + right);
    TrimBefore(left, core + right);
    if core == "" {
      assert core + right == right;
      TrimBlank(right);
    } else {
      TrimBehind(core, right);
    }
  }

  lemma TrimStep(raw: string)
    ensures raw == "" || (!IsSpace(raw[0]) && !IsSpace(raw[|raw| - 1])) ==> Trim(raw) == raw
    ensures raw != "" && IsSpace(raw[0]) ==> Trim(raw) == Trim(raw[1..])
    ensures raw != "" && !IsSpace(raw[0]) && IsSpace(raw[|raw| - 1]) ==> Trim(raw) == Trim(raw[..|raw| - 1])
  {
  }

  lemma BlankGrows(s: string, c: char)
    requires Blank(s) && IsSpace(c)
    ensures Blank([c] + s) && Blank(s + [c])
  {
  }

  lemma Padded(left: string, core: string, right: string, c: char)
    ensures [c] + (left + core + right) == [c] + left + core + right
    ensures (left + core + right) + [c] == left + core + (right + [c])
  {
  }

  // Every string is such a padded one.
  lemma {:induction false} TrimSplits(raw: string) returns (left: string, right: string)
    ensures Blank(left) && Blank(right) && raw == left + Trim(raw) + right
  {
    left, right := "", "";
    if raw != "" && (IsSpace(raw[0]) || IsSpace(raw[|raw| - 1])) {
      hide Trim, Blank, IsSpace;
      TrimStep(raw);
      var rest;
      if IsSpace(raw[0]) {
        rest, right := TrimSplits(raw[1..]);
        left := [raw[0]] + rest;
        BlankGrows(rest, raw[0]);
        Padded(rest, Trim(raw), right, raw[0]);
        assert raw == [raw[0]] + raw[1..];
      } else {
        left, rest := TrimSplits(raw[..|raw| - 1]);
        right := rest + [raw[|raw| - 1]];
        BlankGrows(rest, raw[|raw| - 1]);
        Padded(left, Trim(raw), rest, raw[|raw| - 1]);
        assert raw == raw[..|raw| - 1] + [raw[|raw| - 1]];
      }
    }
  }

  lemma EndsOf(core: string)
    ensures core != "" && !Blank(core[..1]) ==> !IsSpace(core[0])
    ensures core != "" && !Blank(core[|core| - 1..]) ==> !IsSpace(core[|core| - 1])
  {
  }

  // A padded name is accepted exactly when what the padding encloses is a non-empty run of ASCII letters
  // and digits; the symbol is that run with its small letters replaced by capitals.
  lemma PaddedNameConstructs(left: string, core: string, right: string)
    requires Blank(left) && Blank(right)
    requires core != "" ==> !Blank(core[..1]) && !Blank(core[|core| - 1..])
    ensures var symbol := NewSymbol(left + core + right);
            && (symbol.Some? <==> core != "" && forall i :: 0 <= i < |core| ==> IsLetterOrDigit(core[i]))
            && (symbol.Some? ==>
                  && |symbol.value| == |core|
                  && forall i :: 0 <= i < |core| ==>
                       symbol.value[i] as int == core[i] as int - if 'a' <= core[i] <= 'z' then 32 else 0)
  {
    EndsOf(core);
    TrimPadded(left, core, right);
    hide Trim, Uppercase, Blank;
    var upper := Uppercase(core);
    assert forall i :: 0 <= i < |core| ==> (IsUpperAlnum(upper[i]) <==> IsLetterOrDigit(core[i]));
  }

  // The later of two optional instants; an absent one never wins.
  function Later(a: Option<Millis>, b: Option<Millis>): Option<Millis> {
    match (a, b)
    case (None, _) => b
    case (_, None) => a
    case (Some(x), Some(y)) => Some(if x < y then y else x)
  }

  datatype DepthError = NoLevels | PriceNotPositive | QuantityNegative | IdsReversed

  datatype DepthLevel = DepthLevel(price: real, quantity: real) {
    predicate Valid() {
      price > 0.0 && quantity >= 0.0
    }

    function Validate(): Option<DepthError> {
      if price <= 0.0 then Some(PriceNotPositive)
      else if quantity < 0.0 then Some(QuantityNegative)
      else None
    }
  }

  datatype DepthUpdate = DepthUpdate(
    symbol: Symbol,
    firstUpdateId: Option<U64>,
    finalUpdateId: Option<U64>,
    bids: seq<DepthLevel>,
    asks: seq<DepthLevel>,
    eventTime: Millis,
    ingestTime: Millis)
  {
    predicate LevelsValid() {
      && (forall i :: 0 <= i < |bids| ==> bids[i].Valid())
      && (forall i :: 0 <= i < |asks| ==> asks[i].Valid())
    }

    predicate IdsValid() {
      firstUpdateId.Some? && finalUpdateId.Some? ==> firstUpdateId.value <= finalUpdateId.value
    }

    predicate Valid() {
      (bids != [] || asks != []) && LevelsValid() && IdsValid()
    }

    predicate HasBothIds() {
      firstUpdateId.Some? && finalUpdateId.Some?
    }
  }

  // No level before the i-th is bad; the i-th is, for this reason: the price is looked at first.
  ghost predicate FirstBad(levels: seq<DepthLevel>, i: nat, error: DepthError) {
    && i < |levels| && (forall j :: 0 <= j < i ==> levels[j].price > 0.0 && levels[j].quantity >= 0.0)
    && match error
       case PriceNotPositive => levels[i].price <= 0.0
       case QuantityNegative => levels[i].price > 0.0 && levels[i].quantity < 0.0
       case _ => false
  }

  // The first complaint any level raises, in the order the levels are listed.
  function FirstLevelError(levels: seq<DepthLevel>): (r: Option<DepthError>)
    ensures r.None? <==> forall i :: 0 <= i < |levels| ==> levels[i].Valid()
    ensures r.Some? ==> exists i: nat :: FirstBad(levels, i, r.value)
  {
    if levels == [] then None
    else if levels[0].Validate().Some? then
      assert FirstBad(levels, 0, levels[0].Validate().value);
      levels[0].Validate()
    else
      var rest := FirstLevelError(levels[1..]);
      assert forall i :: 1 <= i < |levels| ==> levels[i] == levels[1..][i - 1];
      assert rest.Some? ==> exists i: nat :: FirstBad(levels, i, rest.value) by {
        if rest.Some? {
          var i: nat :| FirstBad(levels[1..], i, rest.value);
          assert FirstBad(levels, i + 1, rest.value);
        }
      }
      rest
  }

  // The validating constructor: exactly the valid updates come back, unchanged, and an empty update
  // is reported before a bad level, a bad level before reversed ids.
  function NewDepthUpdate(update: DepthUpdate): (r: Result<DepthUpdate, DepthError>)
    ensures r.Ok? <==> update.Valid()
    ensures r.Ok? ==> r.value == update
    ensures r.Ok? ==> forall i :: 0 <= i < |update.bids| ==> update.bids[i].price > 0.0 && update.bids[i].quantity >= 0.0
    ensures r.Ok? ==> forall i :: 0 <= i < |update.asks| ==> update.asks[i].price > 0.0 && update.asks[i].quantity >= 0.0
    ensures r.Ok? && update.HasBothIds() ==> update.firstUpdateId.value <= update.finalUpdateId.value
    ensures r == Err(NoLevels) <==> update.bids == [] && update.asks == []
    ensures r.Err? ==>
              match r.error
              case NoLevels => true
              case IdsReversed => update.HasBothIds() && update.firstUpdateId.value > update.finalUpdateId.value
              case error => exists i: nat :: FirstBad(update.bids + update.asks, i, error)
  {
    if update.bids == [] && update.asks == [] then Err(NoLevels)
    else
      var levels := update.bids + update.asks;
      LevelsOfBothSides(update);
      match FirstLevelError(levels)
      case Some(error) =>
        Err(error)
      case None =>
        if update.IdsValid() then Ok(update) else Err(IdsReversed)
  }

  lemma LevelsOfBothSides(update: DepthUpdate)
    ensures update.LevelsValid()
            <==> forall i :: 0 <= i < |update.bids + update.asks| ==> (update.bids + update.asks)[i].Valid()
  {
    var levels := update.bids + update.asks;
    assert forall i :: 0 <= i < |update.bids| ==> update.bids[i] == levels[i];
    assert forall i :: 0 <= i < |update.asks| ==> update.asks[i] == levels[|update.bids| + i];
  }

  datatype Trade = Trade(symbol: Symbol, price: real, quantity: real, eventTime: Millis, ingestTime: Millis)

  datatype Quote = Quote(
    symbol: Symbol,
    bidPrice: real,
    bidQuantity: real,
    askPrice: real,
    askQuantity: real,
    eventTime: Millis,
    ingestTime: Millis)

  datatype Event =
    | TradeEvent(trade: Trade)
    | QuoteEvent(quote: Quote)
    | DepthEvent(depth: DepthUpdate)
  {
    function Symbol(): Symbol {
      match this
      case TradeEvent(trade) => trade.symbol
      case QuoteEvent(quote) => quote.symbol
      case DepthEvent(depth) => depth.symbol
    }

    // What the validating constructors guarantee of every event.
    predicate Valid() {
      match this
      case TradeEvent(trade) => trade.price > 0.0 && trade.quantity > 0.0
      case QuoteEvent(quote) =>
        && quote.bidPrice > 0.0 && quote.bidQuantity > 0.0
        && quote.askQuantity > 0.0 && quote.askPrice >= quote.bidPrice
      case DepthEvent(depth) => depth.Valid()
    }
  }

  datatype Signals = Signals(spreadPct: Option<real>, priceChangePct: Option<real>, tradesPerMinute: Option<real>)

  datatype MarketState = MarketState(
    symbol: Symbol,
    lastTradePrice: Option<real>,
    lastTradeQuantity: Option<real>,
    bestBidPrice: Option<real>,
    bestBidQuantity: Option<real>,
    bestAskPrice: Option<real>,
    bestAskQuantity: Option<real>,
    topBidQuantity: Option<real>,
    topAskQuantity: Option<real>,
    topBidLiquidity: Option<real>,
    topAskLiquidity: Option<real>,
    bookImbalance: Option<real>,
    depthSequenceGapCount: nat,
    lastDepthEventTime: Option<Millis>,
    lastDepthIngestTime: Option<Millis>,
    signals: Signals,
    lastEventTime: Option<Millis>,
    lastIngestTime: Option<Millis>)

  function NewMarketState(symbol: Symbol): MarketState {
    MarketState(symbol, None, None, None, None, None, None, None, None, None, None, None, 0, None, None,
                Signals(None, None, None), None, None)
  }

  datatype AnomalyKind =
    PriceMove | SpreadSpike | StaleData | TradeBurst | QuoteStuck | EventLagSpike | DepthSequenceGap

  datatype Severity = Info | Warning | Critical

  datatype Anomaly = Anomaly(
    symbol: Symbol,
    kind: AnomalyKind,
    severity: Severity,
    observed: Option<real>,
    threshold: Option<real>,
    eventTime: Millis,
    createdAt: Millis)
}
