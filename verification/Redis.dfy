// The market-state cache: one string value per symbol and a set of registered symbols, in a store that
// other programs may have filled with anything.
module Redis {
  import opened Domain

  // A cached string either parses as a market state or does not; the state inside may name any symbol.
  datatype Payload = Malformed | Json(state: MarketState)

  // What sits at a symbol's key: a string, or some other Redis type.
  datatype Entry = Text(payload: Payload) | OtherType

  // What sits at the symbols key.
  datatype Registry = NoKey | Members(names: set<string>) | NotASet

  // The entry of symbol s sits at the key prefix + s; a symbol without an entry has no key.
  datatype Store = Store(entries: map<Symbol, Entry>, registry: Registry)

  datatype CacheError = RedisError | Serialization | InvalidData

  function Registered(store: Store): set<string> {
    if store.registry.Members? then store.registry.names else {}
  }

  // ----- Single commands -----

  predicate SetAllowed(store: Store, symbol: Symbol) {
    (symbol in store.entries ==> store.entries[symbol].Text?) && !store.registry.NotASet?
  }

  // The atomic write script.
  function AfterSet(store: Store, state: MarketState): Store {
    if SetAllowed(store, state.symbol)
    then Store(store.entries[state.symbol := Text(Json(state))], Members(Registered(store) + {state.symbol}))
    else store
  }

  // A plain read fails on a key of another type.
  function PayloadAt(store: Store, symbol: Symbol): Result<Option<Payload>, CacheError> {
    if symbol !in store.entries then Ok(None)
    else match store.entries[symbol]
      case Text(payload) => Ok(Some(payload))
      case OtherType => Err(RedisError)
  }

  function GetState(store: Store, symbol: Symbol): Result<Option<MarketState>, CacheError> {
    match PayloadAt(store, symbol)
    case Err(error) => Err(error)
    case Ok(None) => Ok(None)
    case Ok(Some(Malformed)) => Err(Serialization)
    case Ok(Some(Json(state))) => Ok(Some(state))
  }

  // A bulk read shows a key of another type as missing, and insists on the embedded symbol.
  function BulkValue(store: Store, symbol: Symbol): Result<Option<MarketState>, CacheError> {
    if symbol !in store.entries then Ok(None)
    else match store.entries[symbol]
      case OtherType => Ok(None)
      case Text(Malformed) => Err(InvalidData)
      case Text(Json(state)) => if state.symbol == symbol then Ok(Some(state)) else Err(InvalidData)
  }

  type Listing = seq<(Symbol, Option<MarketState>)>

  function BulkRead(store: Store, symbols: seq<Symbol>): Result<Listing, CacheError> {
    if symbols == [] then Ok([])
    else
      var last := symbols[|symbols| - 1];
      match BulkRead(store, symbols[..|symbols| - 1])
      case Err(error) => Err(error)
      case Ok(listing) =>
        match BulkValue(store, last)
        case Err(error) => Err(error)
        case Ok(value) => Ok(listing + [(last, value)])
  }

  // The raw names in whatever order the store returns them.
  ghost predicate Enumerates(names: seq<string>, members: set<string>) {
    && (forall n :: n in names <==> n in members)
    && (forall i, j :: 0 <= i < j < |names| ==> names[i] != names[j])
  }

  // The registered names as symbols, if all of them are.
  function SymbolsFrom(names: seq<string>): (r: Result<seq<Symbol>, CacheError>)
    ensures r.Ok? <==> forall i :: 0 <= i < |names| ==> NewSymbol(names[i]).Some?
    ensures r.Ok? ==> |r.value| == |names| && forall i :: 0 <= i < |names| ==> NewSymbol(names[i]) == Some(r.value[i])
    ensures r.Err? ==> r.error == InvalidData
  {
    if names == [] then Ok([])
    else
      var front, last := names[..|names| - 1], names[|names| - 1];
      assert forall i :: 0 <= i < |front| ==> front[i] == names[i];
      match SymbolsFrom(front)
      case Err(error) => Err(error)
      case Ok(symbols) =>
        match NewSymbol(last)
        case None => Err(InvalidData)
        case Some(symbol) => Ok(symbols + [symbol])
  }

  // ----- What validation means -----

  // The registered name is canonical and its entry is a well-formed state of that very symbol.
  ghost predicate Backed(store: Store, name: string) {
    && Canonical(name) && name in store.entries
    && store.entries[name].Text? && store.entries[name].payload.Json?
    && store.entries[name].payload.state.symbol == name
  }

  ghost predicate Sound(store: Store) {
    !store.registry.NotASet? && forall name :: name in Registered(store) ==> Backed(store, name)
  }

  class RedisCache {
    var entries: map<Symbol, Entry>
    var registry: Registry

    ghost function Contents(): Store
      reads this
    {
      Store(entries, registry)
    }

    constructor (entries: map<Symbol, Entry>, registry: Registry)
      ensures Contents() == Store(entries, registry)
    {
      this.entries, this.registry := entries, registry;
    }

    method SetMarketState(state: MarketState) returns (r: Result<(), CacheError>)
      modifies this
      ensures Contents() == AfterSet(old(Contents()), state)
      ensures r == if SetAllowed(old(Contents()), state.symbol) then Ok(()) else Err(RedisError)
    {
      if state.symbol in entries && !entries[state.symbol].Text? {
        return Err(RedisError);
      }
      if registry.NotASet? {
        return Err(RedisError);
      }
      entries := entries[state.symbol := Text(Json(state))];
      registry := Members((if registry.Members? then registry.names else {}) + {state.symbol});
      return Ok(());
    }

    method GetMarketState(symbol: Symbol) returns (r: Result<Option<MarketState>, CacheError>)
      ensures r == GetState(Contents(), symbol)
    {
      if symbol !in entries {
        return Ok(None);
      }
      match entries[symbol]
      case OtherType => return Err(RedisError);
      case Text(Malformed) => return Err(Serialization);
      case Text(Json(state)) => return Ok(Some(state));
    }

    method GetMarketStates(symbols: seq<Symbol>) returns (r: Result<Listing, CacheError>)
      ensures r == BulkRead(Contents(), symbols)
    {
      var listing: Listing := [];
      for i := 0 to |symbols|
        invariant BulkRead(Contents(), symbols[..i]) == Ok(listing)
      {
        assert symbols[..i + 1][..i] == symbols[..i];
        var value: Option<MarketState> := None;
        if symbols[i] in entries && entries[symbols[i]].Text? {
          var payload := entries[symbols[i]].payload;
          if payload.Malformed? || payload.state.symbol != symbols[i] {
            BulkReadStopsAtError(Contents(), symbols, i + 1);
            return Err(InvalidData);
          }
          value := Some(payload.state);
        }
        listing := listing + [(symbols[i], value)];
      }
      assert symbols[..|symbols|] == symbols;
      return Ok(listing);
    }

    // The registered names in some order.
    method RegisteredSymbolValues() returns (r: Result<seq<string>, CacheError>)
      ensures r.Err? <==> registry.NotASet?
      ensures r.Err? ==> r.error == RedisError
      ensures r.Ok? ==> Enumerates(r.value, Registered(Contents()))
    {
      if registry.NotASet? {
        return Err(RedisError);
      }
      var names, left := [], if registry.Members? then registry.names else {};
      while left != {}
        invariant left <= Registered(Contents())
        invariant Enumerates(names, Registered(Contents()) - left)
      {
        var name :| name in left;
        names, left := names + [name], left - {name};
      }
      return Ok(names);
    }

    method ListSymbols() returns (r: Result<seq<Symbol>, CacheError>)
      ensures registry.NotASet? ==> r == Err(RedisError)
      ensures !registry.NotASet? ==> exists names :: Enumerates(names, Registered(Contents())) && r == SymbolsFrom(names)
    {
      var listed := RegisteredSymbolValues();
      if listed.Err? {
        return Err(RedisError);
      }
      var names := listed.value;
      var symbols: seq<Symbol> := [];
      for i := 0 to |names|
        invariant SymbolsFrom(names[..i]) == Ok(symbols)
      {
        assert names[..i + 1][..i] == names[..i];
        var symbol := NewSymbol(names[i]);
        if symbol.None? {
          SymbolsStopAtError(names, i + 1);
          return Err(InvalidData);
        }
        symbols := symbols + [symbol.value];
      }
      assert names[..|names|] == names;
      return Ok(symbols);
    }

    // First every name, then every payload.
    method ValidateMarketStateCache() returns (r: Result<nat, CacheError>)
      ensures r.Ok? <==> Sound(Contents())
      ensures r.Ok? ==> r.value == |Registered(Contents())|
      ensures registry.NotASet? ==> r == Err(RedisError)
      ensures !registry.NotASet? && (exists name :: name in Registered(Contents()) && !Canonical(name)) ==> r == Err(InvalidData)
      ensures r.Err? && !registry.NotASet?
              && (forall name :: name in Registered(Contents()) && name in entries ==> entries[name].Text?) ==>
                r.error == InvalidData
    {
      var listed := RegisteredSymbolValues();
      if listed.Err? {
        return Err(RedisError);
      }
      var names := listed.value;
      for i := 0 to |names|
        invariant forall j :: 0 <= j < i ==> Canonical(names[j])
      {
        CanonicalIffUnchanged(names[i]);
        if NewSymbol(names[i]) != Some(names[i]) {
          assert names[i] in Registered(Contents());
          return Err(InvalidData);
        }
      }
      for i := 0 to |names|
        invariant forall j :: 0 <= j < i ==> Backed(Contents(), names[j])
      {
        assert names[i] in Registered(Contents());
        if names[i] !in entries {
          return Err(InvalidData);
        }
        if entries[names[i]].OtherType? {
          return Err(RedisError);
        }
        var payload := entries[names[i]].payload;
        if payload.Malformed? || payload.state.symbol != names[i] {
          return Err(InvalidData);
        }
      }
      EnumerationSize(names, Registered(Contents()));
      return Ok(|names|);
    }

    // Every key under the prefix goes, whatever its type, and then the symbols key.
    method ClearMarketStateCache() returns (cleared: nat)
      modifies this
      ensures Contents() == Store(map[], NoKey)
      ensures cleared == |old(entries)| + if old(registry).NoKey? then 0 else 1
    {
      cleared := |entries| + if registry.NoKey? then 0 else 1;
      entries, registry := map[], NoKey;
    }
  }

  lemma {:induction false} BulkReadStopsAtError(store: Store, symbols: seq<Symbol>, i: nat)
    requires i <= |symbols| && BulkRead(store, symbols[..i]).Err?
    ensures BulkRead(store, symbols) == BulkRead(store, symbols[..i])
    decreases |symbols|
  {
    if i == |symbols| {
      assert symbols[..i] == symbols;
    } else {
      var front := symbols[..|symbols| - 1];
      assert front[..i] == symbols[..i];
      BulkReadStopsAtError(store, front, i);
    }
  }

  lemma {:induction false} SymbolsStopAtError(names: seq<string>, i: nat)
    requires i <= |names| && SymbolsFrom(names[..i]).Err?
    ensures SymbolsFrom(names) == SymbolsFrom(names[..i])
    decreases |names|
  {
    if i == |names| {
      assert names[..i] == names;
    } else {
      var front := names[..|names| - 1];
      assert front[..i] == names[..i];
      SymbolsStopAtError(front, i);
    }
  }

  lemma {:induction false} EnumerationSize(names: seq<string>, members: set<string>)
    requires Enumerates(names, members)
    ensures |names| == |members|
    decreases |names|
  {
    if names == [] {
      assert members == {};
    } else {
      var front, last := names[..|names| - 1], names[|names| - 1];
      assert names == front + [last];
      assert Enumerates(front, members - {last}) by {
        forall n
          ensures n in front <==> n in members - {last}
        {
          if n in front { var i :| 0 <= i < |front| && front[i] == n; assert names[i] != last; }
        }
      }
      EnumerationSize(front, members - {last});
    }
  }

  // ----- Validation and reads -----

  // A listing that shows a state of the right symbol for each of these symbols.
  ghost predicate AllPresent(symbols: seq<Symbol>, r: Result<Listing, CacheError>) {
    && r.Ok? && |r.value| == |symbols|
    && forall i :: 0 <= i < |symbols| ==>
         r.value[i].0 == symbols[i] && r.value[i].1.Some? && r.value[i].1.value.symbol == symbols[i]
  }

  lemma {:induction false} CanonicalNamesListThemselves(names: seq<string>)
    ensures SymbolsFrom(names) == Ok(names) <==> forall n :: n in names ==> Canonical(n)
  {
    if names != [] {
      var front, last := names[..|names| - 1], names[|names| - 1];
      assert names == front + [last];
      CanonicalNamesListThemselves(front);
      CanonicalIffUnchanged(last);
      if SymbolsFrom(names) == Ok(names) {
        var symbols := SymbolsFrom(front).value;
        assert names[..|names| - 1] == (symbols + [NewSymbol(last).value])[..|symbols|] == symbols;
        assert names[|names| - 1] == (symbols + [NewSymbol(last).value])[|symbols|];
      }
    }
  }

  lemma {:induction false} BulkReadOfBacked(store: Store, names: seq<string>)
    requires forall n :: n in names ==> Canonical(n)
    ensures AllPresent(names, BulkRead(store, names)) <==> forall n :: n in names ==> Backed(store, n)
  {
    if names != [] {
      var front, last := names[..|names| - 1], names[|names| - 1];
      assert names == front + [last];
      BulkReadOfBacked(store, front);
      var r := BulkRead(store, names);
      if forall n :: n in names ==> Backed(store, n) {
        assert Backed(store, last);
        assert r.value == BulkRead(store, front).value + [(last, BulkValue(store, last).value)];
      }
      if AllPresent(names, r) {
        var listing := BulkRead(store, front).value;
        assert r.value == listing + [(last, BulkValue(store, last).value)];
        assert AllPresent(front, BulkRead(store, front)) by {
          assert forall i :: 0 <= i < |front| ==> listing[i] == r.value[i] && front[i] == names[i];
        }
        assert r.value[|front|].1 == BulkValue(store, last).value;
      }
    }
  }

  // Validation succeeds exactly when listing gives back the registered names themselves and the bulk
  // read of that listing finds a well-formed state of the right symbol for every one.
  lemma SoundIffReadable(store: Store, names: seq<string>)
    requires Enumerates(names, Registered(store))
    ensures Sound(store) <==> && !store.registry.NotASet? && SymbolsFrom(names) == Ok(names)
                              && AllPresent(names, BulkRead(store, names))
  {
    CanonicalNamesListThemselves(names);
    if forall n :: n in names ==> Canonical(n) {
      BulkReadOfBacked(store, names);
    }
  }

  // The other direction needs the names to come back unchanged: a registered lower-case alias of a
  // good entry lists and reads well, but does not validate.
  lemma AliasReadsButDoesNotValidate(state: MarketState)
    requires state.symbol == "A"
    ensures var store := Store(map["A" := Text(Json(state))], Members({"a"}));
            && Enumerates(["a"], Registered(store)) && SymbolsFrom(["a"]) == Ok(["A"])
            && AllPresent(["A"], BulkRead(store, ["A"])) && !Sound(store)
  {
    var store := Store(map["A" := Text(Json(state))], Members({"a"}));
    var alias, listed := ["a"], ["A"];
    assert NewSymbol("a") == Some("A") by {
      assert Trim("a") == "a" && "a"[1..] == "";
      assert Uppercase("a") == "A";
    }
    assert alias[..|alias| - 1] == [] && alias[|alias| - 1] == "a";
    assert SymbolsFrom(alias) == Ok([] + ["A"]);
    assert [] + listed == listed;
    assert listed[..|listed| - 1] == [] && listed[|listed| - 1] == "A";
    assert BulkValue(store, "A") == Ok(Some(state));
    assert BulkRead(store, listed) == Ok([] + [("A", Some(state))]);
    assert !IsUpperAlnum("a"[0]);
    assert "a" in Registered(store);
  }

  // ----- Writes -----

  // A write is accepted exactly when the key holds nothing or a string and the symbols key nothing or a
  // set.  Then the state reads back, singly and in bulk, its symbol is registered, and nothing else reads
  // or lists differently; a refused write changes nothing.
  lemma SetThenRead(store: Store, state: MarketState, other: Symbol)
    ensures var after, symbol := AfterSet(store, state), state.symbol;
            if (symbol in store.entries ==> store.entries[symbol] != OtherType) && store.registry != NotASet
            then
              && GetState(after, symbol) == Ok(Some(state)) && BulkValue(after, symbol) == Ok(Some(state))
              && after.registry == Members(Registered(store) + {symbol})
              && (other != symbol ==>
                    GetState(after, other) == GetState(store, other) && BulkValue(after, other) == BulkValue(store, other))
            else after == store
  {
  }

  // What a single read and one entry of a bulk read answer, by what sits at the key.
  lemma ReadAnswers(store: Store, symbol: Symbol)
    ensures GetState(store, symbol) == Ok(None) <==> symbol !in store.entries
    ensures symbol in store.entries ==>
              match store.entries[symbol]
              case OtherType => GetState(store, symbol) == Err(RedisError) && BulkValue(store, symbol) == Ok(None)
              case Text(Malformed) => GetState(store, symbol) == Err(Serialization) && BulkValue(store, symbol) == Err(InvalidData)
              case Text(Json(state)) =>
                && GetState(store, symbol) == Ok(Some(state))
                && BulkValue(store, symbol) == if state.symbol == symbol then Ok(Some(state)) else Err(InvalidData)
    ensures symbol !in store.entries ==> BulkValue(store, symbol) == Ok(None)
  {
  }

  // A bulk read answers entry by entry, or with the first error among them.
  lemma {:induction false} BulkReadInOrder(store: Store, symbols: seq<Symbol>)
    ensures var r := BulkRead(store, symbols);
            && (r.Ok? <==> forall i :: 0 <= i < |symbols| ==> BulkValue(store, symbols[i]).Ok?)
            && (r.Ok? ==> && |r.value| == |symbols|
                          && forall i :: 0 <= i < |symbols| ==>
                               r.value[i].0 == symbols[i] && BulkValue(store, symbols[i]) == Ok(r.value[i].1))
            && (r.Err? ==> r.error == InvalidData)
  {
    if symbols != [] { BulkReadInOrder(store, symbols[..|symbols| - 1]); }
  }

  function AfterSets(store: Store, states: seq<MarketState>): Store {
    if states == [] then store else AfterSet(AfterSets(store, states[..|states| - 1]), states[|states| - 1])
  }

  lemma SetKeepsSound(store: Store, state: MarketState)
    requires Sound(store) && Canonical(state.symbol)
    ensures Sound(AfterSet(store, state))
    ensures forall name :: name in Registered(store) ==> name in Registered(AfterSet(store, state))
  {
    var after := AfterSet(store, state);
    forall name | name in Registered(after)
      ensures Backed(after, name)
    {
      if name != state.symbol {
        assert name in Registered(store) && Backed(store, name);
      }
    }
  }

  // Once validated, a cache stays valid under any later writes of states with constructed symbols, so
  // the bulk read of everything then listed still succeeds with every entry present.
  lemma {:induction false} ValidatedStaysReadable(store: Store, states: seq<MarketState>, names: seq<string>)
    requires Sound(store)
    requires forall i :: 0 <= i < |states| ==> Canonical(states[i].symbol)
    requires Enumerates(names, Registered(AfterSets(store, states)))
    ensures SymbolsFrom(names) == Ok(names) && AllPresent(names, BulkRead(AfterSets(store, states), names))
    ensures Registered(store) <= Registered(AfterSets(store, states))
  {
    SetsKeepSound(store, states);
    SoundIffReadable(AfterSets(store, states), names);
  }

  lemma {:induction false} SetsKeepSound(store: Store, states: seq<MarketState>)
    requires Sound(store)
    requires forall i :: 0 <= i < |states| ==> Canonical(states[i].symbol)
    ensures Sound(AfterSets(store, states)) && Registered(store) <= Registered(AfterSets(store, states))
  {
    if states != [] {
      var front := states[..|states| - 1];
      SetsKeepSound(store, front);
      SetKeepsSound(AfterSets(store, front), states[|states| - 1]);
    }
  }

  // ----- The pipeline's view -----

  // The well-formed states in the store, by key.
  function StatesIn(store: Store): map<Symbol, MarketState> {
    map s | s in store.entries && store.entries[s].Text? && store.entries[s].payload.Json? :: store.entries[s].payload.state
  }

  // To its readers an accepted write is one map update, and a refused one is nothing.
  lemma SetIsMapUpdate(store: Store, state: MarketState)
    ensures StatesIn(AfterSet(store, state))
            == if SetAllowed(store, state.symbol) then StatesIn(store)[state.symbol := state] else StatesIn(store)
    ensures forall s :: GetState(store, s) == Ok(Some(state)) <==> s in StatesIn(store) && StatesIn(store)[s] == state
  {
  }
}
