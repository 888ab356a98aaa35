/** src/pages/Dashboard.tsx: the figures the dashboard derives from the
    portfolio map. These are the total value, the value of the selected
    wallet, the holdings grouped by symbol for the distribution chart,
    each wallet card's top tokens, and two string helpers.
    `Object.values(state.portfolios)` is modelled by an enumeration `keys`
    of the map's keys. */
module Dashboard {
  import opened Wrappers
  import opened Types
  import opened Seqs
  import Text
  import AppContext

  /** `keys` lists every key of `m` exactly once (the order of
      `Object.values`). */
  ghost predicate Enumerates(keys: seq<string>, m: map<string, PortfolioEntry>) {
    && (forall i, j :: 0 <= i < j < |keys| ==> keys[i] != keys[j])
    && (forall k :: k in m <==> k in keys)
  }

  // ---------------------------------------------------------------------
  // Total and selected value (lines 74-85)
  // ---------------------------------------------------------------------

  /** What `portfolio.totalValue` reads as written: an entry created by a
      loading or error action alone has no `totalValue`, and adding
      `undefined` to a number gives NaN, written `None` here. */
  function EntryValueAsWritten(e: PortfolioEntry): (v: Option<real>)
    ensures v.None? <==> e.Stub?
    ensures e.Loaded? ==> v == Some(e.portfolio.totalValue)
  {
    match e
    case Loaded(p) => Some(p.totalValue)
    case Stub(_, _) => None
  }

  /** `x + y` where NaN absorbs every sum. */
  function AddOrNaN(x: Option<real>, y: Option<real>): Option<real> {
    if x.Some? && y.Some? then Some(x.value + y.value) else None
  }

  /** `totalPortfolioValue` as written (lines 74-76). */
  function TotalValueAsWritten(keys: seq<string>, m: map<string, PortfolioEntry>): Option<real>
    requires forall i :: 0 <= i < |keys| ==> keys[i] in m
  {
    if keys == [] then Some(0.0)
    else AddOrNaN(EntryValueAsWritten(m[keys[0]]), TotalValueAsWritten(keys[1..], m))
  }

  /** `getSelectedPortfolioValue` as written (lines 79-85). */
  function SelectedValueAsWritten(selected: string, keys: seq<string>, m: map<string, PortfolioEntry>)
    : (v: Option<real>)
    requires Enumerates(keys, m)
    ensures selected == "all" ==> v == TotalValueAsWritten(keys, m)
    ensures selected != "all" && selected in m ==> v == EntryValueAsWritten(m[selected])
    ensures selected != "all" && selected !in m ==> v == Some(0.0)
  {
    if selected == "all" then TotalValueAsWritten(keys, m)
    else if selected in m then EntryValueAsWritten(m[selected])
    else Some(0.0)
  }

  /** The value an entry contributes once an entry without figures counts
      as 0, as the dashboard evidently intends for a wallet whose portfolio
      has not arrived. */
  function EntryValue(e: PortfolioEntry): (v: real)
    ensures EntryValueAsWritten(e) == Some(v) || (e.Stub? && v == 0.0)
  {
    match e
    case Loaded(p) => p.totalValue
    case Stub(_, _) => 0.0
  }

  /** The value under key `k` of `m`; 0 for a key without an entry. */
  function ValueOf(m: map<string, PortfolioEntry>, k: string): real {
    if k in m then EntryValue(m[k]) else 0.0
  }

  function ValueIn(m: map<string, PortfolioEntry>): string -> real {
    k => ValueOf(m, k)
  }

  /** The corrected `totalPortfolioValue`: the sum of every entry's value. */
  function TotalPortfolioValue(keys: seq<string>, m: map<string, PortfolioEntry>): real {
    SumOf(keys, ValueIn(m))
  }

  /** The corrected `getSelectedPortfolioValue`: the total for `'all'`,
      otherwise the value of that wallet's entry, 0 without one. */
  function SelectedPortfolioValue(selected: string, keys: seq<string>, m: map<string, PortfolioEntry>)
    : (v: real)
    ensures selected == "all" ==> v == TotalPortfolioValue(keys, m)
    ensures selected != "all" && selected !in m ==> v == 0.0
    ensures selected != "all" && selected in m && m[selected].Loaded? ==>
              v == m[selected].portfolio.totalValue
  {
    if selected == "all" then TotalPortfolioValue(keys, m) else ValueOf(m, selected)
  }

  /** As written, the total is a number exactly when no entry lacks its
      figures, and it is then the corrected total. */
  lemma {:induction false} TotalAsWrittenWithoutStubs(keys: seq<string>, m: map<string, PortfolioEntry>)
    requires forall i :: 0 <= i < |keys| ==> keys[i] in m
    ensures TotalValueAsWritten(keys, m).Some?
            <==> forall i :: 0 <= i < |keys| ==> m[keys[i]].Loaded?
    ensures TotalValueAsWritten(keys, m).Some? ==>
              TotalValueAsWritten(keys, m).value == TotalPortfolioValue(keys, m)
  {
    if keys != [] {
      TotalAsWrittenWithoutStubs(keys[1..], m);
      assert forall i :: 1 <= i < |keys| ==> keys[i] == keys[1..][i - 1];
    }
  }

  /** A wallet's first fetch marks it as loading before its portfolio
      exists. The dashboard total then reads NaN as written, while the
      corrected total counts that wallet as 0. */
  lemma FirstFetchMakesTotalNaN(rs: AppContext.Responses)
    ensures var w := Wallet(Some("w1"), "0x00", "main", "ethereum", None);
            var s := AppContext.InitialState.(wallets := [w]);
            var acts := AppContext.FetchWalletPortfolio(s, "w1", rs);
            var m := AppContext.Reduce(s, acts[0]).state.portfolios;
            && Enumerates(["w1"], m)
            && TotalValueAsWritten(["w1"], m).None?
            && SelectedValueAsWritten("w1", ["w1"], m).None?
            && TotalPortfolioValue(["w1"], m) == 0.0
  {
    var w := Wallet(Some("w1"), "0x00", "main", "ethereum", None);
    var s := AppContext.InitialState.(wallets := [w]);
    assert AppContext.FindWallet(s.wallets, "w1") == Some(w);
    var m := AppContext.Reduce(s, AppContext.SetPortfolioLoading("w1", true)).state.portfolios;
    assert m == map["w1" := Stub(true, None)];
    assert ["w1"][1..] == [];
  }

  /** How the first fetch ends decides whether the NaN goes away: a
      failure leaves the wallet's entry without figures, so the total stays
      NaN as written; a success makes it the portfolio's total. */
  lemma FirstFetchOutcomeDecidesNaN(rs: AppContext.Responses)
    ensures var w := Wallet(Some("w1"), "0x00", "main", "ethereum", None);
            var s := AppContext.InitialState.(wallets := [w]);
            var acts := AppContext.FetchWalletPortfolio(s, "w1", rs);
            var m := AppContext.Reduce(AppContext.Reduce(s, acts[0]).state, acts[1]).state.portfolios;
            && Enumerates(["w1"], m)
            && (acts[1].SetPortfolioError? ==>
                  TotalValueAsWritten(["w1"], m).None? && SelectedValueAsWritten("w1", ["w1"], m).None?)
            && (acts[1].SetPortfolio? ==>
                  TotalValueAsWritten(["w1"], m) == Some(acts[1].portfolio.totalValue))
  {
    var w := Wallet(Some("w1"), "0x00", "main", "ethereum", None);
    var s := AppContext.InitialState.(wallets := [w]);
    assert AppContext.FindWallet(s.wallets, "w1") == Some(w);
    var acts := AppContext.FetchWalletPortfolio(s, "w1", rs);
    var s1 := AppContext.Reduce(s, acts[0]).state;
    assert s1.portfolios == map["w1" := Stub(true, None)];
    var m := AppContext.Reduce(s1, acts[1]).state.portfolios;
    assert m.Keys == {"w1"};
    assert ["w1"][1..] == [];
  }

  /** Keys listed once each, over the same set, are a permutation. */
  lemma {:induction false} DistinctCount(keys: seq<string>)
    requires forall i, j :: 0 <= i < j < |keys| ==> keys[i] != keys[j]
    ensures forall k :: multiset(keys)[k] == if k in keys then 1 else 0
  {
    if keys != [] {
      DistinctCount(keys[1..]);
      assert keys == [keys[0]] + keys[1..];
      assert keys[0] !in keys[1..];
    }
  }

  /** The total does not depend on the order in which the entries are
      enumerated. */
  lemma TotalIndependentOfOrder(k1: seq<string>, k2: seq<string>, m: map<string, PortfolioEntry>)
    requires Enumerates(k1, m) && Enumerates(k2, m)
    ensures TotalPortfolioValue(k1, m) == TotalPortfolioValue(k2, m)
  {
    DistinctCount(k1);
    DistinctCount(k2);
    assert forall k :: multiset(k1)[k] == multiset(k2)[k];
    assert multiset(k1) == multiset(k2);
    SumOfPermutation(k1, k2, ValueIn(m));
  }

  /** Removing one key from an enumeration of `m` enumerates `m` without
      that key. */
  lemma RemoveKeyEnumerates(keys: seq<string>, m: map<string, PortfolioEntry>, i: nat)
    requires Enumerates(keys, m) && i < |keys|
    ensures Enumerates(keys[..i] + keys[i + 1..], m - {keys[i]})
  {
    var id := keys[i];
    var rest := keys[..i] + keys[i + 1..];
    forall p, q | 0 <= p < q < |rest| ensures rest[p] != rest[q] {
      var p0 := if p < i then p else p + 1;
      var q0 := if q < i then q else q + 1;
      assert rest[p] == keys[p0] && rest[q] == keys[q0];
    }
    forall k | k in keys && k != id ensures k in rest {
      var j :| 0 <= j < |keys| && keys[j] == k;
      if j < i { assert rest[j] == k; } else { assert rest[j - 1] == k; }
    }
    forall k | k in rest ensures k in keys && k != id {
      var j :| 0 <= j < |rest| && rest[j] == k;
      if j < i { assert k == keys[j]; } else { assert k == keys[j + 1]; }
    }
  }

  /** Dropping the entry under `id` lowers the total by that entry's value,
      whatever order the remaining entries are enumerated in. */
  lemma TotalWithoutKey(keys: seq<string>, keys': seq<string>, m: map<string, PortfolioEntry>, id: string)
    requires Enumerates(keys, m) && id in m && Enumerates(keys', m - {id})
    ensures TotalPortfolioValue(keys', m - {id}) == TotalPortfolioValue(keys, m) - EntryValue(m[id])
  {
    var i :| 0 <= i < |keys| && keys[i] == id;
    var rest := keys[..i] + keys[i + 1..];
    RemoveKeyEnumerates(keys, m, i);
    TotalIndependentOfOrder(keys', rest, m - {id});
    SumOfRemoveAt(keys, i, ValueIn(m));
    forall j | 0 <= j < |rest| ensures ValueIn(m)(rest[j]) == ValueIn(m - {id})(rest[j]) {
      assert rest[j] in m - {id};
    }
    SumOfAgree(rest, ValueIn(m), ValueIn(m - {id}));
  }

  /** `DELETE_WALLET` lowers the dashboard total by exactly the value of
      the deleted wallet's entry. */
  lemma DeleteWalletLowersTotal(s: AppState, keys: seq<string>, keys': seq<string>, id: string)
    requires Enumerates(keys, s.portfolios) && id in s.portfolios
    requires Enumerates(keys', AppContext.Reduce(s, AppContext.DeleteWallet(id)).state.portfolios)
    ensures TotalPortfolioValue(keys', AppContext.Reduce(s, AppContext.DeleteWallet(id)).state.portfolios)
            == TotalPortfolioValue(keys, s.portfolios) - EntryValue(s.portfolios[id])
  {
    assert AppContext.Reduce(s, AppContext.DeleteWallet(id)).state.portfolios == s.portfolios - {id};
    TotalWithoutKey(keys, keys', s.portfolios, id);
  }

  // ---------------------------------------------------------------------
  // getPortfolioTokens (lines 88-147)
  // ---------------------------------------------------------------------

  /** One row of the distribution: `{symbol, value, balance}`. */
  datatype Row = Row(symbol: string, value: real, balance: real)

  function RowValue(r: Row): real { r.value }
  function RowBalance(r: Row): real { r.balance }

  /** Shown in the grouped view: neither loading nor carrying an error
      (`!portfolio.loading && !portfolio.error`). */
  predicate Ready(e: PortfolioEntry) {
    !e.Loading() && !e.HasError()
  }

  function NativeRow(p: WalletPortfolio): Row {
    Row(p.nativeToken.symbol, p.nativeToken.value, p.nativeToken.balance)
  }

  function TokenRow(t: PortfolioToken): Row {
    Row(t.symbol, t.value, t.balance)
  }

  /** A portfolio's holdings: the native asset first, then its tokens in
      order. */
  function PortfolioRows(p: WalletPortfolio): (rows: seq<Row>)
    ensures |rows| == 1 + |p.tokens|
    ensures rows[0] == NativeRow(p)
    ensures forall i :: 0 <= i < |p.tokens| ==> rows[i + 1] == TokenRow(p.tokens[i])
  {
    [NativeRow(p)] + seq(|p.tokens|, i requires 0 <= i < |p.tokens| => TokenRow(p.tokens[i]))
  }

  /** The holdings an entry contributes: those of a ready portfolio, none
      otherwise. */
  function EntryRows(e: PortfolioEntry): seq<Row> {
    if Ready(e) && e.Loaded? then PortfolioRows(e.portfolio) else []
  }

  /** The page can be drawn: every entry the chosen view reads the
      holdings of has them. As written, reading `nativeToken.symbol` of an
      entry without figures that is neither loading nor failed throws. */
  ghost predicate Renders(selected: string, m: map<string, PortfolioEntry>) {
    if selected == "all" then forall k :: k in m && Ready(m[k]) ==> m[k].Loaded?
    else selected in m && Ready(m[selected]) ==> m[selected].Loaded?
  }

  /** `Renders` is not guaranteed by the reducer: an error action with an
      empty message, or a `loading: false` action, on a wallet without an
      entry leaves a stub that counts as ready yet has no figures. */
  lemma ReducerCanBreakRenders()
    ensures var m := AppContext.Reduce(AppContext.InitialState,
                                       AppContext.SetPortfolioError("w", "")).state.portfolios;
            "w" in m && Ready(m["w"]) && !m["w"].Loaded?
            && !Renders("w", m) && !Renders("all", m)
    ensures var m := AppContext.Reduce(AppContext.InitialState,
                                       AppContext.SetPortfolioLoading("w", false)).state.portfolios;
            "w" in m && Ready(m["w"]) && !m["w"].Loaded?
            && !Renders("w", m) && !Renders("all", m)
  {
  }

  /** Every holding of the entries of `keys`, in enumeration order. */
  function Holdings(keys: seq<string>, m: map<string, PortfolioEntry>): seq<Row>
    requires forall i :: 0 <= i < |keys| ==> keys[i] in m
  {
    if keys == [] then []
    else Holdings(keys[..|keys| - 1], m) + EntryRows(m[keys[|keys| - 1]])
  }

  /** `allTokens.find(t => t.symbol === symbol)`, as an index. */
  function FirstWithSymbol(rows: seq<Row>, symbol: string): (r: Option<nat>)
    ensures r.None? <==> forall j :: 0 <= j < |rows| ==> rows[j].symbol != symbol
    ensures r.Some? ==> r.value < |rows| && rows[r.value].symbol == symbol
                        && forall j :: 0 <= j < r.value ==> rows[j].symbol != symbol
  {
    if rows == [] then None
    else if rows[0].symbol == symbol then Some(0)
    else match FirstWithSymbol(rows[1..], symbol)
      case None => None
      case Some(j) =>
        assert forall q :: 1 <= q <= j ==> rows[q] == rows[1..][q - 1];
        Some(j + 1)
  }

  /** One step of the grouping: a holding whose symbol already has a row
      is added to that row's value and balance, any other one becomes a
      new row at the end. */
  function AddHolding(acc: seq<Row>, h: Row): seq<Row> {
    match FirstWithSymbol(acc, h.symbol)
    case Some(j) => acc[j := Row(h.symbol, acc[j].value + h.value, acc[j].balance + h.balance)]
    case None => acc + [h]
  }

  /** The grouping of lines 91-123 applied to holdings in order. */
  function Group(hs: seq<Row>): seq<Row> {
    if hs == [] then [] else AddHolding(Group(hs[..|hs| - 1]), hs[|hs| - 1])
  }

  lemma GroupSnoc(hs: seq<Row>, h: Row)
    ensures Group(hs + [h]) == AddHolding(Group(hs), h)
  {
    assert (hs + [h])[..|hs|] == hs;
  }

  ghost predicate DistinctSymbols(rows: seq<Row>) {
    forall i, j :: 0 <= i < j < |rows| ==> rows[i].symbol != rows[j].symbol
  }

  function Symbols(rows: seq<Row>): set<string> {
    set i | 0 <= i < |rows| :: rows[i].symbol
  }

  /** The holdings with symbol `symbol`, in order. */
  function OfSymbol(hs: seq<Row>, symbol: string): seq<Row> {
    if hs == [] then []
    else OfSymbol(hs[..|hs| - 1], symbol)
         + (if hs[|hs| - 1].symbol == symbol then [hs[|hs| - 1]] else [])
  }

  lemma OfSymbolSnoc(hs: seq<Row>, h: Row, symbol: string)
    ensures OfSymbol(hs + [h], symbol)
            == OfSymbol(hs, symbol) + (if h.symbol == symbol then [h] else [])
  {
    assert (hs + [h])[..|hs|] == hs;
  }

  lemma SymbolsSnoc(hs: seq<Row>, h: Row)
    ensures Symbols(hs + [h]) == Symbols(hs) + {h.symbol}
  {
    forall i | 0 <= i < |hs| ensures (hs + [h])[i] == hs[i] { }
    assert (hs + [h])[|hs|] == h;
  }

  lemma {:induction false} OfAbsentSymbol(hs: seq<Row>, symbol: string)
    requires symbol !in Symbols(hs)
    ensures OfSymbol(hs, symbol) == []
  {
    if hs != [] {
      var init, h := hs[..|hs| - 1], hs[|hs| - 1];
      assert hs == init + [h];
      SymbolsSnoc(init, h);
      OfAbsentSymbol(init, symbol);
    }
  }

  /** One grouping step on rows with distinct symbols: a symbol already
      present has its row, and only that row, enlarged by the holding;
      a new symbol gets a new last row. */
  lemma AddHoldingShape(g: seq<Row>, h: Row)
    requires DistinctSymbols(g)
    ensures var r := AddHolding(g, h);
            && DistinctSymbols(r)
            && Symbols(r) == Symbols(g) + {h.symbol}
            && (h.symbol in Symbols(g) ==>
                  && |r| == |g|
                  && forall i :: 0 <= i < |g| ==>
                       r[i] == if g[i].symbol == h.symbol
                               then Row(h.symbol, g[i].value + h.value, g[i].balance + h.balance)
                               else g[i])
            && (h.symbol !in Symbols(g) ==> r == g + [h])
  {
    var r := AddHolding(g, h);
    match FirstWithSymbol(g, h.symbol)
    case Some(j) =>
      assert h.symbol in Symbols(g);
      forall i | 0 <= i < |g| ensures r[i].symbol == g[i].symbol { }
    case None =>
      assert h.symbol !in Symbols(g);
      SymbolsSnoc(g, h);
  }

  /** The grouping yields one row per symbol of the holdings and no other,
      and each row's value and balance are the sums of the value and the
      balance of that symbol's holdings. */
  lemma {:induction false} GroupRows(hs: seq<Row>)
    ensures DistinctSymbols(Group(hs))
    ensures Symbols(Group(hs)) == Symbols(hs)
    ensures forall i :: 0 <= i < |Group(hs)| ==>
              && Group(hs)[i].value == SumOf(OfSymbol(hs, Group(hs)[i].symbol), RowValue)
              && Group(hs)[i].balance == SumOf(OfSymbol(hs, Group(hs)[i].symbol), RowBalance)
  {
    if hs != [] {
      var init, h := hs[..|hs| - 1], hs[|hs| - 1];
      assert hs == init + [h];
      GroupRows(init);
      GroupSnoc(init, h);
      var g := Group(init);
      var r := Group(hs);
      AddHoldingShape(g, h);
      SymbolsSnoc(init, h);
      forall i | 0 <= i < |r|
        ensures && r[i].value == SumOf(OfSymbol(hs, r[i].symbol), RowValue)
                && r[i].balance == SumOf(OfSymbol(hs, r[i].symbol), RowBalance)
      {
        OfSymbolSnoc(init, h, r[i].symbol);
        AddHoldingRowAt(g, init, h, i);
      }
    }
  }

  /** After one grouping step each row still carries the sums of its
      symbol's holdings, the new holding included, given that the rows
      before the step carried those of `init`. */
  lemma AddHoldingRowAt(g: seq<Row>, init: seq<Row>, h: Row, i: nat)
    requires DistinctSymbols(g) && Symbols(g) == Symbols(init)
    requires forall k :: 0 <= k < |g| ==>
               && g[k].value == SumOf(OfSymbol(init, g[k].symbol), RowValue)
               && g[k].balance == SumOf(OfSymbol(init, g[k].symbol), RowBalance)
    requires i < |AddHolding(g, h)|
    ensures var r := AddHolding(g, h);
            var o := OfSymbol(init, r[i].symbol) + (if h.symbol == r[i].symbol then [h] else []);
            r[i].value == SumOf(o, RowValue) && r[i].balance == SumOf(o, RowBalance)
  {
    var r := AddHolding(g, h);
    AddHoldingShape(g, h);
    var sym := r[i].symbol;
    if sym == h.symbol {
      SumOfAppend(OfSymbol(init, sym), [h], RowValue);
      SumOfAppend(OfSymbol(init, sym), [h], RowBalance);
      assert [h][1..] == [];
      if i == |g| {
        OfAbsentSymbol(init, sym);
        assert r[i] == h;
      } else {
        assert g[i].symbol == sym;
      }
    } else {
      assert OfSymbol(init, sym) + [] == OfSymbol(init, sym);
      assert i < |g| && r[i] == g[i];
    }
  }

  /** The grouping keeps the total value and the total balance. */
  lemma {:induction false} GroupConserves(hs: seq<Row>)
    ensures SumOf(Group(hs), RowValue) == SumOf(hs, RowValue)
    ensures SumOf(Group(hs), RowBalance) == SumOf(hs, RowBalance)
  {
    if hs != [] {
      var init, h := hs[..|hs| - 1], hs[|hs| - 1];
      assert hs == init + [h];
      GroupConserves(init);
      SumOfAppend(init, [h], RowValue);
      SumOfAppend(init, [h], RowBalance);
      assert [h][1..] == [];
      AddHoldingConserves(Group(init), h);
    }
  }

  /** One grouping step adds the holding's value and balance to the sums. */
  lemma AddHoldingConserves(g: seq<Row>, h: Row)
    ensures SumOf(AddHolding(g, h), RowValue) == SumOf(g, RowValue) + h.value
    ensures SumOf(AddHolding(g, h), RowBalance) == SumOf(g, RowBalance) + h.balance
  {
    match FirstWithSymbol(g, h.symbol)
    case Some(j) =>
      var row := Row(h.symbol, g[j].value + h.value, g[j].balance + h.balance);
      SumOfUpdate(g, j, row, RowValue);
      SumOfUpdate(g, j, row, RowBalance);
    case None =>
      SumOfAppend(g, [h], RowValue);
      SumOfAppend(g, [h], RowBalance);
      assert [h][1..] == [];
  }

  /** What `getPortfolioTokens` returns: for `'all'`, the holdings of the
      ready portfolios grouped by symbol; for one wallet, that wallet's
      holdings ungrouped (none unless its portfolio is ready); sorted by
      value, largest first. */
  function PortfolioTokensSpec(selected: string, keys: seq<string>, m: map<string, PortfolioEntry>)
    : seq<Row>
    requires forall i :: 0 <= i < |keys| ==> keys[i] in m
  {
    SortDesc(if selected == "all" then Group(Holdings(keys, m))
             else if selected in m then EntryRows(m[selected])
             else [], RowValue)
  }

  /** One holding into `allTokens`: the row found by symbol has its value
      and balance increased in place, or the holding is pushed. */
  method AddRow(rows: seq<Row>, h: Row) returns (rows': seq<Row>)
    ensures rows' == AddHolding(rows, h)
  {
    var found := FirstWithSymbol(rows, h.symbol);
    if found.Some? {
      var j := found.value;
      rows' := rows[j := Row(h.symbol, rows[j].value + h.value, rows[j].balance + h.balance)];
    } else {
      rows' := rows + [h];
    }
  }

  /** Holdings added to the rows one after the other, as the `forEach`
      loops over a portfolio's native asset and then its tokens do. */
  method AddRows(rows: seq<Row>, hs: seq<Row>, ghost before: seq<Row>)
    returns (rows': seq<Row>)
    requires rows == Group(before)
    ensures rows' == Group(before + hs)
  {
    rows' := rows;
    var t := 0;
    assert before + hs[..0] == before;
    while t < |hs|
      invariant 0 <= t <= |hs|
      invariant rows' == Group(before + hs[..t])
    {
      ghost var done := before + hs[..t];
      rows' := AddRow(rows', hs[t]);
      GroupSnoc(done, hs[t]);
      PrefixSnoc(before, hs, t);
      t := t + 1;
    }
    assert hs[..|hs|] == hs;
  }

  lemma HoldingsStep(keys: seq<string>, m: map<string, PortfolioEntry>, k: nat)
    requires k < |keys| && forall i :: 0 <= i < |keys| ==> keys[i] in m
    ensures Holdings(keys[..k + 1], m) == Holdings(keys[..k], m) + EntryRows(m[keys[k]])
  {
    assert keys[..k + 1][..k] == keys[..k];
  }

  /** The `'all'` branch: every ready portfolio's holdings, in enumeration
      order, grouped by symbol. */
  method GroupAll(keys: seq<string>, m: map<string, PortfolioEntry>) returns (all: seq<Row>)
    requires Enumerates(keys, m) && Renders("all", m)
    ensures all == Group(Holdings(keys, m))
  {
    all := [];
    var k := 0;
    ghost var done: seq<Row> := [];
    while k < |keys|
      invariant 0 <= k <= |keys|
      invariant done == Holdings(keys[..k], m)
      invariant all == Group(done)
    {
      var e := m[keys[k]];
      HoldingsStep(keys, m, k);
      var holdings := EntryRows(e);
      if Ready(e) {
        all := AddRows(all, holdings, done);
      } else {
        assert done + holdings == done;
      }
      done := done + holdings;
      k := k + 1;
    }
    assert keys[..|keys|] == keys;
  }

  /** The single-wallet branch: the native asset, then each token, pushed
      without merging. */
  method WalletRows(p: WalletPortfolio) returns (all: seq<Row>)
    ensures all == PortfolioRows(p)
  {
    all := [NativeRow(p)];
    var t := 0;
    while t < |p.tokens|
      invariant 0 <= t <= |p.tokens|
      invariant all == PortfolioRows(p)[..t + 1]
    {
      all := all + [TokenRow(p.tokens[t])];
      t := t + 1;
    }
  }

  /** `getPortfolioTokens`. */
  method PortfolioTokens(selected: string, keys: seq<string>, m: map<string, PortfolioEntry>)
    returns (rows: seq<Row>)
    requires Enumerates(keys, m) && Renders(selected, m)
    ensures rows == PortfolioTokensSpec(selected, keys, m)
  {
    var all: seq<Row> := [];
    if selected == "all" {
      all := GroupAll(keys, m);
    } else if selected in m && Ready(m[selected]) {
      all := WalletRows(m[selected].portfolio);
    }
    rows := SortDesc(all, RowValue);
  }

  /** In rows with distinct symbols no row occurs twice. */
  lemma {:induction false} DistinctSymbolsOnce(b: seq<Row>, x: Row)
    requires DistinctSymbols(b)
    ensures multiset(b)[x] <= 1
  {
    if b != [] {
      assert b == [b[0]] + b[1..];
      DistinctSymbolsOnce(b[1..], x);
      if x == b[0] {
        assert x !in b[1..];
      }
    }
  }

  /** Equal rows at two positions occur at least twice. */
  lemma TwiceAt(a: seq<Row>, i: nat, j: nat)
    requires i < j < |a| && a[i] == a[j]
    ensures multiset(a)[a[i]] >= 2
  {
    assert a == a[..j] + a[j..];
    assert a[i] == a[..j][i];
    assert a[j..][0] == a[j];
  }

  /** A rearrangement of rows with distinct symbols has distinct symbols. */
  lemma DistinctSymbolsPermutation(a: seq<Row>, b: seq<Row>)
    requires multiset(a) == multiset(b) && DistinctSymbols(b)
    ensures DistinctSymbols(a)
  {
    forall i, j | 0 <= i < j < |a| ensures a[i].symbol != a[j].symbol {
      if a[i] == a[j] {
        TwiceAt(a, i, j);
        DistinctSymbolsOnce(b, a[i]);
      } else {
        assert a[i] in multiset(b) && a[j] in multiset(b);
        var p :| 0 <= p < |b| && b[p] == a[i];
        var q :| 0 <= q < |b| && b[q] == a[j];
      }
    }
  }

  /** A rearrangement has the same symbols. */
  lemma SymbolsPermutation(a: seq<Row>, b: seq<Row>)
    requires multiset(a) == multiset(b)
    ensures Symbols(a) == Symbols(b)
  {
    forall i | 0 <= i < |a| ensures a[i].symbol in Symbols(b) {
      assert a[i] in multiset(b);
      var j :| 0 <= j < |b| && b[j] == a[i];
    }
    forall j | 0 <= j < |b| ensures b[j].symbol in Symbols(a) {
      assert b[j] in multiset(a);
      var i :| 0 <= i < |a| && a[i] == b[j];
    }
  }

  /** Holdings grouped by symbol and sorted by value: one row per symbol,
      each carrying the sums of its symbol's holdings, nothing lost. */
  lemma SortedGroup(hs: seq<Row>)
    ensures var rows := SortDesc(Group(hs), RowValue);
            && SortedDesc(rows, RowValue)
            && DistinctSymbols(rows)
            && Symbols(rows) == Symbols(hs)
            && (forall i :: 0 <= i < |rows| ==>
                  && rows[i].value == SumOf(OfSymbol(hs, rows[i].symbol), RowValue)
                  && rows[i].balance == SumOf(OfSymbol(hs, rows[i].symbol), RowBalance))
            && SumOf(rows, RowValue) == SumOf(hs, RowValue)
            && SumOf(rows, RowBalance) == SumOf(hs, RowBalance)
  {
    var g := Group(hs);
    var rows := SortDesc(g, RowValue);
    GroupRows(hs);
    GroupConserves(hs);
    DistinctSymbolsPermutation(rows, g);
    SymbolsPermutation(rows, g);
    SortDescKeepsSum(g, RowValue, RowValue);
    SortDescKeepsSum(g, RowValue, RowBalance);
    forall i | 0 <= i < |rows|
      ensures && rows[i].value == SumOf(OfSymbol(hs, rows[i].symbol), RowValue)
              && rows[i].balance == SumOf(OfSymbol(hs, rows[i].symbol), RowBalance)
    {
      assert rows[i] in multiset(g);
      var j :| 0 <= j < |g| && g[j] == rows[i];
    }
  }

  /** The `'all'` view: sorted by value; one row per symbol held in a ready
      portfolio; each row carries the summed value and balance of that
      symbol's holdings; and no value or balance is lost or gained. */
  lemma AllView(keys: seq<string>, m: map<string, PortfolioEntry>)
    requires Enumerates(keys, m)
    ensures var rows := PortfolioTokensSpec("all", keys, m);
            var hs := Holdings(keys, m);
            && SortedDesc(rows, RowValue)
            && DistinctSymbols(rows)
            && Symbols(rows) == Symbols(hs)
            && (forall i :: 0 <= i < |rows| ==>
                  && rows[i].value == SumOf(OfSymbol(hs, rows[i].symbol), RowValue)
                  && rows[i].balance == SumOf(OfSymbol(hs, rows[i].symbol), RowBalance))
            && SumOf(rows, RowValue) == SumOf(hs, RowValue)
            && SumOf(rows, RowBalance) == SumOf(hs, RowBalance)
  {
    SortedGroup(Holdings(keys, m));
  }

  /** The single-wallet view: for a ready portfolio, one row for the native
      asset and one per token, unmerged and sorted by value; no rows
      otherwise. */
  lemma SingleView(selected: string, keys: seq<string>, m: map<string, PortfolioEntry>)
    requires Enumerates(keys, m) && selected != "all"
    ensures var rows := PortfolioTokensSpec(selected, keys, m);
            && SortedDesc(rows, RowValue)
            && (selected in m && Ready(m[selected]) && m[selected].Loaded? ==>
                  && |rows| == 1 + |m[selected].portfolio.tokens|
                  && multiset(rows) == multiset(PortfolioRows(m[selected].portfolio)))
            && (selected !in m || !Ready(m[selected]) ==> rows == [])
  {
  }

  /** The token rows carry the tokens' values. */
  lemma TokenRowsSum(p: WalletPortfolio)
    ensures SumOf(PortfolioRows(p)[1..], RowValue) == SumOf(p.tokens, TokenValue)
  {
    var rows := PortfolioRows(p)[1..];
    forall i | 0 <= i < |rows| ensures RowValue(rows[i]) == TokenValue(p.tokens[i]) {
      assert rows[i] == PortfolioRows(p)[i + 1];
    }
    SumOfMatched(rows, p.tokens, RowValue, TokenValue);
  }

  /** A portfolio whose total is its native value plus its tokens' values,
      as `fetchWalletPortfolio` builds them. */
  ghost predicate ConsistentTotal(p: WalletPortfolio) {
    p.totalValue == p.nativeToken.value + SumOf(p.tokens, TokenValue)
  }

  /** The value of the entries of `keys` that the grouped view shows. */
  function ReadyValue(m: map<string, PortfolioEntry>, k: string): real {
    if k in m && Ready(m[k]) && m[k].Loaded? then m[k].portfolio.totalValue else 0.0
  }

  function ReadyValueIn(m: map<string, PortfolioEntry>): string -> real {
    k => ReadyValue(m, k)
  }

  /** When each ready portfolio's total is its native value plus its
      tokens' values, the grouped view's rows add up to the total value of
      the ready portfolios. */
  lemma {:induction false} AllViewAddsUpToReadyTotals(keys: seq<string>, m: map<string, PortfolioEntry>)
    requires forall i :: 0 <= i < |keys| ==> keys[i] in m
    requires forall k :: k in m && m[k].Loaded? ==> ConsistentTotal(m[k].portfolio)
    ensures SumOf(Holdings(keys, m), RowValue) == SumOf(keys, ReadyValueIn(m))
  {
    if keys != [] {
      var init, k := keys[..|keys| - 1], keys[|keys| - 1];
      assert keys == init + [k];
      AllViewAddsUpToReadyTotals(init, m);
      SumOfAppend(Holdings(init, m), EntryRows(m[k]), RowValue);
      SumOfAppend(init, [k], ReadyValueIn(m));
      assert [k][1..] == [];
      assert SumOf([k], ReadyValueIn(m)) == ReadyValue(m, k);
      var e := m[k];
      if Ready(e) && e.Loaded? {
        var p := e.portfolio;
        var ps := PortfolioRows(p);
        TokenRowsSum(p);
        assert SumOf(ps, RowValue) == p.nativeToken.value + SumOf(ps[1..], RowValue);
        assert ConsistentTotal(p);
      }
    }
  }

  /** The chart's data: the first 8 rows, which are the 8 largest. */
  function ChartRows(rows: seq<Row>): (r: seq<Row>)
    requires SortedDesc(rows, RowValue)
    ensures |r| == Min(8, |rows|) && r == rows[..|r|]
    ensures forall x, y :: x in r && y in rows[|r|..] ==> x.value >= y.value
  {
    TakeOfSortedIsLargest(rows, RowValue, 8);
    Take(rows, 8)
  }

  // ---------------------------------------------------------------------
  // Wallet cards (lines 375-439)
  // ---------------------------------------------------------------------

  /** Shifting the tokens of `s[i + 1..j]` left by one and placing `s[i]`
      at `j` inserts `s[i]` into `s[i + 1..]` as `Insert` does, when the
      shifted tokens are exactly the leading ones worth more. */
  lemma ShiftIsInsert(s: seq<PortfolioToken>, r: seq<PortfolioToken>, i: nat, j: nat)
    requires i <= j < |s| == |r|
    requires forall q :: i <= q < j ==> r[q] == s[q + 1]
    requires forall q :: i < q <= j ==> s[q].value > s[i].value
    requires r[j] == s[i]
    requires forall q :: j < q < |s| ==> r[q] == s[q]
    requires j + 1 < |s| ==> s[j + 1].value <= s[i].value
    ensures r[i..] == Insert(s[i], s[i + 1..], TokenValue)
  {
    var t := s[i + 1..];
    forall m | 0 <= m < j - i ensures TokenValue(t[m]) > TokenValue(s[i]) {
      assert t[m] == s[i + m + 1];
    }
    InsertSplits(s[i], t, TokenValue, j - i);
    ShiftedSlice(s, r, i, j);
  }

  /** `r` is `s` with `s[i + 1..j]` moved left by one and `s[i]` put at `j`. */
  lemma ShiftedSlice<T>(s: seq<T>, r: seq<T>, i: nat, j: nat)
    requires i <= j < |s| == |r|
    requires forall q :: i <= q < j ==> r[q] == s[q + 1]
    requires r[j] == s[i]
    requires forall q :: j < q < |s| ==> r[q] == s[q]
    ensures r[i..] == s[i + 1..][..j - i] + [s[i]] + s[i + 1..][j - i..]
  {
    var t := s[i + 1..];
    var lhs, rhs := r[i..], t[..j - i] + [s[i]] + t[j - i..];
    forall m | 0 <= m < |lhs| ensures lhs[m] == rhs[m] {
      if m < j - i {
        assert rhs[m] == t[m] == s[i + 1 + m];
      } else if m > j - i {
        assert rhs[m] == t[m - 1] == s[i + m];
      }
    }
  }

  /** One insertion step: `a[i]` moves right past the tokens of
      `a[i + 1..]` whose value is larger, which shift left by one. */
  method InsertIntoSuffix(a: array<PortfolioToken>, i: nat)
    requires i < a.Length
    modifies a
    ensures forall q :: 0 <= q < i ==> a[q] == old(a[q])
    ensures a[i..] == Insert(old(a[i]), old(a[i + 1..]), TokenValue)
  {
    ghost var s := a[..];
    var x := a[i];
    var j := ShiftLarger(a, i);
    a[j] := x;
    ghost var r := a[..];
    assert forall q :: i <= q < j ==> r[q] == s[q + 1];
    assert forall q :: j < q < |s| ==> r[q] == s[q];
    ShiftIsInsert(s, r, i, j);
    assert a[i..] == r[i..];
  }

  /** The loop of the insertion step: the tokens after `a[i]` worth more
      than it move left by one, up to the first one that is not. */
  method ShiftLarger(a: array<PortfolioToken>, i: nat) returns (j: nat)
    requires i < a.Length
    modifies a
    ensures i <= j < a.Length
    ensures forall q :: 0 <= q < i ==> a[q] == old(a[q])
    ensures forall q :: i <= q < j ==> a[q] == old(a[q + 1])
    ensures forall q :: i < q <= j ==> old(a[q]).value > old(a[i]).value
    ensures forall q :: j < q < a.Length ==> a[q] == old(a[q])
    ensures j + 1 < a.Length ==> old(a[j + 1]).value <= old(a[i]).value
  {
    ghost var s := a[..];
    var x := a[i];
    j := i;
    while j + 1 < a.Length && a[j + 1].value > x.value
      invariant i <= j < a.Length
      invariant forall q :: 0 <= q < i ==> a[q] == s[q]
      invariant forall q :: i <= q < j ==> a[q] == s[q + 1]
      invariant forall q :: i < q <= j ==> s[q].value > x.value
      invariant forall q :: j < q < a.Length ==> a[q] == s[q]
    {
      a[j] := a[j + 1];
      j := j + 1;
    }
  }

  /** `portfolio.tokens.sort((a, b) => b.value - a.value)`: sorts the
      portfolio's own token array in place (line 411), in the order
      of `SortDesc`, inserting each token from the right into the sorted
      suffix. */
  method SortTokensInPlace(a: array<PortfolioToken>)
    modifies a
    ensures a[..] == SortDesc(old(a[..]), TokenValue)
  {
    ghost var s := a[..];
    var i := a.Length;
    while i > 0
      invariant 0 <= i <= a.Length
      invariant forall q :: 0 <= q < i ==> a[q] == s[q]
      invariant a[i..] == SortDesc(s[i..], TokenValue)
    {
      i := i - 1;
      InsertIntoSuffix(a, i);
      SortDescStep(s, i, TokenValue);
    }
    assert a[..] == a[0..];
    assert s[0..] == s;
  }

  /** A wallet card's token list: the portfolio's tokens are sorted in
      place, the first three are shown, and `more` is the count of the
      rest (the "+N more tokens" line, shown when positive). */
  method TopTokens(tokens: array<PortfolioToken>) returns (top: seq<PortfolioToken>, more: nat)
    modifies tokens
    ensures tokens[..] == SortDesc(old(tokens[..]), TokenValue)
    ensures top == tokens[..Min(3, tokens.Length)]
    ensures |top| + more == tokens.Length
    ensures forall x, y :: x in top && y in tokens[|top|..] ==> x.value >= y.value
  {
    SortTokensInPlace(tokens);
    TakeOfSortedIsLargest(tokens[..], TokenValue, 3);
    top := tokens[..Min(3, tokens.Length)];
    more := if tokens.Length > 3 then tokens.Length - 3 else 0;
  }

  /** The card's asset count: the native asset and every token. */
  function AssetCount(p: WalletPortfolio): (n: nat)
    ensures n == |PortfolioRows(p)|
  {
    |p.tokens| + 1
  }

  // ---------------------------------------------------------------------
  // String helpers (lines 43-59)
  // ---------------------------------------------------------------------

  /** `formatAddress`: the first 6 characters, `...`, and the last 4, each
      part clamped to the string, so a short string appears whole. */
  function FormatAddress(address: string): (r: string)
    ensures |r| <= 13
    ensures |address| >= 6 ==> r == address[..6] + "..." + address[|address| - 4..] && |r| == 13
    ensures |address| == 5 ==> r == address + "..." + address[1..]
    ensures |address| <= 4 ==> r == address + "..." + address
  {
    Text.Substring(address, 0, 6) + "..." + Text.SubstringFrom(address, |address| - 4)
  }

  /** The display names of the eight known networks, keyed in lower case. */
  function ChainNames(key: string): Option<string> {
    match key
    case "ethereum" => Some("Ethereum")
    case "polygon" => Some("Polygon")
    case "arbitrum" => Some("Arbitrum")
    case "base" => Some("Base")
    case "optimism" => Some("Optimism")
    case "bsc" => Some("BSC")
    case "avalanche" => Some("Avalanche")
    case "solana" => Some("Solana")
    case _ => None
  }

  /** `getChainName`: the display name of the lower-cased network, or the
      network itself when it is not one of the eight. */
  function GetChainName(network: string): (r: string)
    ensures ChainNames(Text.AsciiLower(network)).Some? ==> r == ChainNames(Text.AsciiLower(network)).value
    ensures ChainNames(Text.AsciiLower(network)).None? ==> r == network
  {
    var name := ChainNames(Text.AsciiLower(network));
    if name.Some? then name.value else network
  }

  /** Every display name lower-cases to its own key. */
  lemma ChainNamesRoundTrip(key: string)
    requires ChainNames(key).Some?
    ensures ChainNames(Text.AsciiLower(ChainNames(key).value)) == ChainNames(key)
  {
    var name := ChainNames(key).value;
    assert Text.AsciiLower(name) == key by {
      match key
      case "ethereum" => assert Text.AsciiLower("Ethereum") == "ethereum";
      case "polygon" => assert Text.AsciiLower("Polygon") == "polygon";
      case "arbitrum" => assert Text.AsciiLower("Arbitrum") == "arbitrum";
      case "base" => assert Text.AsciiLower("Base") == "base";
      case "optimism" => assert Text.AsciiLower("Optimism") == "optimism";
      case "bsc" => assert Text.AsciiLower("BSC") == "bsc";
      case "avalanche" => assert Text.AsciiLower("Avalanche") == "avalanche";
      case "solana" => assert Text.AsciiLower("Solana") == "solana";
    }
  }

  /** A display name is its own display name, so naming twice is naming
      once; and the lookup ignores letter case. */
  lemma GetChainNameLaws(network: string, other: string)
    ensures GetChainName(GetChainName(network)) == GetChainName(network)
    ensures Text.AsciiLower(network) == Text.AsciiLower(other) ==>
              ChainNames(Text.AsciiLower(network)).Some? ==>
                GetChainName(network) == GetChainName(other)
  {
    var key := Text.AsciiLower(network);
    if ChainNames(key).Some? {
      ChainNamesRoundTrip(key);
    }
  }
}
