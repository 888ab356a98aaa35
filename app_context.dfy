/** src/contexts/AppContext.tsx: the reducer over the application state,
    and the conversion `fetchWalletPortfolio` performs from the data the
    portfolio service returns to a `WalletPortfolio`, with the actions it
    dispatches around it. The reducer's `saveWallets` writes are returned
    beside the new state. */
module AppContext {
  import opened Wrappers
  import opened Types
  import opened Seqs
  import CookieManager
  import Api

  /** The actions of lines 7-18; `Unrecognised` stands for any other
      `type`, which the reducer's `default` branch handles. */
  datatype Action =
    | SetLoading(loading: bool)
    | SetSidebarOpen(open: bool)
    | SetActiveModal(modal: Option<string>)
    | SetWallets(wallets: seq<Wallet>)
    | AddWallet(wallet: Wallet)
    | UpdateWallet(id: string, updates: WalletUpdates)
    | DeleteWallet(walletId: string)
    | SetPreferences(preferences: Preferences)
    | SetPortfolio(walletId: string, portfolio: WalletPortfolio)
    | SetPortfolioLoading(walletId: string, loading: bool)
    | SetPortfolioError(walletId: string, error: string)
    | Unrecognised(kind: string)

  /** The state an action leads to, and the wallet list it persisted with
      `saveWallets`, if any. */
  datatype Transition = Transition(state: AppState, saved: Option<seq<Wallet>>)

  /** `initialState`. */
  const InitialState: AppState :=
    AppState(User("", Preferences("light", "USD", [])), [], map[], Ui(false, None, false))

  /** `{ ...w, ...u }`: every field `u` carries overwrites `w`'s. */
  function MergeUpdates(w: Wallet, u: WalletUpdates): Wallet {
    Wallet(
      if u.id.Some? then u.id else w.id,
      u.address.GetOr(w.address),
      u.alias.GetOr(w.alias),
      u.network.GetOr(w.network),
      if u.createdAt.Some? then u.createdAt else w.createdAt)
  }

  /** An update that names no field changes nothing, and applying the same
      update twice is applying it once. */
  lemma MergeUpdatesLaws(w: Wallet, u: WalletUpdates)
    ensures MergeUpdates(w, WalletUpdates(None, None, None, None, None)) == w
    ensures MergeUpdates(MergeUpdates(w, u), u) == MergeUpdates(w, u)
  {
  }

  /** `wallets.map(w => w.id === id ? { ...w, ...updates } : w)`. */
  function UpdateById(ws: seq<Wallet>, id: string, u: WalletUpdates): (r: seq<Wallet>)
    ensures |r| == |ws|
    ensures forall i :: 0 <= i < |ws| ==>
              r[i] == if ws[i].id == Some(id) then MergeUpdates(ws[i], u) else ws[i]
  {
    seq(|ws|, i requires 0 <= i < |ws| => if ws[i].id == Some(id) then MergeUpdates(ws[i], u) else ws[i])
  }

  /** `wallets.filter(w => w.id !== id)`: the wallets whose id is not `id`,
      in their original order. A wallet without an id is always kept. */
  function WithoutId(ws: seq<Wallet>, id: string): (r: seq<Wallet>)
    ensures |r| <= |ws|
    ensures forall w :: w in r <==> w in ws && w.id != Some(id)
  {
    if ws == [] then []
    else if ws[0].id == Some(id) then WithoutId(ws[1..], id)
    else [ws[0]] + WithoutId(ws[1..], id)
  }

  /** Removing an id that no wallet carries leaves the list as it was. */
  lemma {:induction false} WithoutAbsentId(ws: seq<Wallet>, id: string)
    requires forall i :: 0 <= i < |ws| ==> ws[i].id != Some(id)
    ensures WithoutId(ws, id) == ws
  {
    if ws != [] {
      WithoutAbsentId(ws[1..], id);
    }
  }

  /** `portfolios[walletId]`, absent keys reading as `undefined`. */
  function Lookup(m: map<string, PortfolioEntry>, key: string): Option<PortfolioEntry> {
    if key in m then Some(m[key]) else None
  }

  /** `{ ...portfolios[walletId], loading }`: a loaded portfolio with only
      its flag replaced, or, when there was none, an object holding the flag
      and whatever error the previous stub carried. */
  function WithLoading(e: Option<PortfolioEntry>, loading: bool): (r: PortfolioEntry)
    ensures r.Loading() == loading
    ensures r.Error() == (if e.Some? then e.value.Error() else None)
    ensures e.Some? && e.value.Loaded? ==> r == Loaded(e.value.portfolio.(loading := loading))
  {
    match e
    case None => Stub(loading, None)
    case Some(Loaded(p)) => Loaded(p.(loading := loading))
    case Some(Stub(_, err)) => Stub(loading, err)
  }

  /** `{ ...portfolios[walletId], error, loading: false }`: the previous
      portfolio's data is kept beside the error. */
  function WithError(e: Option<PortfolioEntry>, error: string): (r: PortfolioEntry)
    ensures !r.Loading() && r.Error() == Some(error)
    ensures e.Some? && e.value.Loaded? ==>
              r == Loaded(e.value.portfolio.(loading := false, error := Some(error)))
    ensures (e.None? || e.value.Stub?) ==> r.Stub?
  {
    match e
    case Some(Loaded(p)) => Loaded(p.(loading := false, error := Some(error)))
    case _ => Stub(false, Some(error))
  }

  /** The map `m` with only the entry under `key` possibly changed. */
  ghost predicate OthersUnchanged(m: map<string, PortfolioEntry>, m': map<string, PortfolioEntry>, key: string) {
    && (forall k :: k != key ==> (k in m' <==> k in m))
    && (forall k :: k != key && k in m ==> m'[k] == m[k])
  }

  /** `appReducer` (lines 40-139). */
  function Reduce(s: AppState, a: Action): (r: Transition)
    // the UI actions change their own flag of `ui` and nothing else
    ensures a.SetLoading? || a.SetSidebarOpen? || a.SetActiveModal? ==>
              && r.state.user == s.user && r.state.wallets == s.wallets
              && r.state.portfolios == s.portfolios && r.saved == None
    ensures a.SetLoading? ==>
              r.state.ui.loading == a.loading && r.state.ui.sidebarOpen == s.ui.sidebarOpen
              && r.state.ui.activeModal == s.ui.activeModal
    ensures a.SetSidebarOpen? ==>
              r.state.ui.sidebarOpen == a.open && r.state.ui.loading == s.ui.loading
              && r.state.ui.activeModal == s.ui.activeModal
    ensures a.SetActiveModal? ==>
              r.state.ui.activeModal == a.modal && r.state.ui.loading == s.ui.loading
              && r.state.ui.sidebarOpen == s.ui.sidebarOpen
    // the wallet actions touch the list only; three of them persist it
    ensures a.SetWallets? ==> r.state == s.(wallets := a.wallets) && r.saved == None
    ensures a.AddWallet? ==>
              r.state == s.(wallets := s.wallets + [a.wallet]) && r.saved == Some(r.state.wallets)
    ensures a.UpdateWallet? ==>
              && r.state == s.(wallets := r.state.wallets) && r.saved == Some(r.state.wallets)
              && |r.state.wallets| == |s.wallets|
              && (forall i :: 0 <= i < |s.wallets| ==>
                    r.state.wallets[i] == if s.wallets[i].id == Some(a.id)
                                          then MergeUpdates(s.wallets[i], a.updates)
                                          else s.wallets[i])
    ensures a.DeleteWallet? ==>
              && r.state.user == s.user && r.state.ui == s.ui
              && (forall w :: w in r.state.wallets <==> w in s.wallets && w.id != Some(a.walletId))
              && a.walletId !in r.state.portfolios
              && OthersUnchanged(s.portfolios, r.state.portfolios, a.walletId)
              && r.saved == Some(r.state.wallets)
    ensures a.SetPreferences? ==>
              r.state == s.(user := User(s.user.id, a.preferences)) && r.saved == None
    // the portfolio actions touch one entry of the map only
    ensures a.SetPortfolio? || a.SetPortfolioLoading? || a.SetPortfolioError? ==>
              && r.state.user == s.user && r.state.wallets == s.wallets && r.state.ui == s.ui
              && r.saved == None
              && a.walletId in r.state.portfolios
              && OthersUnchanged(s.portfolios, r.state.portfolios, a.walletId)
    ensures a.SetPortfolio? ==> r.state.portfolios[a.walletId] == Loaded(a.portfolio)
    ensures a.SetPortfolioLoading? ==>
              r.state.portfolios[a.walletId] == WithLoading(Lookup(s.portfolios, a.walletId), a.loading)
    ensures a.SetPortfolioError? ==>
              r.state.portfolios[a.walletId] == WithError(Lookup(s.portfolios, a.walletId), a.error)
    ensures a.Unrecognised? ==> r == Transition(s, None)
  {
    match a
    case SetLoading(b) => Transition(s.(ui := s.ui.(loading := b)), None)
    case SetSidebarOpen(b) => Transition(s.(ui := s.ui.(sidebarOpen := b)), None)
    case SetActiveModal(m) => Transition(s.(ui := s.ui.(activeModal := m)), None)
    case SetWallets(ws) => Transition(s.(wallets := ws), None)
    case AddWallet(w) =>
      var ws := s.wallets + [w];
      Transition(s.(wallets := ws), Some(ws))
    case UpdateWallet(id, u) =>
      var ws := UpdateById(s.wallets, id, u);
      Transition(s.(wallets := ws), Some(ws))
    case DeleteWallet(id) =>
      var ws := WithoutId(s.wallets, id);
      Transition(s.(wallets := ws, portfolios := s.portfolios - {id}), Some(ws))
    case SetPreferences(p) => Transition(s.(user := s.user.(preferences := p)), None)
    case SetPortfolio(id, p) =>
      Transition(s.(portfolios := s.portfolios[id := Loaded(p)]), None)
    case SetPortfolioLoading(id, b) =>
      Transition(s.(portfolios := s.portfolios[id := WithLoading(Lookup(s.portfolios, id), b)]), None)
    case SetPortfolioError(id, e) =>
      Transition(s.(portfolios := s.portfolios[id := WithError(Lookup(s.portfolios, id), e)]), None)
    case Unrecognised(_) => Transition(s, None)
  }

  /** The states reached by dispatching `acts` in order from `s`. */
  function ReduceAll(s: AppState, acts: seq<Action>): AppState
    decreases |acts|
  {
    if acts == [] then s else ReduceAll(Reduce(s, acts[0]).state, acts[1..])
  }

  /** `ADD_WALLET` does not check for duplicates, unlike `addWallet` in the
      cookie store: adding a wallet whose address is already listed yields
      a list with that address twice, and the reducer persists it. */
  lemma AddWalletActionAdmitsDuplicates(w: Wallet)
    ensures var s := InitialState.(wallets := [w]);
            var r := Reduce(s, AddWallet(w));
            && CookieManager.DistinctAddresses(s.wallets)
            && !CookieManager.DistinctAddresses(r.state.wallets)
            && r.saved == Some([w, w])
  {
    var r := Reduce(InitialState.(wallets := [w]), AddWallet(w));
    assert r.state.wallets == [w, w];
    assert r.state.wallets[0].address == r.state.wallets[1].address;
  }

  /** Deleting an id that no wallet carries changes the wallet list in
      nothing, though it still drops that id's portfolio entry. */
  lemma DeleteUnknownId(s: AppState, id: string)
    requires forall i :: 0 <= i < |s.wallets| ==> s.wallets[i].id != Some(id)
    ensures Reduce(s, DeleteWallet(id)).state.wallets == s.wallets
    ensures Reduce(s, DeleteWallet(id)).state.portfolios == s.portfolios - {id}
  {
    WithoutAbsentId(s.wallets, id);
  }

  /** A portfolio stored and then marked as failed keeps every figure it
      held: only `error` and `loading` change. */
  lemma ErrorKeepsStaleFigures(s: AppState, id: string, p: WalletPortfolio, message: string)
    ensures var s1 := Reduce(s, SetPortfolio(id, p)).state;
            var s2 := Reduce(s1, SetPortfolioError(id, message)).state;
            && s2.portfolios[id].Loaded?
            && s2.portfolios[id].portfolio.totalValue == p.totalValue
            && s2.portfolios[id].portfolio.tokens == p.tokens
            && s2.portfolios[id].portfolio.nativeToken == p.nativeToken
            && s2.portfolios[id].HasError() == (message != "")
            && !s2.portfolios[id].Loading()
  {
  }

  // ---------------------------------------------------------------------
  // fetchWalletPortfolio
  // ---------------------------------------------------------------------

  /** `wallets.find(w => w.id === walletId)`: the first wallet with that
      id, if any. */
  function FindWallet(ws: seq<Wallet>, id: string): (r: Option<Wallet>)
    ensures r.None? <==> forall i :: 0 <= i < |ws| ==> ws[i].id != Some(id)
    ensures r.Some? ==> exists i :: 0 <= i < |ws| && ws[i] == r.value
                          && ws[i].id == Some(id)
                          && forall j :: 0 <= j < i ==> ws[j].id != Some(id)
  {
    if ws == [] then None
    else if ws[0].id == Some(id) then Some(ws[0])
    else
      var r := FindWallet(ws[1..], id);
      if r.Some? then
        var i :| 0 <= i < |ws[1..]| && ws[1..][i] == r.value && ws[1..][i].id == Some(id)
                 && forall j :: 0 <= j < i ==> ws[1..][j].id != Some(id);
        assert ws[i + 1] == r.value;
        r
      else r
  }

  /** One token of the service's data as a `PortfolioToken`: missing USD
      figures read as 0 (`|| 0`). */
  function ToPortfolioToken(t: Api.TokenBalance): (r: PortfolioToken)
    requires t.balanceFormatted.Some?
    ensures r.address == t.tokenAddress && r.symbol == t.symbol && r.name == t.name
    ensures r.balance == t.balanceFormatted.value && r.logoUrl == t.logo
    ensures r.value == Api.TokenUsdOrZero(t)
    ensures r.price == t.usdPrice.GetOr(0.0) && r.change24h == t.change24h.GetOr(0.0)
  {
    PortfolioToken(t.tokenAddress, t.symbol, t.name, t.balanceFormatted.value,
                   t.usdValue.GetOr(0.0), t.usdPrice.GetOr(0.0), t.change24h.GetOr(0.0), t.logo)
  }

  /** The native asset's ticker: `'ETH'` for the lower-case network
      `'ethereum'`, `'SOL'` for every other network. */
  function NativeSymbol(network: string): (sym: string)
    ensures sym == "ETH" <==> network == "ethereum"
    ensures sym == "ETH" || sym == "SOL"
  {
    if network == "ethereum" then "ETH" else "SOL"
  }

  /** The record built at lines 222-243. The service's data always carries
      a formatted balance for each token. */
  function BuildPortfolio(w: Wallet, d: Api.WalletPortfolioData): (p: WalletPortfolio)
    requires forall i :: 0 <= i < |d.tokens| ==> d.tokens[i].balanceFormatted.Some?
    ensures |p.tokens| == |d.tokens|
    ensures forall i :: 0 <= i < |d.tokens| ==> p.tokens[i] == ToPortfolioToken(d.tokens[i])
    ensures p.nativeToken.symbol == NativeSymbol(w.network)
    ensures p.nativeToken
            == NativeToken(NativeSymbol(w.network), d.nativeBalance.balanceFormatted,
                           d.nativeBalance.usdValue, d.nativeBalance.usdPrice, d.nativeBalance.change24h)
    ensures p.totalValue == d.totalUsdValue && p.lastUpdated == d.lastUpdated
    ensures !p.loading && p.error.None?
  {
    var n := d.nativeBalance;
    WalletPortfolio(
      d.totalUsdValue,
      seq(|d.tokens|, i requires 0 <= i < |d.tokens| => ToPortfolioToken(d.tokens[i])),
      NativeToken(NativeSymbol(w.network), n.balanceFormatted, n.usdValue, n.usdPrice, n.change24h),
      d.lastUpdated,
      false,
      None)
  }

  /** Converting the tokens keeps the sum of their USD values. */
  lemma {:induction false} ConvertedTokensKeepSum(d: seq<Api.TokenBalance>, p: seq<PortfolioToken>)
    requires |p| == |d|
    requires forall i :: 0 <= i < |d| ==> d[i].balanceFormatted.Some? && p[i] == ToPortfolioToken(d[i])
    ensures SumOf(p, TokenValue) == SumOf(d, Api.TokenUsdOrZero)
  {
    if d != [] {
      ConvertedTokensKeepSum(d[1..], p[1..]);
    }
  }

  /** The responses one `getWalletPortfolio` call receives, and the clock. */
  datatype Responses = Responses(
    apiKey: string,
    native: Api.Fetched<real>,
    tokens: Api.Fetched<Option<seq<Api.TokenBalance>>>,
    tokenPrices: Api.Fetched<map<string, Api.PriceQuote>>,
    ethPrice: Api.Fetched<Option<Api.PriceQuote>>,
    now: int)

  /** What `getWalletPortfolio(wallet.address, wallet.network)` yields. */
  function Fetch(w: Wallet, rs: Responses): Result<Api.WalletPortfolioData> {
    Api.GetWalletPortfolio(rs.apiKey, w.address, w.network, rs.native, rs.tokens,
                           rs.tokenPrices, rs.ethPrice, rs.now)
  }

  /** The actions `fetchWalletPortfolio(walletId)` dispatches: none for an
      id no wallet carries; otherwise the loading flag, then the converted
      portfolio or the error's message. */
  function FetchWalletPortfolio(s: AppState, walletId: string, rs: Responses): (acts: seq<Action>)
    ensures FindWallet(s.wallets, walletId).None? <==> acts == []
    ensures acts != [] ==> |acts| == 2 && acts[0] == SetPortfolioLoading(walletId, true)
    ensures acts != [] ==>
              var d := Fetch(FindWallet(s.wallets, walletId).value, rs);
              var w := FindWallet(s.wallets, walletId).value;
              (d.Ok? ==> acts[1] == SetPortfolio(walletId, BuildPortfolio(w, d.value)))
              && (d.Err? ==> acts[1] == SetPortfolioError(walletId, d.message))
  {
    match FindWallet(s.wallets, walletId)
    case None => []
    case Some(w) =>
      var next := match Fetch(w, rs)
        case Ok(d) => SetPortfolio(walletId, BuildPortfolio(w, d))
        case Err(m) => SetPortfolioError(walletId, m);
      [SetPortfolioLoading(walletId, true), next]
  }

  /** Dispatching those actions: an unknown id leaves the state as it was;
      a successful fetch stores a portfolio whose total is its native value
      plus the values of its tokens, with nothing else in the state changed;
      a failed one records the message and keeps any previous figures. */
  lemma FetchWalletPortfolioOutcome(s: AppState, walletId: string, rs: Responses)
    ensures var acts := FetchWalletPortfolio(s, walletId, rs);
            var s' := ReduceAll(s, acts);
            && (acts == [] ==> s' == s)
            && s'.wallets == s.wallets && s'.user == s.user && s'.ui == s.ui
            && (acts != [] ==>
                  && walletId in s'.portfolios
                  && OthersUnchanged(s.portfolios, s'.portfolios, walletId)
                  && !s'.portfolios[walletId].Loading())
            && (acts != [] && acts[1].SetPortfolio? ==>
                  var p := s'.portfolios[walletId];
                  && p.Loaded? && p.portfolio.error.None?
                  && p.portfolio.nativeToken.symbol
                     == NativeSymbol(FindWallet(s.wallets, walletId).value.network)
                  && p.portfolio.totalValue
                     == p.portfolio.nativeToken.value + SumOf(p.portfolio.tokens, TokenValue))
            && (acts != [] && acts[1].SetPortfolioError? ==>
                  && s'.portfolios[walletId].Error() == Some(acts[1].error)
                  && (walletId in s.portfolios && s.portfolios[walletId].Loaded? ==>
                        && s'.portfolios[walletId].Loaded?
                        && s'.portfolios[walletId].portfolio.totalValue
                           == s.portfolios[walletId].portfolio.totalValue))
  {
    var acts := FetchWalletPortfolio(s, walletId, rs);
    if acts != [] {
      var w := FindWallet(s.wallets, walletId).value;
      ReducePair(s, acts);
      LoadingThenResult(s, walletId, acts[1]);
      var d := Fetch(w, rs);
      if d.Ok? {
        var p := BuildPortfolio(w, d.value);
        assert acts[1] == SetPortfolio(walletId, p);
        ConvertedTokensKeepSum(d.value.tokens, p.tokens);
      }
    }
  }

  /** Reducing two actions reduces the first, then the second. */
  lemma ReducePair(s: AppState, acts: seq<Action>)
    requires |acts| == 2
    ensures ReduceAll(s, acts) == Reduce(Reduce(s, acts[0]).state, acts[1]).state
  {
    var s1 := Reduce(s, acts[0]).state;
    assert acts[1..][0] == acts[1] && acts[1..][1..] == [];
    assert ReduceAll(s1, acts[1..]) == ReduceAll(Reduce(s1, acts[1]).state, []);
  }

  /** Raising the loading flag of `walletId` and then storing a portfolio
      or an error for it touches that entry only, and lowers the flag. */
  lemma LoadingThenResult(s: AppState, walletId: string, b: Action)
    requires b.SetPortfolio? || b.SetPortfolioError?
    requires b.walletId == walletId
    requires b.SetPortfolio? ==> !b.portfolio.loading
    ensures var s' := Reduce(Reduce(s, SetPortfolioLoading(walletId, true)).state, b).state;
            && s'.wallets == s.wallets && s'.user == s.user && s'.ui == s.ui
            && walletId in s'.portfolios
            && OthersUnchanged(s.portfolios, s'.portfolios, walletId)
            && !s'.portfolios[walletId].Loading()
            && (b.SetPortfolio? ==> s'.portfolios[walletId] == Loaded(b.portfolio))
            && (b.SetPortfolioError? ==>
                  && s'.portfolios[walletId].Error() == Some(b.error)
                  && (walletId in s.portfolios && s.portfolios[walletId].Loaded? ==>
                        && s'.portfolios[walletId].Loaded?
                        && s'.portfolios[walletId].portfolio.totalValue
                           == s.portfolios[walletId].portfolio.totalValue))
  {
    var s1 := Reduce(s, SetPortfolioLoading(walletId, true)).state;
    var s2 := Reduce(s1, b).state;
    assert Lookup(s1.portfolios, walletId) == Some(s1.portfolios[walletId]);
    if walletId in s.portfolios && s.portfolios[walletId].Loaded? {
      assert Lookup(s.portfolios, walletId) == Some(s.portfolios[walletId]);
    }
  }
}
