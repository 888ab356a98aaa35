/** The records of src/types/index.ts that the modelled code reads and
    writes. Numbers are `real`; dates are integer timestamps. */
module Types {
  import opened Wrappers

  /** A registered wallet. Records written by the add-wallet form carry no
      `id` and no `createdAt`, so both are optional here. */
  datatype Wallet = Wallet(
    id: Option<string>,
    address: string,
    alias: string,
    network: string,
    createdAt: Option<int>)

  /** `Partial<Wallet>`: the fields an update overwrites. */
  datatype WalletUpdates = WalletUpdates(
    id: Option<string>,
    address: Option<string>,
    alias: Option<string>,
    network: Option<string>,
    createdAt: Option<int>)

  /** One token holding of a wallet portfolio. */
  datatype PortfolioToken = PortfolioToken(
    address: string,
    symbol: string,
    name: string,
    balance: real,
    value: real,
    price: real,
    change24h: real,
    logoUrl: Option<string>)

  /** A holding's value in USD. */
  function TokenValue(t: PortfolioToken): real { t.value }

  /** The network's own asset (ETH, SOL) in a wallet portfolio. */
  datatype NativeToken = NativeToken(
    symbol: string,
    balance: real,
    value: real,
    price: real,
    change24h: real)

  datatype WalletPortfolio = WalletPortfolio(
    totalValue: real,
    tokens: seq<PortfolioToken>,
    nativeToken: NativeToken,
    lastUpdated: int,
    loading: bool,
    error: Option<string>)

  /** What `state.portfolios[walletId]` holds: a full portfolio, or, when a
      loading or error action reached a wallet that had none, an object
      holding only the `loading` and `error` fields that action wrote. */
  datatype PortfolioEntry =
    | Loaded(portfolio: WalletPortfolio)
    | Stub(stubLoading: bool, stubError: Option<string>)
  {
    function Loading(): bool {
      match this
      case Loaded(p) => p.loading
      case Stub(l, _) => l
    }

    function Error(): Option<string> {
      match this
      case Loaded(p) => p.error
      case Stub(_, e) => e
    }

    /** `!!entry.error`: an error is present and is not the empty string. */
    predicate HasError() {
      Error().Some? && Error().value != ""
    }
  }

  datatype LayoutItem = LayoutItem(id: string, isVisible: bool, order: int)

  datatype Preferences = Preferences(
    theme: string,
    currency: string,
    dashboardLayout: seq<LayoutItem>)

  datatype User = User(id: string, preferences: Preferences)

  datatype Ui = Ui(sidebarOpen: bool, activeModal: Option<string>, loading: bool)

  /** The whole application state: the user, the wallet list, the portfolio
      of each wallet keyed by wallet id, and the UI flags. */
  datatype AppState = AppState(
    user: User,
    wallets: seq<Wallet>,
    portfolios: map<string, PortfolioEntry>,
    ui: Ui)
}
