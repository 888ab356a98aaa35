# crypto-portfolio-app, modelled in Dafny

This project models the logic of a crypto-portfolio web app. The app keeps
a list of wallets (EVM and Solana addresses) in browser cookies. It fetches
each wallet's balances and prices from third-party APIs and shows the
totals on a dashboard. The model covers six parts of the app:

- **Wallet registry** (`cookie_manager.dfy`, module `CookieManager`):
  - the address patterns `detectNetwork` and `validateWalletAddress`;
  - the cookie store as a class holding a user id, a wallet list and
    preferences, whose methods add, update and delete wallets by address.
- **App-state reducer** (`app_context.dfy`, module `AppContext`):
  - `appReducer`, as a function from a state and an action to a state plus
    the wallet list it persists;
  - `fetchWalletPortfolio`, as the actions it dispatches and the mapping
    from API data to a `WalletPortfolio`.
- **Portfolio enrichment** (`api.dfy`, module `Api`):
  - the chain mapping;
  - the price lookups and the values they fall back to on failure;
  - the token pricing and the `totalUsdValue` sum in `getWalletPortfolio`.
- **Dashboard figures** (`dashboard.dfy`, module `Dashboard`):
  - the total and selected value;
  - `getPortfolioTokens`, imperative as in the source: grouping by symbol,
    then a descending sort that keeps ties in input order;
  - the chart's top eight rows;
  - the wallet card's in-place token sort;
  - `formatAddress` and `getChainName`.
- **Add-wallet form** (`add_wallet_form.dfy`, module `AddWalletForm`): a class
  with the form's state and the handlers `handleAddressChange`,
  `validateForm` and `handleSubmit`.
- **Wallet list** (`wallet_list.dfy`, module `WalletList`):
  - the display helpers;
  - a class with the edit/delete state and the handlers that write to the
    cookie store.

Three support modules hold what the others share:

- `types.dfy`: the records of `src/types/index.ts`.
- `text.dfy`: JavaScript's `trim`, ASCII `toLowerCase`, UTF-16 length and
  `substring`.
- `seqs.dfy`: sums and the descending sort.

Amounts are `real`. JavaScript's `NaN` is written `None` where the model
has to show it.

## Model

| member | source | states |
|---|---|---|
| CookieManager.EvmAndSolanaDisjoint | src/utils/cookieManager.ts:62-65 | No string matches both the EVM pattern and the base58 pattern: an EVM address starts with `0`, which base58 excludes |
| CookieManager.DetectNetwork | src/utils/cookieManager.ts:70-78 | `Ethereum` exactly for `0x` plus 40 hex digits of either case; `Solana` exactly for 32-44 base58 characters; none exactly when neither pattern holds |
| CookieManager.ValidateWalletAddress | src/utils/cookieManager.ts:60-68 | Accepts exactly when the address's detected network is the given name; any name other than `Ethereum` or `Solana` is rejected |
| CookieManager.LowerCaseNamesNeverValidate | src/utils/cookieManager.ts:60-68 | The lower-case names `ethereum` and `solana` never validate an address (the validator is case-sensitive) |
| CookieManager.EvmExample | src/utils/cookieManager.ts:60-78 | A concrete 42-character `0x` address is detected as Ethereum, validates for `Ethereum` and not for `Solana` |
| CookieManager.ShortStringsAreRejected | src/utils/cookieManager.ts:60-78 | `""` and `"abc"` match neither pattern, and `"abc"` validates for no network |
| CookieManager.ReplaceKeepsShape | src/utils/cookieManager.ts:88-92 | Updating by address keeps the length and every address in place, leaves wallets with other addresses unchanged, and keeps addresses distinct |
| CookieManager.ReplaceAbsentOrPresent | src/utils/cookieManager.ts:88-92 | Updating an absent address changes nothing; updating a present one puts the new wallet in the list |
| CookieManager.WithoutAddress | src/utils/cookieManager.ts:94-98 | The kept wallets are exactly those whose address differs; the list does not grow |
| CookieManager.WithoutAddressAppend | src/utils/cookieManager.ts:94-98 | Deleting by address works piecewise over a concatenation, so the order of the rest is kept |
| CookieManager.WithoutAbsentAddress | src/utils/cookieManager.ts:94-98 | Deleting an address no wallet has leaves the list identical |
| CookieManager.WithoutAddressKeepsDistinct | src/utils/cookieManager.ts:94-98 | Deleting keeps stored addresses pairwise distinct |
| CookieManager.CookieStore.constructor | src/utils/cookieManager.ts:9-57 | A fresh store holds no id, no wallets and no preferences |
| CookieManager.CookieStore.GetUserId | src/utils/cookieManager.ts:9-16 | Returns the stored id when one is set; otherwise stores the generated one and returns it; an id is stored afterwards |
| CookieManager.GetUserIdIsStable | src/utils/cookieManager.ts:9-16 | Two calls in a row return the same id even when given different fresh ids |
| CookieManager.CookieStore.AddWallet | src/utils/cookieManager.ts:80-86 | A duplicate address fails with the source's message and leaves the list unchanged; otherwise the wallet is appended; distinct addresses stay distinct |
| CookieManager.DuplicateRegistration | src/utils/cookieManager.ts:80-86 | Adding the same address twice fails the second time, but the address in upper case is accepted (exact-case comparison) |
| CookieManager.CookieStore.UpdateWallet | src/utils/cookieManager.ts:88-92 | The list becomes the by-address replacement of the old one: same length, distinct addresses kept |
| CookieManager.CookieStore.DeleteWallet | src/utils/cookieManager.ts:94-98 | The list becomes the old one without that address; the address is gone; an absent address changes nothing |
| CookieManager.CookieStore.GetPreferences | src/utils/cookieManager.ts:39-46 | Returns the stored preferences, or the defaults (light theme, USD, empty layout) when none are stored |
| CookieManager.CookieStore.SavePreferences | src/utils/cookieManager.ts:48-50 | The given preferences are stored |
| CookieManager.CookieStore.ClearAllData | src/utils/cookieManager.ts:53-57 | Id, wallets and preferences are all removed |
| Api.ChainFor | src/services/api.ts:175-182 | The chain is one of `eth`, `polygon`, `bsc`, `avalanche`; `ethereum` in any ASCII case gives `eth`; `polygon`, `bsc` and `avalanche` give themselves; a lower-cased network outside the mapping gives `eth` |
| Api.ChainExamples | src/services/api.ts:175-182 | `Ethereum` gives `eth`, `POLYGON` gives `polygon`, and `solana` and `arbitrum` fall back to `eth` |
| Api.Pow10 | src/services/api.ts:99 | `10^n` is at least 1, so the balance division is defined |
| Api.PowAdd | src/services/api.ts:99 | `10^(a+b) = 10^a * 10^b` |
| Api.Fixed6 | src/services/api.ts:99 | Rounding to six decimals moves a value by at most half a millionth |
| Api.PriceNative | src/services/api.ts:196-203 | With a truthy ETH price the USD value is the six-decimal balance times the price; otherwise the native balance is unchanged; the balance itself is never changed |
| Api.FailedEthPriceLeavesNativeUnpriced | src/services/api.ts:131-134 | The fallback after a failed ETH price lookup has a zero price, so the native balance stays unpriced |
| Api.EnrichToken | src/services/api.ts:206-222 | Identity fields are kept; the formatted balance is always set, within half a millionth of `balance / 10^decimals`; a priced token gets `usd_value = balance / 10^decimals * usd`; an unpriced token keeps its USD fields |
| Api.EnrichTokens | src/services/api.ts:206-222 | Token count and order are kept; each token is enriched on its own |
| Api.FailedTokenPricesPriceNothing | src/services/api.ts:158-161 | After a failed token-price lookup no token's USD value changes |
| Api.NoTokensIgnoresTokenPrices | src/services/api.ts:192-193 | Without tokens the result does not depend on the token-price response |
| Api.GetWalletPortfolio | src/services/api.ts:165-242 | Succeeds exactly when a key is set and both balance requests answer; a missing key fails first, then a failed native balance, then failed token balances; on success: the tokens are the answered tokens priced by the price answer, the native balance is the answered one priced at the ETH price, the address, network and time are carried over, not loading, token count kept, every balance formatted, total = native USD value + sum of token USD values (missing counts 0) |
| Api.RequestsMade | src/services/api.ts:171-193 | No request is made without a key; a token-price request is only made with at least one token address |
| Api.PricingExamples | src/services/api.ts:97-222 | 10^18 wei is 1 ETH, worth 3000 at a price of 3000; a 6-decimal token is priced from `balance / 10^6` |
| AppContext.MergeUpdatesLaws | src/contexts/AppContext.tsx:74-84 | Merging no updates changes nothing, and merging the same updates twice equals merging once |
| AppContext.UpdateById | src/contexts/AppContext.tsx:74-84 | Length and order are kept; wallets with the id get the updates merged in; the others are unchanged |
| AppContext.WithoutId | src/contexts/AppContext.tsx:86-94 | The kept wallets are exactly those without that id |
| AppContext.WithoutAbsentId | src/contexts/AppContext.tsx:86-94 | Removing an id no wallet carries leaves the list identical |
| AppContext.WithLoading | src/contexts/AppContext.tsx:111-121 | Only `loading` changes: an existing error is kept and a loaded portfolio keeps its figures |
| AppContext.WithError | src/contexts/AppContext.tsx:123-134 | The entry gets the error and is not loading; a loaded portfolio keeps its figures; without a previous portfolio only error and loading exist |
| AppContext.Reduce | src/contexts/AppContext.tsx:40-139 | The UI actions change only their own `ui` field. SET_WALLETS sets the list. ADD appends with no duplicate check. UPDATE merges into matching ids with length and order kept. DELETE removes that id's wallets and portfolio entry. The portfolio actions touch only their key. ADD, UPDATE and DELETE persist the list; an unknown action changes nothing |
| AppContext.AddWalletActionAdmitsDuplicates | src/contexts/AppContext.tsx:66-72 | Adding a wallet already listed yields two wallets with one address, and that list is persisted |
| AppContext.DeleteUnknownId | src/contexts/AppContext.tsx:86-94 | Deleting an id no wallet has keeps the list and still drops that portfolio key |
| AppContext.ErrorKeepsStaleFigures | src/contexts/AppContext.tsx:102-134 | A portfolio stored and then marked failed keeps its total, tokens and native token; only error and loading change |
| AppContext.FindWallet | src/contexts/AppContext.tsx:214-215 | No wallet is found exactly when no wallet has the id; a found wallet is in the list |
| AppContext.ToPortfolioToken | src/contexts/AppContext.tsx:224-233 | Each token field is copied; missing USD value, price and change default to 0 |
| AppContext.NativeSymbol | src/contexts/AppContext.tsx:235 | `ETH` exactly for network `ethereum`, otherwise `SOL` |
| AppContext.BuildPortfolio | src/contexts/AppContext.tsx:222-243 | Token count and order are kept; the native token has the network's symbol and the API's formatted balance, USD value, price and 24-hour change; total and time come from the API data; not loading, no error |
| AppContext.ConvertedTokensKeepSum | src/contexts/AppContext.tsx:224-233 | The converted tokens' values add up to the API tokens' USD values with missing ones as 0 |
| AppContext.FetchWalletPortfolio | src/contexts/AppContext.tsx:213-253 | An unknown id dispatches nothing; otherwise loading first, then SET_PORTFOLIO with the fetched data converted for that wallet on success, or SET_PORTFOLIO_ERROR with the message |
| AppContext.FetchWalletPortfolioOutcome | src/contexts/AppContext.tsx:213-253 | After the dispatches: an unknown id leaves the state as it was; wallets, user and UI are unchanged; only that key changes and it is no longer loading; on success the total is native plus token values; on failure the error is recorded and earlier figures are kept |
| AppContext.ReducePair | src/contexts/AppContext.tsx:40-139 | Reducing two actions is reducing the first and then the second |
| AppContext.LoadingThenResult | src/contexts/AppContext.tsx:102-134 | Loading then a result touches only that key, ends not loading, and stores the portfolio, or records the error while keeping earlier figures |
| Dashboard.EntryValueAsWritten | src/pages/Dashboard.tsx:74-76 | An entry without figures reads as NaN; a loaded one gives its total |
| Dashboard.SelectedValueAsWritten | src/pages/Dashboard.tsx:79-85 | `all` gives the total as written; a wallet with an entry gives that entry's value as written (NaN without figures); a wallet without an entry gives 0 |
| Dashboard.TotalAsWrittenWithoutStubs | src/pages/Dashboard.tsx:74-76 | The total as written is a number exactly when every entry has figures, and it is then the corrected total |
| Dashboard.FirstFetchOutcomeDecidesNaN | src/pages/Dashboard.tsx:74-85 | After a failed first fetch the total and the wallet's value still read NaN as written; after a successful one the total is the portfolio's total |
| Dashboard.ReducerCanBreakRenders | src/pages/Dashboard.tsx:92-95 | An empty error message or a `loading: false` action on a wallet without an entry leaves an entry that is ready yet has no figures, so the page cannot be drawn |
| Dashboard.FirstFetchMakesTotalNaN | src/pages/Dashboard.tsx:74-85 | After the first loading action of a wallet's first fetch, the total and that wallet's value read NaN as written; the corrected total is 0 |
| Dashboard.EntryValue | src/pages/Dashboard.tsx:74-76 | Agrees with the value as written wherever that is a number, and is 0 for an entry without figures |
| Dashboard.SelectedPortfolioValue | src/pages/Dashboard.tsx:79-85 | `all` gives the total; a wallet without an entry gives 0; a loaded wallet gives its own total |
| Dashboard.DistinctCount | src/pages/Dashboard.tsx:74-76 | A key list without repeats holds each key once |
| Dashboard.TotalIndependentOfOrder | src/pages/Dashboard.tsx:74-76 | The total is the same for every enumeration order of the portfolio map |
| Dashboard.RemoveKeyEnumerates | src/pages/Dashboard.tsx:74-76 | Dropping one key from an enumeration enumerates the map without that key |
| Dashboard.TotalWithoutKey | src/pages/Dashboard.tsx:74-76 | Removing an entry lowers the total by exactly that entry's value |
| Dashboard.DeleteWalletLowersTotal | src/pages/Dashboard.tsx:74-76 | After DELETE_WALLET the total drops by the deleted wallet's value |
| Dashboard.PortfolioRows | src/pages/Dashboard.tsx:124-144 | One row for the native asset, then one per token in order |
| Dashboard.FirstWithSymbol | src/pages/Dashboard.tsx:96-110 | Finds no row exactly when no row has the symbol; a found index has that symbol |
| Dashboard.GroupSnoc | src/pages/Dashboard.tsx:91-123 | Grouping one more holding is one more grouping step |
| Dashboard.SymbolsSnoc | src/pages/Dashboard.tsx:91-123 | One more holding adds its symbol to the symbols held |
| Dashboard.OfSymbolSnoc | src/pages/Dashboard.tsx:91-123 | The holdings of a symbol gain the new holding exactly when its symbol matches |
| Dashboard.OfAbsentSymbol | src/pages/Dashboard.tsx:91-123 | A symbol nobody holds has no holdings |
| Dashboard.AddHoldingShape | src/pages/Dashboard.tsx:96-120 | One step: a present symbol's row, and only it, grows by the holding's value and balance; a new symbol is pushed at the end; symbols stay distinct |
| Dashboard.GroupRows | src/pages/Dashboard.tsx:91-123 | One row per symbol held, and no other; each row's value and balance are the sums over that symbol's holdings |
| Dashboard.AddHoldingRowAt | src/pages/Dashboard.tsx:96-120 | After one step each row carries its symbol's sums including the new holding |
| Dashboard.GroupConserves | src/pages/Dashboard.tsx:91-123 | Grouping keeps total value and total balance |
| Dashboard.AddHoldingConserves | src/pages/Dashboard.tsx:96-120 | One step raises total value and balance by the holding's |
| Dashboard.AddRow | src/pages/Dashboard.tsx:96-120 | The in-place find-and-add, or push, is one grouping step |
| Dashboard.AddRows | src/pages/Dashboard.tsx:96-120 | The `forEach` over one wallet's holdings extends the grouping by them |
| Dashboard.HoldingsStep | src/pages/Dashboard.tsx:93-122 | The holdings of one more portfolio are appended after the earlier ones |
| Dashboard.GroupAll | src/pages/Dashboard.tsx:91-123 | The loops over all portfolios compute the grouping of the ready portfolios' holdings |
| Dashboard.WalletRows | src/pages/Dashboard.tsx:124-144 | The single-wallet loop computes the native row and one row per token |
| Dashboard.PortfolioTokens | src/pages/Dashboard.tsx:88-147 | `getPortfolioTokens` computes its specification: grouped for `all`, one wallet's rows otherwise, then sorted |
| Dashboard.DistinctSymbolsOnce | src/pages/Dashboard.tsx:91-123 | Rows with distinct symbols hold each row at most once |
| Dashboard.TwiceAt | src/pages/Dashboard.tsx:146 | A row at two positions occurs twice |
| Dashboard.DistinctSymbolsPermutation | src/pages/Dashboard.tsx:146 | Reordering keeps symbols distinct |
| Dashboard.SymbolsPermutation | src/pages/Dashboard.tsx:146 | Reordering keeps the set of symbols |
| Dashboard.SortedGroup | src/pages/Dashboard.tsx:91-146 | Grouped and sorted: non-increasing by value, one row per symbol carrying its sums, value and balance conserved |
| Dashboard.AllView | src/pages/Dashboard.tsx:91-146 | The `all` view: sorted, one row per symbol held in a ready portfolio (native and token rows merge), each with that symbol's summed value and balance, totals conserved |
| Dashboard.SingleView | src/pages/Dashboard.tsx:124-146 | One wallet's view: sorted, exactly `1 + tokens.length` unmerged rows for a ready portfolio, none otherwise |
| Dashboard.TokenRowsSum | src/pages/Dashboard.tsx:108-120 | The token rows carry the tokens' total value |
| Dashboard.AllViewAddsUpToReadyTotals | src/pages/Dashboard.tsx:91-123 | When each portfolio's total is native plus tokens, the `all` view's value is the sum of the ready portfolios' totals |
| Dashboard.ChartRows | src/pages/Dashboard.tsx:153-156 | The chart takes the first `min(8, n)` rows, and no row left out is worth more than one kept |
| Dashboard.ShiftIsInsert | src/pages/Dashboard.tsx:410-412 | Shifting larger tokens left and dropping the token after them is an insertion into the sorted suffix |
| Dashboard.ShiftedSlice | src/pages/Dashboard.tsx:410-412 | The shifted slice is the suffix with the token placed after the shifted part |
| Dashboard.ShiftLarger | src/pages/Dashboard.tsx:410-412 | The loop shifts left exactly the tokens worth more than the one being inserted; the rest stay put |
| Dashboard.InsertIntoSuffix | src/pages/Dashboard.tsx:410-412 | Inserting one token into the sorted suffix of the array; the prefix is untouched |
| Dashboard.SortTokensInPlace | src/pages/Dashboard.tsx:410-412 | The portfolio's token array ends as the descending sort of its old contents |
| Dashboard.TopTokens | src/pages/Dashboard.tsx:410-438 | The array is sorted in place; the first three are shown and none hidden is worth more; `+N more` counts the rest |
| Dashboard.AssetCount | src/pages/Dashboard.tsx:383 | The asset count is the native asset plus every token |
| Dashboard.FormatAddress | src/pages/Dashboard.tsx:43-45 | At most 13 characters; from 6 characters on, exactly 13: the first 6, `...` and the last 4; a 5-character string appears whole, then `...`, then its last 4; a string of at most 4 characters appears twice around `...` |
| Dashboard.GetChainName | src/pages/Dashboard.tsx:47-59 | The display name of the lower-cased network when it is one of the eight; otherwise the input unchanged |
| Dashboard.ChainNamesRoundTrip | src/pages/Dashboard.tsx:47-59 | Every display name lower-cases back to its own key |
| Dashboard.GetChainNameLaws | src/pages/Dashboard.tsx:47-59 | Naming twice is naming once, and the lookup ignores letter case |
| AddWalletForm.AddressError | src/components/wallet/AddWalletForm.tsx:42-48 | Empty address first, then missing network; no error exactly when the address is non-empty, a network is set and the validator accepts it |
| AddWalletForm.AliasError | src/components/wallet/AddWalletForm.tsx:50-54 | No error exactly when the trimmed alias has 1 to 50 UTF-16 units; the "enter alias" error exactly when the alias is all whitespace |
| AddWalletForm.FormAcceptedIff | src/components/wallet/AddWalletForm.tsx:39-58 | No error is recorded exactly when the address checks and the alias check all pass |
| AddWalletForm.FormNeverAccepted | src/components/wallet/AddWalletForm.tsx:42-48 | With any network the form can hold (`''`, `ethereum`, `solana`) an address error is always recorded |
| AddWalletForm.LowerCaseNetworkNames | src/components/wallet/AddWalletForm.tsx:28 | Lower-casing the detected names gives `ethereum` and `solana` |
| AddWalletForm.CheckAddress | src/components/wallet/AddWalletForm.tsx:42-48 | The address branch of `validateForm` records the address error, if any |
| AddWalletForm.CheckAlias | src/components/wallet/AddWalletForm.tsx:50-54 | The alias branch adds the alias error, if any, and nothing else |
| AddWalletForm.WalletForm.constructor | src/components/wallet/AddWalletForm.tsx:14-18 | The form starts empty, with no network, no errors and not submitting |
| AddWalletForm.WalletForm.HandleAddressChange | src/components/wallet/AddWalletForm.tsx:20-37 | The address becomes the trimmed input; a detected address sets the lower-case network and clears the address error; otherwise the network becomes `''`; the network stays one of the three values |
| AddWalletForm.WalletForm.PressNetworkButton | src/components/wallet/AddWalletForm.tsx:103-130 | The buttons set `ethereum` or `solana` |
| AddWalletForm.WalletForm.SetAlias | src/components/wallet/AddWalletForm.tsx:205 | The alias becomes the input |
| AddWalletForm.WalletForm.ValidateForm | src/components/wallet/AddWalletForm.tsx:39-58 | Stores exactly the form's errors; passes iff there are none; never passes for a network the form can hold |
| AddWalletForm.WalletForm.HandleSubmit | src/components/wallet/AddWalletForm.tsx:60-91 | A rejected form records its errors and stops; an accepted one adds `{address, trimmed alias, network}`, resets the form and reloads the list, or sets only the submit error on a duplicate; the submitting flag ends false; a form in a reachable state never adds a wallet |
| AddWalletForm.WalletForm.SubmitWallet | src/components/wallet/AddWalletForm.tsx:69-89 | The try/catch/finally: add, reset and reload on success; only the submit error on failure; not submitting afterwards |
| WalletList.FormatAddress | src/components/wallet/WalletList.tsx:21-24 | Unchanged up to 10 characters; otherwise 13 characters: the first 6, `...`, the last 4 |
| WalletList.FormatAddressAgreesWithDashboard | src/components/wallet/WalletList.tsx:21-24 | Agrees with the dashboard's `formatAddress` beyond 10 characters and differs at exactly 10 |
| WalletList.GetNetworkDisplayName | src/components/wallet/WalletList.tsx:26-35 | `ethereum` and `solana` are capitalised; any other value is returned unchanged |
| WalletList.DisplayNameAgreesWithDashboard | src/components/wallet/WalletList.tsx:26-35 | For the two stored networks the list and the dashboard show the same name |
| WalletList.GetNetworkColor | src/components/wallet/WalletList.tsx:37-46 | The blue badge exactly for `ethereum`, purple exactly for `solana`, grey exactly otherwise |
| WalletList.SaveEditRenames | src/components/wallet/WalletList.tsx:53-69 | Saving an edit of a stored wallet puts the renamed wallet in the list and keeps every address in place |
| WalletList.WalletListView.constructor | src/components/wallet/WalletList.tsx:17-19 | Nothing is being edited or deleted, and the edit text is empty |
| WalletList.WalletListView.HandleEditWallet | src/components/wallet/WalletList.tsx:48-51 | Editing starts with the wallet's current alias |
| WalletList.WalletListView.SetEditAlias | src/components/wallet/WalletList.tsx:53-69 | The edit text becomes the input |
| WalletList.WalletListView.HandleSaveEdit | src/components/wallet/WalletList.tsx:53-69 | Nothing changes when nothing is edited or the alias trims to empty; otherwise the wallet with only its alias replaced by the trimmed text is written by address, the list reloads and editing ends |
| WalletList.WalletListView.HandleCancelEdit | src/components/wallet/WalletList.tsx:71-74 | Editing ends and the edit text is cleared |
| WalletList.WalletListView.HandleDeleteWallet | src/components/wallet/WalletList.tsx:76-78 | The wallet awaits confirmation |
| WalletList.WalletListView.ConfirmDelete | src/components/wallet/WalletList.tsx:80-90 | Nothing happens without a pending wallet; otherwise every wallet with its address is removed, the list reloads and the confirmation closes |
| WalletList.WalletListView.CancelDelete | src/components/wallet/WalletList.tsx:92-94 | The confirmation closes |
| Text.LeadingWhitespaceSpec | src/components/wallet/AddWalletForm.tsx:21 | The counted prefix is all whitespace and the next character is not |
| Text.TrailingWhitespaceSpec | src/components/wallet/AddWalletForm.tsx:21 | The counted suffix is all whitespace and the character before it is not |
| Text.TrimSpec | src/components/wallet/AddWalletForm.tsx:21 | `trim` gives a slice of the input whose cut-off ends are whitespace and whose own ends are not |
| Text.TrimIdempotent | src/components/wallet/AddWalletForm.tsx:50-54 | Trimming twice is trimming once |
| Text.TrimEmptyIff | src/components/wallet/AddWalletForm.tsx:50 | A string trims to empty exactly when it is all whitespace |
| Text.Utf16Length | src/components/wallet/AddWalletForm.tsx:52 | The UTF-16 length lies between the code-point count and twice that count |
| Text.AsciiLower | src/services/api.ts:182 | Lower-casing keeps the length and maps each character on its own |
| Seqs.SumOfPermutation | src/pages/Dashboard.tsx:74-76 | A sum does not depend on the order of its terms |
| Seqs.SortDesc | src/pages/Dashboard.tsx:146 | The result is non-increasing by key and a permutation of its input |
| Seqs.InsertSorted | src/pages/Dashboard.tsx:146 | Inserting into a sorted sequence keeps it sorted |
| Seqs.InsertSplits | src/pages/Dashboard.tsx:146 | Insertion places the element right after the leading larger ones |
| Seqs.SortDescKeepsSorted | src/pages/Dashboard.tsx:146 | Input already in order, ties included, comes back unchanged: equal keys are not reordered |
| Seqs.SortDescKeepsSum | src/pages/Dashboard.tsx:146 | Sorting keeps every sum over the elements |
| Seqs.TakeOfSortedIsLargest | src/pages/Dashboard.tsx:153-156 | The first `n` of a sorted sequence are its largest |

## Left out

- HTTP requests, `async`/`await` and `Promise.all`: every response is a
  parameter (`Fetched`).
  - The order in which parallel requests fail is fixed as "native balance
    first".
  - API keys from the environment are a parameter too.
  - `console` logging is left out.
- `fetchAllPortfolios` (src/contexts/AppContext.tsx:255-262) is not part of
  this model. It only runs `fetchWalletPortfolio` for every wallet
  concurrently.
- `useEffect` triggers and the `dispatch` wiring are left out.
  - `refreshWallets` is modelled only as the `SET_WALLETS` action the
    handlers return.
  - The form's `onSuccess` callback is left out.
- Cookie and JSON mechanics, and the 365-day expiry, are left out: the store
  is a class with plain fields.
- `uuidv4` is not modelled: `GetUserId` receives the fresh id as a
  parameter.
- `getSettings`/`saveSettings` are not part of this model.
- Floating point: amounts are `real`.
  - `toFixed(6)` is modelled as rounding half away from zero to six
    decimals.
  - `NaN` appears only where the dashboard reads a missing total.
  - `Intl.NumberFormat` and `toFixed(4)` display formatting are left out.
- `toLowerCase` is modelled for ASCII letters only; other letters are kept.
- `Object.values` order is modelled by an explicit enumeration of the map's
  keys, and every lemma holds for any enumeration.
  - Keys inherited from `Object.prototype` are not modelled.
- `generateHistoricalData`, Chart.js, the JSX markup, the layout pages,
  WalletManagement and the build configuration are left out.
  - They use randomness and the clock, or hold no logic.
- The browser's `maxLength=50` on the alias input is left out: the model
  checks the length only in `validateForm`.
- Dashboard.PortfolioTokens: it requires that a ready portfolio entry
  carries figures (`Renders`).
  - In the source, reading `nativeToken` of an entry created only by a
    loading or error action throws (src/pages/Dashboard.tsx:95).
  - The reducer can produce such a ready entry: SET_PORTFOLIO_ERROR with an
    empty message, or SET_PORTFOLIO_LOADING with `false`, on a wallet
    without an entry (`Dashboard.ReducerCanBreakRenders`).
  - The model describes the grouping only for states where the page can be
    drawn; the throw itself is not modelled.
- Text.Substring, Text.SubstringFrom, Dashboard.FormatAddress and
  WalletList.FormatAddress index by character, not by UTF-16 code unit.
  - They differ from JavaScript only for addresses holding characters
    outside the Basic Multilingual Plane.
- Dashboard.SortTokensInPlace: the sort works on an `array` of its own.
  - The source sorts the token array stored in the app state (line 411).
  - The model does not capture that this change is visible through the
    state.
- AppContext.Reduce: for DELETE_WALLET it states which wallets remain, not
  their order.
  - The order is kept, as `WithoutId` is a filter, but that is not part of
    the contract.
- Api.GetWalletPortfolio: the source does not sort tokens, and the model
  does not either.
- Api.GetWalletPortfolio: a malformed balance record has no error path of
  its own. A missing `result` field is read as an empty token list, as in
  the source.
- Wallets added by the form carry no `id`.
  - So `fetchWalletPortfolio` cannot find them by id.
  - The model keeps this as written, through `FindWallet`.

## Findings

| source | as written | input that shows it | evidently intended | confidence | as-written member | corrected member |
|---|---|---|---|---|---|---|
| src/pages/Dashboard.tsx:74-85 | The total and the selected value read `totalValue` of every entry in the portfolio map. An entry created by `SET_PORTFOLIO_LOADING` for a wallet without a portfolio (src/contexts/AppContext.tsx:111-121) has no `totalValue`, so the sum is `NaN`. | The first `fetchWalletPortfolio` of a wallet: after its loading action, the total and that wallet's value are `NaN`; if the fetch fails, the entry keeps no figures and the `NaN` stays. | An entry without figures counts as 0. | not executed | Dashboard.FirstFetchMakesTotalNaN | Dashboard.EntryValue |
