/** src/services/api.ts: the arithmetic `getWalletPortfolio` performs on the
    balance and price responses. The HTTP calls are not modelled: each
    response is an input, either a body or the message of the error the
    call threw. A raw balance string is represented by the number
    `parseFloat` reads from it, and amounts are `real`. */
module Api {
  import opened Wrappers
  import opened Seqs
  import Text

  /** A token balance from the ERC-20 balance endpoint. */
  datatype TokenBalance = TokenBalance(
    tokenAddress: string,
    symbol: string,
    name: string,
    logo: Option<string>,
    decimals: nat,
    balance: real,
    balanceFormatted: Option<real>,
    usdPrice: Option<real>,
    usdValue: Option<real>,
    change24h: Option<real>)

  /** The native balance as `getEVMNativeBalance` builds it. */
  datatype NativeBalance = NativeBalance(
    balance: real,
    balanceFormatted: real,
    usdPrice: real,
    usdValue: real,
    change24h: real)

  /** A price entry of the price service: `{usd, usd_24h_change}`. */
  datatype PriceQuote = PriceQuote(usd: real, usd24hChange: real)

  datatype WalletPortfolioData = WalletPortfolioData(
    address: string,
    network: string,
    nativeBalance: NativeBalance,
    tokens: seq<TokenBalance>,
    totalUsdValue: real,
    lastUpdated: int,
    loading: bool)

  /** The outcome of one request: its decoded body, or the message of the
      error it threw (a failed fetch or a non-OK status). */
  datatype Fetched<T> = Got(body: T) | Failed(message: string)

  /** The requests `getWalletPortfolio` issues, with their parameters. */
  datatype Request =
    | NativeBalanceRequest(address: string, chain: string)
    | TokenBalancesRequest(address: string, chain: string)
    | TokenPricesRequest(tokenAddresses: seq<string>)
    | EthPriceRequest

  const MissingKeyMessage := "Moralis API key not configured. Please set REACT_APP_MORALIS_API_KEY in Secrets."

  // ---------------------------------------------------------------------
  // Chains
  // ---------------------------------------------------------------------

  /** The entries of `chainMapping`. */
  function ChainMapping(key: string): Option<string> {
    if key == "ethereum" then Some("eth")
    else if key == "polygon" then Some("polygon")
    else if key == "bsc" then Some("bsc")
    else if key == "avalanche" then Some("avalanche")
    else None
  }

  /** `chainMapping[network.toLowerCase()] || 'eth'`: one of four chain
      ids; after lower-casing, `ethereum` gives `eth`, the other three
      listed networks give themselves, and every other network `eth`. */
  function ChainFor(network: string): (chain: string)
    ensures chain == "eth" || chain == "polygon" || chain == "bsc" || chain == "avalanche"
    ensures Text.AsciiLower(network) == "ethereum" ==> chain == "eth"
    ensures var key := Text.AsciiLower(network);
            key == "polygon" || key == "bsc" || key == "avalanche" ==> chain == key
    ensures ChainMapping(Text.AsciiLower(network)).None? ==> chain == "eth"
  {
    ChainMapping(Text.AsciiLower(network)).GetOr("eth")
  }

  /** The lookup ignores case; Solana and Arbitrum fall back to `eth`. */
  lemma ChainExamples()
    ensures ChainFor("Ethereum") == "eth"
    ensures ChainFor("POLYGON") == "polygon"
    ensures ChainFor("solana") == "eth"
    ensures ChainFor("arbitrum") == "eth"
  {
    assert Text.AsciiLower("Ethereum") == "ethereum";
    assert Text.AsciiLower("POLYGON") == "polygon";
    assert Text.AsciiLower("solana") == "solana";
    assert Text.AsciiLower("arbitrum") == "arbitrum";
  }

  // ---------------------------------------------------------------------
  // Number formatting
  // ---------------------------------------------------------------------

  function Pow10(n: nat): (r: real)
    ensures r >= 1.0
  {
    if n == 0 then 1.0 else 10.0 * Pow10(n - 1)
  }

  /** `parseFloat(x.toFixed(6))`: `x` rounded to six decimals, halves away
      from zero; never more than half a millionth from `x`. */
  function Fixed6(x: real): (r: real)
    ensures x - 0.0000005 <= r <= x + 0.0000005
    decreases if x < 0.0 then 1 else 0
  {
    if x >= 0.0 then
      var y := x * 1000000.0 + 0.5;
      assert y - 1.0 < y.Floor as real <= y;
      (y.Floor as real) / 1000000.0
    else
      -Fixed6(-x)
  }

  // ---------------------------------------------------------------------
  // Responses and their fallbacks
  // ---------------------------------------------------------------------

  /** `getEVMNativeBalance`: the balance in ether, to six decimals, with
      every USD field zero. */
  function NativeFromResponse(rawBalance: real): NativeBalance {
    NativeBalance(rawBalance, Fixed6(rawBalance / Pow10(18)), 0.0, 0.0, 0.0)
  }

  /** `getETHPrice`: `data.ethereum` (absent when the body lacks it), or
      `{usd: 0, usd_24h_change: 0}` when the request failed. */
  function EthPrice(response: Fetched<Option<PriceQuote>>): Option<PriceQuote> {
    match response
    case Got(quote) => quote
    case Failed(_) => Some(PriceQuote(0.0, 0.0))
  }

  /** `getTokenPrices`, skipped when there are no tokens: the prices keyed
      by lower-case contract address, or none at all when it failed. */
  function TokenPrices(tokens: seq<TokenBalance>, response: Fetched<map<string, PriceQuote>>)
    : map<string, PriceQuote>
  {
    if |tokens| == 0 then map[]
    else match response
      case Got(prices) => prices
      case Failed(_) => map[]
  }

  // ---------------------------------------------------------------------
  // Enrichment
  // ---------------------------------------------------------------------

  /** `ethPrice && ethPrice.usd`. */
  predicate HasEthPrice(ethPrice: Option<PriceQuote>) {
    ethPrice.Some? && ethPrice.value.usd != 0.0
  }

  /** Lines 199-203: with a non-zero ETH price the USD fields are priced
      from the six-decimal balance; otherwise the balance is unchanged. The
      balance itself is never touched. */
  function PriceNative(n: NativeBalance, ethPrice: Option<PriceQuote>): (r: NativeBalance)
    ensures r.balance == n.balance && r.balanceFormatted == n.balanceFormatted
    ensures HasEthPrice(ethPrice) ==>
              (r.usdPrice == ethPrice.value.usd && r.usdValue == n.balanceFormatted * ethPrice.value.usd)
    ensures !HasEthPrice(ethPrice) ==> r == n
  {
    if HasEthPrice(ethPrice) then
      n.(usdPrice := ethPrice.value.usd,
         usdValue := n.balanceFormatted * ethPrice.value.usd,
         change24h := ethPrice.value.usd24hChange)
    else n
  }

  /** `balance / 10^decimals`. */
  function HumanBalance(t: TokenBalance): real {
    t.balance / Pow10(t.decimals)
  }

  /** Lines 206-222 for one token: the formatted balance is always set; a
      token whose lower-cased address has a price gets the USD value
      `balance / 10^decimals * usd`, any other keeps its USD fields. */
  function EnrichToken(t: TokenBalance, prices: map<string, PriceQuote>): (r: TokenBalance)
    ensures r.tokenAddress == t.tokenAddress && r.symbol == t.symbol && r.name == t.name
    ensures r.logo == t.logo && r.decimals == t.decimals && r.balance == t.balance
    ensures r.balanceFormatted.Some?
    ensures HumanBalance(t) - 0.0000005 <= r.balanceFormatted.value <= HumanBalance(t) + 0.0000005
    ensures Text.AsciiLower(t.tokenAddress) in prices ==>
              var q := prices[Text.AsciiLower(t.tokenAddress)];
              r.usdPrice == Some(q.usd) && r.usdValue.Some? && r.usdValue.value == HumanBalance(t) * q.usd
    ensures Text.AsciiLower(t.tokenAddress) !in prices ==>
              r.usdPrice == t.usdPrice && r.usdValue == t.usdValue && r.change24h == t.change24h
  {
    var bf := HumanBalance(t);
    var key := Text.AsciiLower(t.tokenAddress);
    if key in prices then
      var q := prices[key];
      var value := bf * q.usd;
      t.(balanceFormatted := Some(Fixed6(bf)),
         usdPrice := Some(q.usd),
         usdValue := Some(value),
         change24h := Some(q.usd24hChange))
    else
      t.(balanceFormatted := Some(Fixed6(bf)))
  }

  /** `tokens.map(...)`: one enriched token per token, in the same order. */
  function EnrichTokens(tokens: seq<TokenBalance>, prices: map<string, PriceQuote>)
    : (r: seq<TokenBalance>)
    ensures |r| == |tokens|
    ensures forall i :: 0 <= i < |tokens| ==> r[i] == EnrichToken(tokens[i], prices)
  {
    if tokens == [] then []
    else [EnrichToken(tokens[0], prices)] + EnrichTokens(tokens[1..], prices)
  }

  /** `token.usd_value || 0`. */
  function TokenUsdOrZero(t: TokenBalance): real {
    t.usdValue.GetOr(0.0)
  }

  /** The total of lines 225-226. */
  function TotalUsdValue(native: NativeBalance, tokens: seq<TokenBalance>): real {
    native.usdValue + SumOf(tokens, TokenUsdOrZero)
  }

  // ---------------------------------------------------------------------
  // getWalletPortfolio
  // ---------------------------------------------------------------------

  /** `getWalletPortfolio`. Without an API key it fails before any request;
      a failed balance request fails the whole call (the native balance's
      error is reported when both failed); the price lookups never fail.
      On success the tokens keep their count and order and the total is the
      native value plus every token's value, a missing one counting 0. */
  function GetWalletPortfolio(
    apiKey: string, address: string, network: string,
    nativeResponse: Fetched<real>,
    tokensResponse: Fetched<Option<seq<TokenBalance>>>,
    tokenPricesResponse: Fetched<map<string, PriceQuote>>,
    ethPriceResponse: Fetched<Option<PriceQuote>>,
    now: int): (r: Result<WalletPortfolioData>)
    ensures apiKey == "" ==> r == Err(MissingKeyMessage)
    ensures apiKey != "" && nativeResponse.Failed? ==> r == Err(nativeResponse.message)
    ensures apiKey != "" && nativeResponse.Got? && tokensResponse.Failed? ==> r == Err(tokensResponse.message)
    ensures r.Ok? <==> apiKey != "" && nativeResponse.Got? && tokensResponse.Got?
    ensures r.Ok? ==>
              var tokens := tokensResponse.body.GetOr([]);
              && r.value.tokens == EnrichTokens(tokens, TokenPrices(tokens, tokenPricesResponse))
              && r.value.nativeBalance
                 == PriceNative(NativeFromResponse(nativeResponse.body), EthPrice(ethPriceResponse))
    ensures r.Ok? ==>
              && r.value.address == address && r.value.network == network
              && r.value.lastUpdated == now && !r.value.loading
              && |r.value.tokens| == |tokensResponse.body.GetOr([])|
              && (forall i :: 0 <= i < |r.value.tokens| ==> r.value.tokens[i].balanceFormatted.Some?)
              && r.value.nativeBalance.balance == nativeResponse.body
              && r.value.totalUsdValue
                 == r.value.nativeBalance.usdValue + SumOf(r.value.tokens, TokenUsdOrZero)
  {
    if apiKey == "" then Err(MissingKeyMessage)
    else if nativeResponse.Failed? then Err(nativeResponse.message)
    else if tokensResponse.Failed? then Err(tokensResponse.message)
    else
      var tokens := tokensResponse.body.GetOr([]);
      var prices := TokenPrices(tokens, tokenPricesResponse);
      var native := PriceNative(NativeFromResponse(nativeResponse.body), EthPrice(ethPriceResponse));
      var enriched := EnrichTokens(tokens, prices);
      Ok(WalletPortfolioData(address, network, native, enriched,
                             TotalUsdValue(native, enriched), now, false))
  }

  /** The requests `getWalletPortfolio` makes: none without an API key; the
      two balance requests on the chosen chain; then, only when both
      succeeded, the token-price lookup when there are tokens, and the ETH
      price. */
  function RequestsMade(
    apiKey: string, address: string, network: string,
    nativeResponse: Fetched<real>,
    tokensResponse: Fetched<Option<seq<TokenBalance>>>): (rs: seq<Request>)
    ensures apiKey == "" <==> rs == []
    ensures forall i :: 0 <= i < |rs| && rs[i].TokenPricesRequest? ==> |rs[i].tokenAddresses| > 0
  {
    if apiKey == "" then []
    else
      var chain := ChainFor(network);
      var balances := [NativeBalanceRequest(address, chain), TokenBalancesRequest(address, chain)];
      if nativeResponse.Failed? || tokensResponse.Failed? then balances
      else
        var tokens := tokensResponse.body.GetOr([]);
        var addresses := seq(|tokens|, i requires 0 <= i < |tokens| => tokens[i].tokenAddress);
        balances + (if |tokens| > 0 then [TokenPricesRequest(addresses)] else []) + [EthPriceRequest]
  }

  /** A failed ETH price lookup leaves the native balance unpriced: the
      fallback's zero price is falsy. */
  lemma FailedEthPriceLeavesNativeUnpriced(n: NativeBalance, message: string)
    ensures PriceNative(n, EthPrice(Failed(message))) == n
  {
  }

  /** A failed token-price lookup prices no token: every token keeps its
      USD fields. */
  lemma FailedTokenPricesPriceNothing(tokens: seq<TokenBalance>, message: string)
    ensures forall i :: 0 <= i < |tokens| ==>
              EnrichTokens(tokens, TokenPrices(tokens, Failed(message)))[i].usdValue == tokens[i].usdValue
  {
  }

  /** Without tokens, the token-price response plays no part. */
  lemma NoTokensIgnoresTokenPrices(
    apiKey: string, address: string, network: string, nativeResponse: Fetched<real>,
    p1: Fetched<map<string, PriceQuote>>, p2: Fetched<map<string, PriceQuote>>,
    ethPriceResponse: Fetched<Option<PriceQuote>>, now: int)
    ensures GetWalletPortfolio(apiKey, address, network, nativeResponse, Got(Some([])), p1, ethPriceResponse, now)
         == GetWalletPortfolio(apiKey, address, network, nativeResponse, Got(Some([])), p2, ethPriceResponse, now)
  {
  }

  /** The worked example: 10^18 wei at 3000 USD is one ether worth 3000
      USD, and 500000 units of a six-decimal token at 1 USD are worth 0.5. */
  lemma PricingExamples()
    ensures NativeFromResponse(1000000000000000000.0).balanceFormatted == 1.0
    ensures PriceNative(NativeFromResponse(1000000000000000000.0), Some(PriceQuote(3000.0, 0.0))).usdValue == 3000.0
    ensures EnrichToken(TokenBalance("0xabc", "USDC", "USD Coin", None, 6, 500000.0, None, None, None, None),
                        map["0xabc" := PriceQuote(1.0, 0.0)]).usdValue == Some(0.5)
  {
    assert Pow10(18) == 1000000000000000000.0 by {
      assert Pow10(6) == 1000000.0;
      assert Pow10(12) == 1000000.0 * Pow10(6) by { PowAdd(6, 6); }
      PowAdd(12, 6);
    }
    assert Text.AsciiLower("0xabc") == "0xabc";
  }

  lemma {:induction false} PowAdd(a: nat, b: nat)
    ensures Pow10(a + b) == Pow10(a) * Pow10(b)
  {
    if a > 0 {
      PowAdd(a - 1, b);
    }
  }
}
