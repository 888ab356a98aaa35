/** src/utils/cookieManager.ts: classification of wallet addresses by
    network, and the wallet registry, user id and preferences kept in
    browser cookies. The cookie store is an object whose fields hold the
    decoded cookie values; JSON encoding, expiry and `js-cookie` itself are
    not modelled. */
module CookieManager {
  import opened Wrappers
  import opened Types

  // ---------------------------------------------------------------------
  // Address classification
  // ---------------------------------------------------------------------

  /** The class `[a-fA-F0-9]`. */
  predicate IsHexDigit(c: char) {
    ('0' <= c <= '9') || ('a' <= c <= 'f') || ('A' <= c <= 'F')
  }

  /** The class `[1-9A-HJ-NP-Za-km-z]`: the base58 alphabet, which leaves
      out `0`, `O`, `I` and `l`. */
  predicate IsBase58Char(c: char) {
    ('1' <= c <= '9') || ('A' <= c <= 'H') || ('J' <= c <= 'N')
    || ('P' <= c <= 'Z') || ('a' <= c <= 'k') || ('m' <= c <= 'z')
  }

  /** `/^0x[a-fA-F0-9]{40}$/`. */
  predicate IsEvmAddress(s: string) {
    |s| == 42 && s[0] == '0' && s[1] == 'x'
    && forall i :: 2 <= i < |s| ==> IsHexDigit(s[i])
  }

  /** `/^[1-9A-HJ-NP-Za-km-z]{32,44}$/`. */
  predicate IsSolanaAddress(s: string) {
    32 <= |s| <= 44 && forall i :: 0 <= i < |s| ==> IsBase58Char(s[i])
  }

  /** No string has both formats: an EVM address starts with `0`, which is
      not a base58 character. */
  lemma EvmAndSolanaDisjoint(s: string)
    ensures !(IsEvmAddress(s) && IsSolanaAddress(s))
  {
    if IsEvmAddress(s) {
      assert !IsBase58Char(s[0]);
    }
  }

  /** `detectNetwork`: the network whose address format `address` has,
      tried in the order Ethereum, Solana. */
  function DetectNetwork(address: string): (r: Option<string>)
    ensures r == Some("Ethereum") <==> IsEvmAddress(address)
    ensures r == Some("Solana") <==> IsSolanaAddress(address)
    ensures r == None <==> !IsEvmAddress(address) && !IsSolanaAddress(address)
  {
    EvmAndSolanaDisjoint(address);
    if IsEvmAddress(address) then Some("Ethereum")
    else if IsSolanaAddress(address) then Some("Solana")
    else None
  }

  /** `validateWalletAddress`: only the exact names `Ethereum` and `Solana`
      are known, and the address must have that network's format; so it
      holds exactly when `detectNetwork` names `network`. */
  function ValidateWalletAddress(address: string, network: string): (ok: bool)
    ensures ok <==> DetectNetwork(address) == Some(network)
    ensures network != "Ethereum" && network != "Solana" ==> !ok
  {
    if network == "Ethereum" then IsEvmAddress(address)
    else if network == "Solana" then IsSolanaAddress(address)
    else false
  }

  /** The names are compared case-sensitively: the lower-case network names
      used elsewhere in the application never validate. */
  lemma LowerCaseNamesNeverValidate(address: string)
    ensures !ValidateWalletAddress(address, "ethereum")
    ensures !ValidateWalletAddress(address, "solana")
  {
  }

  /** `"0x"` followed by forty hex digits is an Ethereum address, valid for
      Ethereum and not for Solana. */
  lemma EvmExample()
    ensures DetectNetwork("0xaaaaaaaaaaaaaaaaaaaaaaaaaaaaaaaaaaaaaaaa") == Some("Ethereum")
    ensures ValidateWalletAddress("0xaaaaaaaaaaaaaaaaaaaaaaaaaaaaaaaaaaaaaaaa", "Ethereum")
    ensures !ValidateWalletAddress("0xaaaaaaaaaaaaaaaaaaaaaaaaaaaaaaaaaaaaaaaa", "Solana")
  {
    var s := "0xaaaaaaaaaaaaaaaaaaaaaaaaaaaaaaaaaaaaaaaa";
    assert |s| == 42;
    assert forall i :: 2 <= i < |s| ==> s[i] == 'a';
  }

  /** A short string matches neither pattern and validates for no network. */
  lemma ShortStringsAreRejected(network: string)
    ensures DetectNetwork("abc") == None
    ensures DetectNetwork("") == None
    ensures !ValidateWalletAddress("abc", network)
  {
  }

  // ---------------------------------------------------------------------
  // The wallet registry
  // ---------------------------------------------------------------------

  const DuplicateAddressMessage := "This wallet address is already registered."

  /** `wallets.some(w => w.address === address)`. */
  predicate HasAddress(ws: seq<Wallet>, address: string) {
    exists i :: 0 <= i < |ws| && ws[i].address == address
  }

  /** No two stored wallets share an address (compared exactly, with case). */
  predicate DistinctAddresses(ws: seq<Wallet>) {
    forall i, j :: 0 <= i < j < |ws| ==> ws[i].address != ws[j].address
  }

  /** `wallets.map(w => w.address === u.address ? u : w)`. */
  function ReplaceByAddress(ws: seq<Wallet>, u: Wallet): seq<Wallet> {
    seq(|ws|, i requires 0 <= i < |ws| => if ws[i].address == u.address then u else ws[i])
  }

  /** Updating keeps the length, the order and the address at every
      position, and leaves every wallet with another address alone. */
  lemma ReplaceKeepsShape(ws: seq<Wallet>, u: Wallet)
    ensures |ReplaceByAddress(ws, u)| == |ws|
    ensures forall i :: 0 <= i < |ws| ==> ReplaceByAddress(ws, u)[i].address == ws[i].address
    ensures forall i :: 0 <= i < |ws| && ws[i].address != u.address ==> ReplaceByAddress(ws, u)[i] == ws[i]
    ensures DistinctAddresses(ws) ==> DistinctAddresses(ReplaceByAddress(ws, u))
  {
  }

  /** An update whose address is not stored changes nothing; one whose
      address is stored leaves `u` in the list. */
  lemma ReplaceAbsentOrPresent(ws: seq<Wallet>, u: Wallet)
    ensures !HasAddress(ws, u.address) ==> ReplaceByAddress(ws, u) == ws
    ensures HasAddress(ws, u.address) ==> u in ReplaceByAddress(ws, u)
  {
    if HasAddress(ws, u.address) {
      var i :| 0 <= i < |ws| && ws[i].address == u.address;
      assert ReplaceByAddress(ws, u)[i] == u;
    }
  }

  /** `wallets.filter(w => w.address !== address)`: exactly the wallets
      with another address remain. */
  function WithoutAddress(ws: seq<Wallet>, address: string): (r: seq<Wallet>)
    ensures |r| <= |ws|
    ensures forall w :: w in r <==> w in ws && w.address != address
  {
    if ws == [] then []
    else (if ws[0].address != address then [ws[0]] else []) + WithoutAddress(ws[1..], address)
  }

  /** Filtering distributes over concatenation, so the wallets that remain
      keep their relative order. */
  lemma {:induction false} WithoutAddressAppend(a: seq<Wallet>, b: seq<Wallet>, address: string)
    ensures WithoutAddress(a + b, address) == WithoutAddress(a, address) + WithoutAddress(b, address)
  {
    if a == [] {
      assert a + b == b;
    } else {
      assert (a + b)[1..] == a[1..] + b;
      WithoutAddressAppend(a[1..], b, address);
    }
  }

  /** Deleting an address that is not stored changes nothing. */
  lemma {:induction false} WithoutAbsentAddress(ws: seq<Wallet>, address: string)
    requires !HasAddress(ws, address)
    ensures WithoutAddress(ws, address) == ws
  {
    if ws != [] {
      assert !HasAddress(ws[1..], address) by {
        forall i | 0 <= i < |ws[1..]| ensures ws[1..][i].address != address {
          assert ws[1..][i] == ws[i + 1];
        }
      }
      WithoutAbsentAddress(ws[1..], address);
    }
  }

  /** Deleting keeps the stored addresses distinct. */
  lemma {:induction false} WithoutAddressKeepsDistinct(ws: seq<Wallet>, address: string)
    requires DistinctAddresses(ws)
    ensures DistinctAddresses(WithoutAddress(ws, address))
  {
    if ws != [] {
      WithoutAddressKeepsDistinct(ws[1..], address);
      var rest := WithoutAddress(ws[1..], address);
      forall j | 0 <= j < |rest| ensures rest[j].address != ws[0].address {
        assert rest[j] in ws[1..];
      }
    }
  }

  /** `getPreferences` without a stored value. */
  function DefaultPreferences(): Preferences {
    Preferences("light", "USD", [])
  }

  /** `if (!userId)`: a missing cookie and an empty one both count as absent. */
  predicate IsStoredId(userId: Option<string>) {
    userId.Some? && userId.value != ""
  }

  /** The cookies the application keeps for one browser. */
  class CookieStore {
    /** The user-id cookie. */
    var userId: Option<string>
    /** The decoded wallets cookie (`getWallets`/`saveWallets`). */
    var wallets: seq<Wallet>
    /** The decoded settings cookie. */
    var preferences: Option<Preferences>

    constructor ()
      ensures userId == None && wallets == [] && preferences == None
    {
      userId := None;
      wallets := [];
      preferences := None;
    }

    /** `getUserId`: the stored id, or else `generated` (a fresh `uuidv4`),
        which is stored. Either way a non-empty id is stored afterwards and
        returned. */
    method GetUserId(generated: string) returns (id: string)
      requires generated != ""
      modifies this`userId
      ensures IsStoredId(old(userId)) ==> id == old(userId).value && userId == old(userId)
      ensures !IsStoredId(old(userId)) ==> id == generated
      ensures userId == Some(id) && id != ""
    {
      var stored := userId;
      if !IsStoredId(stored) {
        id := generated;
        userId := Some(id);
      } else {
        id := stored.value;
      }
    }

    /** `addWallet`: refuses an address that is already stored (the list is
        then unchanged), and otherwise appends `w` at the end. The stored
        addresses stay pairwise distinct. */
    method AddWallet(w: Wallet) returns (r: Outcome)
      modifies this`wallets
      ensures HasAddress(old(wallets), w.address) ==> r == Fail(DuplicateAddressMessage) && wallets == old(wallets)
      ensures !HasAddress(old(wallets), w.address) ==> r == Pass && wallets == old(wallets) + [w]
      ensures DistinctAddresses(old(wallets)) ==> DistinctAddresses(wallets)
    {
      var current := wallets;
      if HasAddress(current, w.address) {
        return Fail(DuplicateAddressMessage);
      }
      wallets := current + [w];
      r := Pass;
    }

    /** `updateWallet`: every stored wallet with `u`'s address is replaced
        by `u`; see `ReplaceKeepsShape` and `ReplaceAbsentOrPresent`. */
    method UpdateWallet(u: Wallet)
      modifies this`wallets
      ensures wallets == ReplaceByAddress(old(wallets), u)
      ensures |wallets| == |old(wallets)|
      ensures DistinctAddresses(old(wallets)) ==> DistinctAddresses(wallets)
    {
      ReplaceKeepsShape(wallets, u);
      wallets := ReplaceByAddress(wallets, u);
    }

    /** `deleteWallet`: removes exactly the wallets with `address`, keeping
        the order of the others; nothing changes when it is not stored. */
    method DeleteWallet(address: string)
      modifies this`wallets
      ensures wallets == WithoutAddress(old(wallets), address)
      ensures !HasAddress(wallets, address)
      ensures !HasAddress(old(wallets), address) ==> wallets == old(wallets)
    {
      var current := wallets;
      if !HasAddress(current, address) {
        WithoutAbsentAddress(current, address);
      }
      wallets := WithoutAddress(current, address);
      assert forall i :: 0 <= i < |wallets| ==> wallets[i] in wallets;
    }

    /** `getPreferences`: the stored preferences, or light theme, USD and
        an empty layout. Reads only. */
    method GetPreferences() returns (p: Preferences)
      ensures preferences.Some? ==> p == preferences.value
      ensures preferences.None? ==> p == Preferences("light", "USD", [])
    {
      p := if preferences.Some? then preferences.value else DefaultPreferences();
    }

    /** `savePreferences`. */
    method SavePreferences(p: Preferences)
      modifies this`preferences
      ensures preferences == Some(p)
    {
      preferences := Some(p);
    }

    /** `clearAllData`: removes the three cookies. */
    method ClearAllData()
      modifies this
      ensures userId == None && wallets == [] && preferences == None
    {
      userId := None;
      wallets := [];
      preferences := None;
    }
  }

  /** Calling `getUserId` twice yields the same id, whatever the second
      call would have generated. */
  method GetUserIdIsStable(store: CookieStore, first: string, second: string)
    returns (id1: string, id2: string)
    requires first != "" && second != ""
    modifies store
    ensures id1 == id2 && store.userId == Some(id1)
  {
    id1 := store.GetUserId(first);
    id2 := store.GetUserId(second);
  }

  /** Registering the same address twice fails the second time and keeps
      one copy; the same address in upper case counts as another address. */
  method DuplicateRegistration(store: CookieStore, w: Wallet)
    returns (second: Outcome, upper: Outcome)
    requires store.wallets == []
    requires w.address == "0xaaaaaaaaaaaaaaaaaaaaaaaaaaaaaaaaaaaaaaaa"
    modifies store
    ensures second == Fail(DuplicateAddressMessage)
    ensures upper == Pass && |store.wallets| == 2
  {
    var first := store.AddWallet(w);
    second := store.AddWallet(w);
    upper := store.AddWallet(w.(address := "0xAAAAAAAAAAAAAAAAAAAAAAAAAAAAAAAAAAAAAAAA"));
    assert store.wallets[0].address == w.address;
  }
}
