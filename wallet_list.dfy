/** src/components/wallet/WalletList.tsx: the wallet list's display helpers
    and its editing and deleting state, as an object whose handlers update
    the cookie store and reload the wallet list. */
module WalletList {
  import opened Wrappers
  import opened Types
  import opened Text
  import opened CookieManager
  import AppContext
  import Dashboard

  /** Addresses of at most 10 characters are shown whole; longer ones keep
      their first 6 and last 4 characters around an ellipsis. */
  function FormatAddress(address: string): (r: string)
    ensures |address| <= 10 ==> r == address
    ensures |address| > 10 ==> |r| == 13 && r[..6] == address[..6] && r[6..9] == "..."
                               && r[9..] == address[|address| - 4..]
  {
    if |address| <= 10 then address
    else address[..6] + "..." + address[|address| - 4..]
  }

  /** Beyond 10 characters the list and the dashboard shorten an address
      the same way; at exactly 10 the list shows it whole while the
      dashboard still shortens it. */
  lemma FormatAddressAgreesWithDashboard(address: string)
    ensures |address| > 10 ==> FormatAddress(address) == Dashboard.FormatAddress(address)
    ensures |address| == 10 ==> FormatAddress(address) != Dashboard.FormatAddress(address)
  {
  }

  /** The display name of a wallet's network: the two stored networks are
      capitalised, anything else is shown as it is. */
  function GetNetworkDisplayName(network: string): (r: string)
    ensures network == "ethereum" ==> r == "Ethereum"
    ensures network == "solana" ==> r == "Solana"
    ensures network != "ethereum" && network != "solana" ==> r == network
  {
    match network
    case "ethereum" => "Ethereum"
    case "solana" => "Solana"
    case _ => network
  }

  /** For the networks a wallet can hold, the list and the dashboard show the
      same name. */
  lemma DisplayNameAgreesWithDashboard(network: string)
    requires network == "ethereum" || network == "solana"
    ensures GetNetworkDisplayName(network) == Dashboard.GetChainName(network)
  {
    assert AsciiLower("ethereum") == "ethereum";
    assert AsciiLower("solana") == "solana";
  }

  const EthereumBadge := "bg-blue-100 text-blue-800"
  const SolanaBadge := "bg-purple-100 text-purple-800"
  const OtherBadge := "bg-gray-100 text-gray-800"

  /** The badge classes of a network: one per stored network, and a grey
      one for anything else. */
  function GetNetworkColor(network: string): (r: string)
    ensures r == EthereumBadge <==> network == "ethereum"
    ensures r == SolanaBadge <==> network == "solana"
    ensures r == OtherBadge <==> network != "ethereum" && network != "solana"
  {
    match network
    case "ethereum" => EthereumBadge
    case "solana" => SolanaBadge
    case _ => OtherBadge
  }

  /** Saving an edit renames the wallet stored under the edited wallet's
      address and leaves every address where it was. */
  lemma SaveEditRenames(ws: seq<Wallet>, w: Wallet, alias: string)
    requires HasAddress(ws, w.address)
    ensures w.(alias := alias) in ReplaceByAddress(ws, w.(alias := alias))
    ensures |ReplaceByAddress(ws, w.(alias := alias))| == |ws|
    ensures forall i :: 0 <= i < |ws| ==> ReplaceByAddress(ws, w.(alias := alias))[i].address == ws[i].address
  {
    ReplaceAbsentOrPresent(ws, w.(alias := alias));
    ReplaceKeepsShape(ws, w.(alias := alias));
  }

  class WalletListView {
    var editingWallet: Option<Wallet>
    var deletingWallet: Option<Wallet>
    var editAlias: string

    constructor ()
      ensures editingWallet.None? && deletingWallet.None? && editAlias == ""
    {
      editingWallet := None;
      deletingWallet := None;
      editAlias := "";
    }

    /** `handleEditWallet`: starts editing with the wallet's current alias. */
    method HandleEditWallet(w: Wallet)
      modifies this`editingWallet, this`editAlias
      ensures editingWallet == Some(w) && editAlias == w.alias
    {
      editingWallet := Some(w);
      editAlias := w.alias;
    }

    /** The alias input's `onChange` while editing. */
    method SetEditAlias(text: string)
      modifies this`editAlias
      ensures editAlias == text
    {
      editAlias := text;
    }

    /** `handleSaveEdit`: without a wallet being edited, or with an alias
        that trims to nothing, nothing happens; otherwise the wallet with
        the trimmed alias replaces the stored one of the same address, the
        wallet list is reloaded (the returned action) and editing ends. */
    method HandleSaveEdit(store: CookieStore) returns (refresh: Option<AppContext.Action>)
      modifies this`editingWallet, this`editAlias, store`wallets
      ensures old(editingWallet).None? || Trim(old(editAlias)) == "" ==>
                && refresh.None? && store.wallets == old(store.wallets)
                && editingWallet == old(editingWallet) && editAlias == old(editAlias)
      ensures old(editingWallet).Some? && Trim(old(editAlias)) != "" ==>
                && store.wallets == ReplaceByAddress(old(store.wallets),
                                                     old(editingWallet).value.(alias := Trim(old(editAlias))))
                && refresh == Some(AppContext.SetWallets(store.wallets))
                && editingWallet.None? && editAlias == ""
    {
      if editingWallet.None? {
        return None;
      }
      var trimmed := Trim(editAlias);
      if trimmed == "" {
        return None;
      }
      store.UpdateWallet(editingWallet.value.(alias := trimmed));
      refresh := Some(AppContext.SetWallets(store.wallets));
      editingWallet := None;
      editAlias := "";
    }

    /** `handleCancelEdit`. */
    method HandleCancelEdit()
      modifies this`editingWallet, this`editAlias
      ensures editingWallet.None? && editAlias == ""
    {
      editingWallet := None;
      editAlias := "";
    }

    /** `handleDeleteWallet`: asks for confirmation. */
    method HandleDeleteWallet(w: Wallet)
      modifies this`deletingWallet
      ensures deletingWallet == Some(w)
    {
      deletingWallet := Some(w);
    }

    /** `confirmDelete`: without a pending wallet nothing happens; otherwise
        every stored wallet with its address is removed, the wallet list is
        reloaded (the returned action) and the confirmation closes. */
    method ConfirmDelete(store: CookieStore) returns (refresh: Option<AppContext.Action>)
      modifies this`deletingWallet, store`wallets
      ensures old(deletingWallet).None? ==>
                refresh.None? && store.wallets == old(store.wallets) && deletingWallet.None?
      ensures old(deletingWallet).Some? ==>
                && store.wallets == WithoutAddress(old(store.wallets), old(deletingWallet).value.address)
                && !HasAddress(store.wallets, old(deletingWallet).value.address)
                && refresh == Some(AppContext.SetWallets(store.wallets))
                && deletingWallet.None?
    {
      if deletingWallet.None? {
        return None;
      }
      store.DeleteWallet(deletingWallet.value.address);
      refresh := Some(AppContext.SetWallets(store.wallets));
      deletingWallet := None;
    }

    /** `cancelDelete`. */
    method CancelDelete()
      modifies this`deletingWallet
      ensures deletingWallet.None?
    {
      deletingWallet := None;
    }
  }
}
