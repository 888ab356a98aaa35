/** src/components/wallet/AddWalletForm.tsx: the add-wallet form as an
    object holding its state (address, alias, network, error messages and
    the submitting flag), with the handlers that change it. */
module AddWalletForm {
  import opened Wrappers
  import opened Types
  import opened Text
  import opened CookieManager
  import AppContext

  const EnterAddressMessage := "ウォレットアドレスを入力してください"
  const ValidAddressMessage := "有効なウォレットアドレスを入力してください"
  const EnterAliasMessage := "ウォレット名を入力してください"
  const AliasTooLongMessage := "ウォレット名は50文字以内で入力してください"
  const SubmitFailedMessage := "ウォレットの追加に失敗しました。もう一度お試しください。"
  const MaxAliasLength := 50

  /** The format error names the network the form holds. */
  function FormatErrorMessage(network: string): string {
    network + "ネットワークに対して無効なアドレス形式です"
  }

  /** The address checks of `validateForm`, in order: an empty address, no
      network, an address the validator rejects for that network. */
  function AddressError(address: string, network: string): (e: Option<string>)
    ensures address == "" ==> e == Some(EnterAddressMessage)
    ensures address != "" && network == "" ==> e == Some(ValidAddressMessage)
    ensures e.None? <==> address != "" && network != "" && ValidateWalletAddress(address, network)
  {
    if address == "" then Some(EnterAddressMessage)
    else if network == "" then Some(ValidAddressMessage)
    else if !ValidateWalletAddress(address, network) then Some(FormatErrorMessage(network))
    else None
  }

  /** The alias checks: empty once trimmed, or longer than 50 UTF-16 code
      units once trimmed. */
  function AliasError(alias: string): (e: Option<string>)
    ensures e.None? <==> 1 <= Utf16Length(Trim(alias)) <= MaxAliasLength
    ensures e == Some(EnterAliasMessage) <==> AllWhitespace(alias)
  {
    TrimEmptyIff(alias);
    var trimmed := Trim(alias);
    if trimmed == "" then Some(EnterAliasMessage)
    else if Utf16Length(trimmed) > MaxAliasLength then Some(AliasTooLongMessage)
    else None
  }

  /** The address part of the error dictionary. */
  function AddressErrors(address: string, network: string): map<string, string> {
    var e := AddressError(address, network);
    if e.Some? then map["address" := e.value] else map[]
  }

  /** The errors `validateForm` records, keyed `address` and `alias`. */
  function FormErrors(address: string, alias: string, network: string): map<string, string> {
    var e := AliasError(alias);
    if e.Some? then AddressErrors(address, network)["alias" := e.value] else AddressErrors(address, network)
  }

  /** The form is accepted exactly when the address is non-empty, a network
      is set, the validator accepts the address for it, and the trimmed
      alias has 1 to 50 code units. */
  lemma FormAcceptedIff(address: string, alias: string, network: string)
    ensures FormErrors(address, alias, network) == map[]
            <==> && address != "" && network != ""
                 && ValidateWalletAddress(address, network)
                 && 1 <= Utf16Length(Trim(alias)) <= MaxAliasLength
  {
    if AliasError(alias).Some? {
      assert "alias" in FormErrors(address, alias, network);
    } else if AddressError(address, network).Some? {
      assert "address" in FormErrors(address, alias, network);
    }
  }

  /** The form only ever holds `''`, `'ethereum'` or `'solana'` as its
      network, and the validator knows only `'Ethereum'` and `'Solana'`:
      an address error is always recorded, so the form is never accepted. */
  lemma FormNeverAccepted(address: string, alias: string, network: string)
    requires network == "" || network == "ethereum" || network == "solana"
    ensures "address" in FormErrors(address, alias, network)
    ensures FormErrors(address, alias, network) != map[]
  {
    LowerCaseNamesNeverValidate(address);
  }

  /** `detectedNetwork.toLowerCase()` for the two names `detectNetwork`
      returns. */
  lemma LowerCaseNetworkNames()
    ensures AsciiLower("Ethereum") == "ethereum"
    ensures AsciiLower("Solana") == "solana"
  {
  }

  /** The address checks of `validateForm`, recorded under `address`. */
  method CheckAddress(address: string, network: string) returns (newErrors: map<string, string>)
    ensures newErrors == AddressErrors(address, network)
  {
    newErrors := map[];
    if address == "" {
      newErrors := newErrors["address" := EnterAddressMessage];
    } else if network == "" {
      newErrors := newErrors["address" := ValidAddressMessage];
    } else if !ValidateWalletAddress(address, network) {
      newErrors := newErrors["address" := FormatErrorMessage(network)];
    }
  }

  /** The alias checks of `validateForm`, recorded under `alias`. */
  method CheckAlias(errors: map<string, string>, alias: string) returns (newErrors: map<string, string>)
    ensures AliasError(alias).Some? ==> newErrors == errors["alias" := AliasError(alias).value]
    ensures AliasError(alias).None? ==> newErrors == errors
  {
    newErrors := errors;
    var trimmed := Trim(alias);
    if trimmed == "" {
      newErrors := newErrors["alias" := EnterAliasMessage];
    } else if Utf16Length(trimmed) > MaxAliasLength {
      newErrors := newErrors["alias" := AliasTooLongMessage];
    }
  }

  /** The two network buttons. */
  datatype NetworkButton = EthereumButton | SolanaButton

  class WalletForm {
    var address: string
    var alias: string
    var network: string
    var errors: map<string, string>
    var isSubmitting: bool

    /** The network is one of the three values its type allows. */
    ghost predicate Valid()
      reads this
    {
      network == "" || network == "ethereum" || network == "solana"
    }

    constructor ()
      ensures Valid()
      ensures address == "" && alias == "" && network == "" && errors == map[] && !isSubmitting
    {
      address := "";
      alias := "";
      network := "";
      errors := map[];
      isSubmitting := false;
    }

    /** `handleAddressChange`: the trimmed input becomes the address; a
        recognised address sets the network to the lower-cased name and
        clears the address error, anything else clears the network. */
    method HandleAddressChange(input: string)
      modifies this`address, this`network, this`errors
      ensures address == Trim(input)
      ensures DetectNetwork(address) == Some("Ethereum") ==> network == "ethereum"
      ensures DetectNetwork(address) == Some("Solana") ==> network == "solana"
      ensures DetectNetwork(address).None? ==> network == ""
      ensures DetectNetwork(address).Some? ==> errors == old(errors)["address" := ""]
      ensures DetectNetwork(address).None? ==> errors == old(errors)
      ensures Valid()
    {
      LowerCaseNetworkNames();
      var newAddress := Trim(input);
      address := newAddress;
      if newAddress != "" {
        var detected := DetectNetwork(newAddress);
        if detected.Some? {
          network := AsciiLower(detected.value);
          errors := errors["address" := ""];
        }
      } else {
        network := "";
      }
      if DetectNetwork(newAddress).None? {
        network := "";
      }
    }

    /** The network buttons set the network directly. */
    method PressNetworkButton(b: NetworkButton)
      modifies this`network
      ensures network == (if b == EthereumButton then "ethereum" else "solana")
      ensures Valid()
    {
      network := if b == EthereumButton then "ethereum" else "solana";
    }

    /** The alias input's `onChange`. */
    method SetAlias(text: string)
      modifies this`alias
      ensures alias == text
    {
      alias := text;
    }

    /** `validateForm`: fills a fresh error dictionary and stores it; the
        form passes when the dictionary is empty. */
    method ValidateForm() returns (ok: bool)
      modifies this`errors
      ensures errors == FormErrors(address, alias, network)
      ensures ok <==> errors == map[]
      ensures Valid() ==> !ok
    {
      var newErrors := CheckAddress(address, network);
      newErrors := CheckAlias(newErrors, alias);
      errors := newErrors;
      ok := |newErrors.Keys| == 0;
      if Valid() {
        FormNeverAccepted(address, alias, network);
      }
    }

    /** `handleSubmit`. A rejected form stops after recording its errors,
        leaving the submitting flag alone; an accepted one goes on to
        `SubmitWallet`. */
    method HandleSubmit(store: CookieStore) returns (refresh: Option<AppContext.Action>)
      modifies this, store`wallets
      ensures FormErrors(old(address), old(alias), old(network)) != map[] ==>
                && errors == FormErrors(old(address), old(alias), old(network))
                && isSubmitting == old(isSubmitting)
                && refresh.None? && store.wallets == old(store.wallets)
                && address == old(address) && alias == old(alias) && network == old(network)
      ensures FormErrors(old(address), old(alias), old(network)) == map[] ==>
                && !isSubmitting
                && (HasAddress(old(store.wallets), old(address)) ==>
                      && errors == map["submit" := SubmitFailedMessage]
                      && refresh.None? && store.wallets == old(store.wallets)
                      && address == old(address) && alias == old(alias) && network == old(network))
                && (!HasAddress(old(store.wallets), old(address)) ==>
                      && store.wallets == old(store.wallets) + [Wallet(None, old(address), Trim(old(alias)), old(network), None)]
                      && refresh == Some(AppContext.SetWallets(store.wallets))
                      && address == "" && alias == "" && network == "" && errors == map[])
      ensures old(Valid()) ==> refresh.None? && store.wallets == old(store.wallets)
      ensures old(Valid()) ==> Valid()
    {
      var ok := ValidateForm();
      if !ok {
        return None;
      }
      refresh := SubmitWallet(store);
    }

    /** The `try` block of `handleSubmit`: the wallet `{address, trimmed
        alias, network}` goes to the store; on success the fields and errors
        are reset and the wallet list is reloaded (`refreshWallets`, the
        returned action); when the store refuses a duplicate address only
        the submit error is set. The submitting flag ends false. */
    method SubmitWallet(store: CookieStore) returns (refresh: Option<AppContext.Action>)
      modifies this`address, this`alias, this`network, this`errors, this`isSubmitting, store`wallets
      ensures !isSubmitting
      ensures HasAddress(old(store.wallets), old(address)) ==>
                && errors == map["submit" := SubmitFailedMessage]
                && refresh.None? && store.wallets == old(store.wallets)
                && address == old(address) && alias == old(alias) && network == old(network)
      ensures !HasAddress(old(store.wallets), old(address)) ==>
                && store.wallets == old(store.wallets) + [Wallet(None, old(address), Trim(old(alias)), old(network), None)]
                && refresh == Some(AppContext.SetWallets(store.wallets))
                && address == "" && alias == "" && network == "" && errors == map[]
    {
      isSubmitting := true;
      var outcome := store.AddWallet(Wallet(None, address, Trim(alias), network, None));
      if outcome.Pass? {
        refresh := Some(AppContext.SetWallets(store.wallets));
        address := "";
        alias := "";
        network := "";
        errors := map[];
      } else {
        refresh := None;
        errors := map["submit" := SubmitFailedMessage];
      }
      isSubmitting := false;
    }
  }
}
