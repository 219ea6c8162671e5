/** The wallet button (src/components/Web3ConnectButton/Web3ConnectButton.jsx): which
    account becomes the active one after each wallet answer, and how it is abbreviated. */
module Web3ConnectButton {
  import opened Wrappers

  /** `addr.slice(0, 6) + "..." + addr.slice(-4)`; either slice is the whole string when
      it is shorter than the slice. */
  function FormatAddress(addr: string): (r: string)
    ensures |addr| >= 10 ==>
              |r| == 13 && r[..6] == addr[..6] && r[6..9] == "..." && r[9..] == addr[|addr| - 4..]
    ensures |addr| <= 4 ==> r == addr + "..." + addr
  {
    var head := if |addr| < 6 then addr else addr[..6];
    var tail := if |addr| < 4 then addr else addr[|addr| - 4..];
    head + "..." + tail
  }

  /** For an address of at least ten characters the abbreviation only hides the middle:
      its head, the hidden part and its tail put back together give the address. */
  lemma FormatHidesOnlyTheMiddle(addr: string)
    requires |addr| >= 10
    ensures var r := FormatAddress(addr);
            addr == r[..6] + addr[6..|addr| - 4] + r[9..]
  {
    var r := FormatAddress(addr);
    assert r[..6] == addr[..6] && r[9..] == addr[|addr| - 4..];
    assert addr == addr[..6] + addr[6..|addr| - 4] + addr[|addr| - 4..];
  }

  /** A 42-character address is shown as 13 characters. */
  lemma FormatScenario()
    ensures FormatAddress("0x1234567890abcdef1234567890abcdef12345678") == "0x1234...5678"
  {
    var head, middle, tail := "0x1234", "567890abcdef1234567890abcdef1234", "5678";
    var a := head + middle + tail;
    assert a == "0x1234567890abcdef1234567890abcdef12345678";
    assert a[..6] == head;
    assert a[|a| - 4..] == tail;
  }

  /** The account a non-empty wallet answer selects: its first entry; "" for an empty answer. */
  function FirstOrEmpty(accounts: seq<string>): (a: string)
    ensures |accounts| > 0 ==> a == accounts[0] && a in accounts
    ensures |accounts| == 0 ==> a == ""
  {
    if |accounts| > 0 then accounts[0] else ""
  }

  /** The button's state: the active account ("" when none) and whether a connection
      attempt is in progress. */
  class WalletButton {
    var account: string
    var isConnecting: bool

    constructor ()
      ensures account == "" && !isConnecting
    {
      account := "";
      isConnecting := false;
    }

    /** `connectWallet`: without a provider it stops at once; when the permission request
        or the account query throws the account stays; otherwise the first returned
        account becomes active, or "" when none is returned. The connecting flag is off
        after every attempt. */
    method ConnectWallet(hasProvider: bool, permissionGranted: bool, accounts: Option<seq<string>>)
      modifies this
      ensures !isConnecting
      ensures hasProvider && permissionGranted && accounts.Some? ==> account == FirstOrEmpty(accounts.value)
      ensures !(hasProvider && permissionGranted && accounts.Some?) ==> account == old(account)
    {
      isConnecting := true;
      if !hasProvider {
        isConnecting := false;
        return;
      }
      if permissionGranted && accounts.Some? {
        account := FirstOrEmpty(accounts.value);
      }
      isConnecting := false;
    }

    /** `checkIfWalletIsConnected`: only a non-empty answer changes the account. */
    method CheckIfWalletIsConnected(hasProvider: bool, accounts: Option<seq<string>>)
      modifies this`account
      ensures hasProvider && accounts.Some? && |accounts.value| > 0 ==> account == accounts.value[0]
      ensures !(hasProvider && accounts.Some? && |accounts.value| > 0) ==> account == old(account)
    {
      if hasProvider && accounts.Some? && |accounts.value| > 0 {
        account := accounts.value[0];
      }
    }

    /** The `accountsChanged` handler: an empty list disconnects, otherwise the first
        account becomes active. */
    method HandleAccountsChanged(accounts: seq<string>)
      modifies this`account
      ensures account == FirstOrEmpty(accounts)
    {
      account := FirstOrEmpty(accounts);
    }
  }
}
