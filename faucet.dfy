/** The faucet panel: the checks made before a token request (address,
    cooldown, injected wallet, connected account) and the cooldown
    arithmetic behind its messages. Times are integer milliseconds. */
module Faucet {
  import opened Common
  import opened Ethers

  /** `checkCooldown`: the `nextAccessTime` the faucet reports, in seconds,
      turned into milliseconds; 0 when the query threw. */
  function CooldownMillis(nextAccessSeconds: Option<nat>): (r: nat)
    ensures r % 1000 == 0
    ensures nextAccessSeconds.Some? ==> r / 1000 == nextAccessSeconds.value
    ensures nextAccessSeconds.None? ==> r == 0
  {
    if nextAccessSeconds.Some? then nextAccessSeconds.value * 1000 else 0
  }

  /** `Math.ceil((nextAccess - now) / 1000 / 60)`: whole minutes, rounded
      up, still to wait. */
  function MinutesLeft(nextAccess: int, now: int): (m: int)
    requires nextAccess > now
    ensures m >= 1
    ensures 60000 * (m - 1) < nextAccess - now <= 60000 * m
  {
    CeilDivPositive(nextAccess - now, 60000);
    CeilDiv(nextAccess - now, 60000)
  }

  /** The `s` of "minute(s)" in the wait message. */
  function PluralSuffix(n: int): (r: string)
    ensures r == "s" <==> n != 1
    ensures r == "" <==> n == 1
  {
    if n != 1 then "s" else ""
  }

  /** The wait message is singular exactly when at most one minute, and
      more than nothing, is left, and says "minutes" otherwise. */
  lemma SingularWaitMessage(nextAccess: int, now: int)
    requires nextAccess > now
    ensures PluralSuffix(MinutesLeft(nextAccess, now)) == "" <==> nextAccess - now <= 60000
    ensures PluralSuffix(MinutesLeft(nextAccess, now)) == "s" <==> nextAccess - now > 60000
  {
  }

  /** The "Cooldown Period" shown: the lock time in seconds as minutes,
      rounded up, or 1 when the lock time is 0 (or was never loaded). */
  function DisplayedCooldownMinutes(cooldownSeconds: nat): (m: int)
    ensures cooldownSeconds == 0 ==> m == 1
    ensures cooldownSeconds > 0 ==> m >= 1 && 60 * (m - 1) < cooldownSeconds <= 60 * m
  {
    if cooldownSeconds != 0 then
      CeilDivPositive(cooldownSeconds, 60);
      CeilDiv(cooldownSeconds, 60)
    else 1
  }

  /** Where the checks of `handleGetTokens` stop, in order. */
  datatype Gate =
    | InvalidAddress
    | CoolingDown(minutes: int)
    | NoInjectedWallet
    | SignerFailed
    | AddressMismatch
    | Proceed

  /** The checks of `handleGetTokens` before the request: `isAddress` on
      the recipient; the cooldown, which blocks only while `nextAccess` is
      strictly later than `now`; an injected wallet (`window.ethereum`);
      the connected signer's address (`None` when `getSigner` or
      `getAddress` threw), which must equal the recipient ignoring case. */
  function FaucetGate(lib: Library, recipient: string, nextAccessSeconds: Option<nat>, now: int,
                      hasInjectedWallet: bool, connected: Option<string>): (r: Gate)
    ensures r == InvalidAddress <==> !lib.isAddress(recipient)
    ensures r.CoolingDown? <==> lib.isAddress(recipient) && CooldownMillis(nextAccessSeconds) > now
    ensures r.CoolingDown? ==> r.minutes == MinutesLeft(CooldownMillis(nextAccessSeconds), now)
    ensures r == NoInjectedWallet <==>
      lib.isAddress(recipient) && CooldownMillis(nextAccessSeconds) <= now && !hasInjectedWallet
    ensures r == SignerFailed <==>
      && lib.isAddress(recipient) && CooldownMillis(nextAccessSeconds) <= now && hasInjectedWallet
      && connected.None?
    ensures r == AddressMismatch <==>
      && lib.isAddress(recipient) && CooldownMillis(nextAccessSeconds) <= now && hasInjectedWallet
      && connected.Some? && !SameIgnoringCase(connected.value, recipient)
    ensures r == Proceed <==>
      && lib.isAddress(recipient) && CooldownMillis(nextAccessSeconds) <= now && hasInjectedWallet
      && connected.Some? && SameIgnoringCase(connected.value, recipient)
  {
    if !lib.isAddress(recipient) then InvalidAddress
    else
      var nextAccess := CooldownMillis(nextAccessSeconds);
      if nextAccess > now then CoolingDown(MinutesLeft(nextAccess, now))
      else if !hasInjectedWallet then NoInjectedWallet
      else if connected.None? then SignerFailed
      else if ToLower(connected.value) != ToLower(recipient) then AddressMismatch
      else Proceed
  }

  /** A cooldown query that throws never blocks a request made at a
      non-negative time; otherwise the request is blocked exactly while the
      clock, in milliseconds, is before the reported time in seconds, so a
      request made exactly at that time is allowed. */
  lemma CooldownBoundary(lib: Library, recipient: string, nextAccessSeconds: Option<nat>, now: int,
                         hasInjectedWallet: bool, connected: Option<string>)
    ensures var gate := FaucetGate(lib, recipient, nextAccessSeconds, now, hasInjectedWallet, connected);
      && (nextAccessSeconds.None? && now >= 0 ==> !gate.CoolingDown?)
      && (nextAccessSeconds.Some? ==>
            (gate.CoolingDown? <==> lib.isAddress(recipient) && now < nextAccessSeconds.value * 1000))
  {
  }

  /** The connected account may differ in letter case only: a signer whose
      address is the recipient in lower case passes the match check. */
  lemma LowerCaseSignerMatches(lib: Library, recipient: string, nextAccessSeconds: Option<nat>, now: int)
    requires lib.isAddress(recipient) && CooldownMillis(nextAccessSeconds) <= now
    ensures FaucetGate(lib, recipient, nextAccessSeconds, now, true, Some(ToLower(recipient))) == Proceed
  {
    ToLowerIdempotent(recipient);
  }

  /** How a request that passed the checks ended. */
  datatype Outcome = Blocked(gate: Gate) | RequestFailed | Received(balanceRefreshed: bool)

  class FaucetPanel {
    var recipientAddress: string
    var isLoading: bool
    /** The faucet balance shown, as formatted text. */
    var faucetBalance: string

    constructor ()
      ensures recipientAddress == "" && !isLoading && faucetBalance == "0"
    {
      recipientAddress := "";
      isLoading := false;
      faucetBalance := "0";
    }

    /** The address input field. */
    method SetRecipientAddress(text: string)
      modifies this`recipientAddress
      ensures recipientAddress == text
    {
      recipientAddress := text;
    }

    /** `handleGetTokens`, offered only while no request is running. The
        network answers are parameters: `nextAccessSeconds` the cooldown
        query, `now` the clock, `hasInjectedWallet` whether
        `window.ethereum` exists, `connected` the signer's address,
        `requestMined` whether `requestTokens` was sent and mined, and
        `refreshedBalance` the formatted faucet balance read afterwards
        (`None` when a call threw). The balance shown changes only after a
        mined request whose refresh succeeded; the flag is down on every
        exit. */
    method HandleGetTokens(lib: Library, nextAccessSeconds: Option<nat>, now: int,
                           hasInjectedWallet: bool, connected: Option<string>,
                           requestMined: bool, refreshedBalance: Option<string>)
      returns (outcome: Outcome)
      requires !isLoading
      modifies this`isLoading, this`faucetBalance
      ensures !isLoading
      ensures var gate := FaucetGate(lib, recipientAddress, nextAccessSeconds, now, hasInjectedWallet, connected);
        && (gate != Proceed ==> outcome == Blocked(gate) && faucetBalance == old(faucetBalance))
        && (gate == Proceed && !requestMined ==> outcome == RequestFailed && faucetBalance == old(faucetBalance))
        && (gate == Proceed && requestMined ==> outcome == Received(refreshedBalance.Some?))
        && (gate == Proceed && requestMined && refreshedBalance.Some? ==> faucetBalance == refreshedBalance.value)
        && (gate == Proceed && requestMined && refreshedBalance.None? ==> faucetBalance == old(faucetBalance))
    {
      var gate := FaucetGate(lib, recipientAddress, nextAccessSeconds, now, hasInjectedWallet, connected);
      if gate == InvalidAddress {
        // rejected before the flag is raised
        return Blocked(gate);
      }
      isLoading := true;
      if gate != Proceed {
        isLoading := false;
        return Blocked(gate);
      }
      if !requestMined {
        isLoading := false;
        return RequestFailed;
      }
      if refreshedBalance.Some? {
        faucetBalance := refreshedBalance.value;
      }
      outcome := Received(refreshedBalance.Some?);
      isLoading := false;
    }
  }
}
