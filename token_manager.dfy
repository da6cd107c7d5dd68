/** The per-account token watch-list: adding a token (checksummed address,
    case-insensitive duplicate check, best-effort metadata), removing one,
    and refreshing the cached balances with per-token failure isolation. */
module TokenManager {
  import opened Common
  import opened Ethers

  datatype Token = Token(address: string, name: string, symbol: string, decimals: int, addedAt: string)

  /** The metadata `addToken` starts from when a contract read fails. */
  datatype TokenData = TokenData(name: string, symbol: string, decimals: int)
  const DefaultTokenData := TokenData("Unknown Token", "UNK", 18)

  /** No two tokens have addresses that are equal ignoring case. */
  predicate UniqueAddresses(tokens: seq<Token>)
  {
    forall i, j :: 0 <= i < j < |tokens| ==> !SameIgnoringCase(tokens[i].address, tokens[j].address)
  }

  /** `tokens.some(t => t.address.toLowerCase() === addr.toLowerCase())`. */
  predicate HasAddressIgnoringCase(tokens: seq<Token>, addr: string)
  {
    exists i :: 0 <= i < |tokens| && SameIgnoringCase(tokens[i].address, addr)
  }

  function Addresses(tokens: seq<Token>): set<string>
  {
    set t | t in tokens :: t.address
  }

  /** Appending a token whose address matches none of the list, ignoring
      case, keeps the addresses unique. */
  lemma AppendKeepsUnique(tokens: seq<Token>, t: Token)
    requires UniqueAddresses(tokens) && !HasAddressIgnoringCase(tokens, t.address)
    ensures UniqueAddresses(tokens + [t])
  {
    var s := tokens + [t];
    forall i, j | 0 <= i < j < |s| ensures !SameIgnoringCase(s[i].address, s[j].address) {
      if j == |tokens| {
        assert !SameIgnoringCase(tokens[i].address, t.address);
      }
    }
  }

  lemma AddressesAppend(tokens: seq<Token>, t: Token)
    ensures Addresses(tokens + [t]) == Addresses(tokens) + {t.address}
  {
    assert forall u :: u in tokens + [t] ==> u in tokens || u == t;
  }

  /** `tokens.filter(t => t.address !== addr)`. */
  function WithoutAddress(tokens: seq<Token>, addr: string): (r: seq<Token>)
    ensures |r| <= |tokens|
    ensures forall t :: t in r <==> t in tokens && t.address != addr
  {
    if tokens == [] then []
    else (if tokens[0].address != addr then [tokens[0]] else []) + WithoutAddress(tokens[1..], addr)
  }

  /** The filter works element by element, so it keeps the order of the
      tokens it keeps: filtering a concatenation concatenates the filtered
      parts. */
  lemma {:induction false} WithoutAddressAppend(a: seq<Token>, b: seq<Token>, addr: string)
    ensures WithoutAddress(a + b, addr) == WithoutAddress(a, addr) + WithoutAddress(b, addr)
  {
    if a != [] {
      assert (a + b)[1..] == a[1..] + b;
      WithoutAddressAppend(a[1..], b, addr);
    } else {
      assert a + b == b;
    }
  }

  /** Removing an address no token has changes nothing. */
  lemma {:induction false} WithoutAbsentAddress(tokens: seq<Token>, addr: string)
    requires addr !in Addresses(tokens)
    ensures WithoutAddress(tokens, addr) == tokens
  {
    if tokens != [] {
      assert tokens[0] in tokens;
      assert Addresses(tokens[1..]) <= Addresses(tokens) by {
        forall t | t in tokens[1..] ensures t in tokens {
        }
      }
      WithoutAbsentAddress(tokens[1..], addr);
    }
  }

  /** Filtering keeps the addresses unique. */
  lemma {:induction false} WithoutAddressKeepsUnique(tokens: seq<Token>, addr: string)
    requires UniqueAddresses(tokens)
    ensures UniqueAddresses(WithoutAddress(tokens, addr))
  {
    if tokens != [] {
      var rest := WithoutAddress(tokens[1..], addr);
      assert UniqueAddresses(tokens[1..]) by {
        forall i, j | 0 <= i < j < |tokens[1..]|
          ensures !SameIgnoringCase(tokens[1..][i].address, tokens[1..][j].address)
        {
          assert tokens[1..][i] == tokens[i + 1] && tokens[1..][j] == tokens[j + 1];
        }
      }
      WithoutAddressKeepsUnique(tokens[1..], addr);
      if tokens[0].address != addr {
        assert !HasAddressIgnoringCase(rest, tokens[0].address) by {
          forall k | 0 <= k < |rest| ensures !SameIgnoringCase(rest[k].address, tokens[0].address) {
            assert rest[k] in tokens[1..];
            var m :| 0 <= m < |tokens[1..]| && tokens[1..][m] == rest[k];
            assert tokens[m + 1] == rest[k];
          }
        }
        PrependKeepsUnique(tokens[0], rest);
      }
    }
  }

  lemma PrependKeepsUnique(t: Token, tokens: seq<Token>)
    requires UniqueAddresses(tokens) && !HasAddressIgnoringCase(tokens, t.address)
    ensures UniqueAddresses([t] + tokens)
  {
    var s := [t] + tokens;
    forall i, j | 0 <= i < j < |s| ensures !SameIgnoringCase(s[i].address, s[j].address) {
      if i == 0 {
        assert s[j] == tokens[j - 1];
        assert !SameIgnoringCase(tokens[j - 1].address, t.address);
      } else {
        assert s[i] == tokens[i - 1] && s[j] == tokens[j - 1];
      }
    }
  }

  /** Without a token, its address leaves the address set, and no other. */
  lemma WithoutAddressAddresses(tokens: seq<Token>, addr: string)
    ensures Addresses(WithoutAddress(tokens, addr)) == Addresses(tokens) - {addr}
  {
    var r := WithoutAddress(tokens, addr);
    forall a | a in Addresses(tokens) - {addr} ensures a in Addresses(r) {
      var t :| t in tokens && t.address == a;
      assert t in r;
    }
  }

  /** The balance shown for a token: the formatted reading, or "0" when
      the query threw. */
  function BalanceOrZero(reading: Option<string>): string
  {
    if reading.Some? then reading.value else "0"
  }

  /** The loop of `loadTokenBalances`: one entry per token address. A later
      token with the same address overwrites an earlier one, so each entry
      is the reading of the last token with that address, or "0" when that
      token's query failed. `balanceOf` is the per-token query
      (`balanceOf(owner)` formatted with the token's decimals). */
  method CollectBalances(tokens: seq<Token>, balanceOf: Token -> Option<string>)
    returns (balances: map<string, string>)
    ensures balances.Keys == Addresses(tokens)
    ensures forall i :: 0 <= i < |tokens| && LastWithAddress(tokens, i) ==>
      balances[tokens[i].address] == BalanceOrZero(balanceOf(tokens[i]))
  {
    balances := map[];
    for n := 0 to |tokens|
      invariant balances.Keys == Addresses(tokens[..n])
      invariant forall i :: 0 <= i < n && LastWithAddress(tokens[..n], i) ==>
        balances[tokens[i].address] == BalanceOrZero(balanceOf(tokens[i]))
    {
      var token := tokens[n];
      var reading := balanceOf(token);
      var shown := BalanceOrZero(reading);
      ghost var before := balances;
      balances := balances[token.address := shown];
      assert tokens[..n + 1] == tokens[..n] + [token];
      AddressesAppend(tokens[..n], token);
      forall i | 0 <= i < n + 1 && LastWithAddress(tokens[..n + 1], i)
        ensures balances[tokens[i].address] == BalanceOrZero(balanceOf(tokens[i]))
      {
        if i < n {
          LastWithAddressPrefix(tokens, n, i);
          assert before[tokens[i].address] == BalanceOrZero(balanceOf(tokens[i]));
        }
      }
    }
    assert tokens[..|tokens|] == tokens;
  }

  /** Dropping the last position of a prefix keeps an earlier position the
      last with its address, and that position's address differs from the
      one dropped. */
  lemma LastWithAddressPrefix(tokens: seq<Token>, n: int, i: int)
    requires 0 <= i < n < |tokens| && LastWithAddress(tokens[..n + 1], i)
    ensures LastWithAddress(tokens[..n], i)
    ensures tokens[n].address != tokens[i].address
  {
    var p := tokens[..n + 1];
    assert p[n] == tokens[n] && p[i] == tokens[i];
    forall j | i < j < n ensures tokens[..n][j].address != tokens[..n][i].address {
      assert p[j] == tokens[j];
    }
  }

  /** No later token of the list has the same address as position `i`. */
  predicate LastWithAddress(tokens: seq<Token>, i: int)
    requires 0 <= i < |tokens|
  {
    forall j :: i < j < |tokens| ==> tokens[j].address != tokens[i].address
  }

  /** With unique addresses, every token is the last with its address, so
      the refresh gives every token its own reading. */
  lemma UniqueMeansLast(tokens: seq<Token>, i: int)
    requires UniqueAddresses(tokens) && 0 <= i < |tokens|
    ensures LastWithAddress(tokens, i)
  {
    forall j | i < j < |tokens| ensures tokens[j].address != tokens[i].address {
      assert !SameIgnoringCase(tokens[i].address, tokens[j].address);
    }
  }

  /** The metadata reads of `addToken`: start from the defaults and let
      each read that succeeded overwrite its own field, so each of name,
      symbol and decimals falls back on its own. */
  method ReadMetadata(nameRead: Option<string>, symbolRead: Option<string>, decimalsRead: Option<int>)
    returns (tokenData: TokenData)
    ensures tokenData.name == if nameRead.Some? then nameRead.value else "Unknown Token"
    ensures tokenData.symbol == if symbolRead.Some? then symbolRead.value else "UNK"
    ensures tokenData.decimals == if decimalsRead.Some? then decimalsRead.value else 18
  {
    tokenData := DefaultTokenData;
    if nameRead.Some? {
      tokenData := tokenData.(name := nameRead.value);
    }
    if symbolRead.Some? {
      tokenData := tokenData.(symbol := symbolRead.value);
    }
    if decimalsRead.Some? {
      tokenData := tokenData.(decimals := decimalsRead.value);
    }
  }

  /** How `addToken` ended. */
  datatype AddOutcome = Ignored | InvalidAddress | Duplicate | Added(address: string)

  /** The decision `addToken` takes before it reads any metadata. */
  function CheckNewToken(lib: Library, input: string, hasProvider: bool, hasWallet: bool,
                         tokens: seq<Token>): (r: AddOutcome)
    ensures r.Added? ==> !HasAddressIgnoringCase(tokens, r.address)
  {
    if Trim(input) == "" || !hasProvider || !hasWallet then Ignored
    else match lib.getAddress(Trim(input))
      case None => InvalidAddress
      case Some(addr) => if HasAddressIgnoringCase(tokens, addr) then Duplicate else Added(addr)
  }

  /** The checks `addToken` makes before it reads any metadata, in order:
      blank input or no provider or wallet; an address `getAddress` rejects;
      an address already listed, ignoring case. The first that applies
      decides; an address that passes is added in checksummed form. */
  lemma CheckNewTokenCases(lib: Library, input: string, hasProvider: bool, hasWallet: bool,
                           tokens: seq<Token>)
    ensures var r := CheckNewToken(lib, input, hasProvider, hasWallet, tokens);
      && (r == Ignored <==> AllWhitespace(input) || !hasProvider || !hasWallet)
      && (r == InvalidAddress <==>
            && !(AllWhitespace(input) || !hasProvider || !hasWallet)
            && lib.getAddress(Trim(input)).None?)
      && (r == Duplicate <==>
            && !(AllWhitespace(input) || !hasProvider || !hasWallet)
            && lib.getAddress(Trim(input)).Some?
            && HasAddressIgnoringCase(tokens, lib.getAddress(Trim(input)).value))
      && (r.Added? <==>
            && !(AllWhitespace(input) || !hasProvider || !hasWallet)
            && lib.getAddress(Trim(input)).Some?
            && !HasAddressIgnoringCase(tokens, lib.getAddress(Trim(input)).value))
      && (r.Added? ==> r.address == lib.getAddress(Trim(input)).value)
  {
    TrimEmptyIffBlank(input);
  }

  /** Whatever the input, a token that passes the checks can be appended
      without breaking the uniqueness of addresses. */
  lemma AddedKeepsUnique(lib: Library, input: string, hasProvider: bool, hasWallet: bool,
                         tokens: seq<Token>, t: Token)
    requires UniqueAddresses(tokens)
    requires CheckNewToken(lib, input, hasProvider, hasWallet, tokens).Added?
    requires t.address == CheckNewToken(lib, input, hasProvider, hasWallet, tokens).address
    ensures UniqueAddresses(tokens + [t])
  {
    AppendKeepsUnique(tokens, t);
  }

  class TokenRegistry {
    var tokens: seq<Token>
    var tokenBalances: map<string, string>
    /** The text in the "token address" input. */
    var tokenAddress: string
    var showAddToken: bool
    var isLoading: bool

    /** Addresses are unique ignoring case; every cached balance belongs to
        a listed token; no add is in progress between commands. */
    ghost predicate Valid()
      reads this
    {
      && UniqueAddresses(tokens)
      && tokenBalances.Keys <= Addresses(tokens)
      && !isLoading
    }

    constructor (saved: seq<Token>)
      requires UniqueAddresses(saved)
      ensures Valid()
      ensures tokens == saved && tokenBalances == map[] && tokenAddress == ""
      ensures !showAddToken
    {
      tokens := saved;
      tokenBalances := map[];
      tokenAddress := "";
      showAddToken := false;
      isLoading := false;
    }

    /** The address input field. */
    method SetTokenAddress(text: string)
      requires Valid()
      modifies this`tokenAddress
      ensures Valid() && tokenAddress == text
    {
      tokenAddress := text;
    }

    /** `addToken`. `nameRead`, `symbolRead`, `decimalsRead` are the three
        metadata reads of the token contract and `balanceRead` its balance
        query, each `None` when it threw; `now` is the `addedAt` stamp. */
    method AddToken(lib: Library, hasProvider: bool, hasWallet: bool,
                    nameRead: Option<string>, symbolRead: Option<string>, decimalsRead: Option<int>,
                    balanceRead: Option<string>, now: string)
      returns (outcome: AddOutcome)
      requires Valid()
      modifies this
      ensures Valid()
      ensures outcome == CheckNewToken(lib, old(tokenAddress), hasProvider, hasWallet, old(tokens))
      ensures outcome.Added? ==>
        && |tokens| == |old(tokens)| + 1
        && tokens[..|old(tokens)|] == old(tokens)
        && tokens[|old(tokens)|] == Token(
             outcome.address,
             if nameRead.Some? then nameRead.value else "Unknown Token",
             if symbolRead.Some? then symbolRead.value else "UNK",
             if decimalsRead.Some? then decimalsRead.value else 18,
             now)
        && tokenBalances == old(tokenBalances)[outcome.address := BalanceOrZero(balanceRead)]
        && tokenAddress == "" && !showAddToken
      ensures !outcome.Added? ==>
        && tokens == old(tokens) && tokenBalances == old(tokenBalances)
        && tokenAddress == old(tokenAddress) && showAddToken == old(showAddToken)
    {
      outcome := CheckNewToken(lib, tokenAddress, hasProvider, hasWallet, tokens);
      if outcome == Ignored {
        return;
      }
      isLoading := true;
      if !outcome.Added? {
        // the rejected address is reported and the list is left alone
        isLoading := false;
        return;
      }
      var tokenAddr := outcome.address;
      var tokenData := ReadMetadata(nameRead, symbolRead, decimalsRead);
      var newToken := Token(tokenAddr, tokenData.name, tokenData.symbol, tokenData.decimals, now);
      var shown := BalanceOrZero(balanceRead);
      AppendToken(newToken, shown);
      isLoading := false;
    }

    /** The success path of `addToken`: append the new token, clear and
        close the input, cache its balance. */
    method AppendToken(newToken: Token, shown: string)
      requires UniqueAddresses(tokens) && tokenBalances.Keys <= Addresses(tokens)
      requires !HasAddressIgnoringCase(tokens, newToken.address)
      modifies this`tokens, this`tokenBalances, this`tokenAddress, this`showAddToken
      ensures UniqueAddresses(tokens) && tokenBalances.Keys <= Addresses(tokens)
      ensures tokens == old(tokens) + [newToken]
      ensures tokenBalances == old(tokenBalances)[newToken.address := shown]
      ensures tokenAddress == "" && !showAddToken
    {
      AppendKeepsUnique(tokens, newToken);
      AddressesAppend(tokens, newToken);
      tokens := tokens + [newToken];
      tokenAddress := "";
      showAddToken := false;
      tokenBalances := tokenBalances[newToken.address := shown];
    }

    /** `removeToken`: keep the tokens whose address is not exactly `addr`,
        and drop that address's cached balance. */
    method RemoveToken(addr: string)
      requires Valid()
      modifies this`tokens, this`tokenBalances
      ensures Valid()
      ensures tokens == WithoutAddress(old(tokens), addr)
      ensures tokenBalances == old(tokenBalances) - {addr}
      ensures addr !in Addresses(old(tokens)) ==> tokens == old(tokens)
    {
      WithoutAddressKeepsUnique(tokens, addr);
      WithoutAddressAddresses(tokens, addr);
      if addr !in Addresses(tokens) {
        WithoutAbsentAddress(tokens, addr);
      }
      tokens := WithoutAddress(tokens, addr);
      tokenBalances := tokenBalances - {addr};
    }

    /** `loadTokenBalances`: nothing without a wallet and a provider;
        otherwise every listed token gets an entry, its own reading or "0". */
    method LoadTokenBalances(hasWallet: bool, hasProvider: bool, balanceOf: Token -> Option<string>)
      requires Valid()
      modifies this`tokenBalances
      ensures Valid()
      ensures !hasWallet || !hasProvider ==> tokenBalances == old(tokenBalances)
      ensures hasWallet && hasProvider ==>
        && tokenBalances.Keys == Addresses(tokens)
        && forall i :: 0 <= i < |tokens| ==>
             tokenBalances[tokens[i].address] == BalanceOrZero(balanceOf(tokens[i]))
    {
      if !hasWallet || !hasProvider {
        return;
      }
      var balances := CollectBalances(tokens, balanceOf);
      forall i | 0 <= i < |tokens| ensures LastWithAddress(tokens, i) {
        UniqueMeansLast(tokens, i);
      }
      tokenBalances := balances;
    }
  }
}
