/** The parts of the ethers library the wallet calls, as values. Their
    bodies (BIP-39 word lists, BIP-44 derivation, secp256k1, EIP-55
    checksums) are not modelled: each call is a field of `Library`, an
    arbitrary total function, and a call that throws returns `None`. */
module Ethers {
  import opened Common

  /** `HDNodeWallet`: the first account (m/44'/60'/0'/0/0) of a phrase. */
  datatype HdWallet = HdWallet(address: string, privateKey: string, phrase: string)

  /** `new Wallet(privateKey)`: the account of a raw key. */
  datatype KeyWallet = KeyWallet(address: string, privateKey: string)

  datatype Library = Library(
    /** `HDNodeWallet.fromPhrase(phrase)`; `None` when the phrase is rejected. */
    fromPhrase: string -> Option<HdWallet>,
    /** `new ethers.Wallet(key)`; `None` when the key is rejected. */
    fromPrivateKey: string -> Option<KeyWallet>,
    /** `ethers.isAddress(text)`. */
    isAddress: string -> bool,
    /** `ethers.getAddress(text)`: the checksummed address; `None` when it throws. */
    getAddress: string -> Option<string>
  )

  /** What the library promises of derivation and that the model needs as a
      hypothesis: rebuilding from the phrase of a derived wallet gives the
      same wallet, and the key of a derived wallet is accepted by `Wallet`
      and yields the same address. */
  ghost predicate Coherent(lib: Library)
  {
    && (forall p {:trigger lib.fromPhrase(p)} :: lib.fromPhrase(p).Some? ==>
          var w := lib.fromPhrase(p).value;
          && lib.fromPhrase(w.phrase) == Some(w)
          && lib.fromPrivateKey(w.privateKey) == Some(KeyWallet(w.address, w.privateKey)))
    && (forall k {:trigger lib.fromPrivateKey(k)} :: lib.fromPrivateKey(k).Some? ==>
          var w := lib.fromPrivateKey(k).value;
          lib.fromPrivateKey(w.privateKey) == Some(w))
  }
}

/** The account record that the account store keeps and persists. */
module Accounts {
  import opened Common
  import opened Ethers

  /** `{name, address, privateKey, mnemonic, imported?, createdAt}`.
      `mnemonic` is `None` for `null`; `imported` is `None` when the record
      has no such field (accounts made by the create flow). */
  datatype Account = Account(
    name: string,
    address: string,
    privateKey: string,
    mnemonic: Option<string>,
    imported: Option<bool>,
    createdAt: string)

  /** The account's address is the one its private key derives. */
  predicate KeyMatchesAddress(lib: Library, a: Account)
  {
    lib.fromPrivateKey(a.privateKey) == Some(KeyWallet(a.address, a.privateKey))
  }
}
