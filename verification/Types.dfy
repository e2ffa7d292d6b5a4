/** Integers, constants, records, storage keys, errors and events of the contract. */
module Types {

  const U32_MAX := 0xFFFF_FFFF
  const U64_MAX := 0xFFFF_FFFF_FFFF_FFFF

  type U32 = n: int | 0 <= n <= U32_MAX
  type U64 = n: int | 0 <= n <= U64_MAX
  type Byte = n: int | 0 <= n < 256

  /** A hash of 32 bytes. */
  type Hash = bytes: seq<Byte> | |bytes| == 32 witness seq(32, i => 0)

  /** A Soroban string: a byte string whose length counts bytes. */
  type Text = seq<Byte>

  const MAX_PROJECTS := 10
  const MAX_PROJECT_LEN := 128
  const MAX_BIO_LEN := 128
  const MAX_ACCOUNT_LEN := 64

  /** Seconds from a proposal to the opening of its window, and from there to its end. */
  const RECOVERY_DELAY: U64 := 7 * 24 * 3600

  const DAY_IN_LEDGERS := 17_280
  const PERSISTENT_TTL_THRESHOLD := 30 * DAY_IN_LEDGERS
  const PERSISTENT_TTL_EXTEND_TO := 120 * DAY_IN_LEDGERS

  /** A classic account (G...) or a contract (C...). */
  datatype Address = Account(key: nat) | Contract(id: nat)

  type TokenId = U32

  datatype Option<+T> = None | Some(value: T)

  /** Outcome of a call: a value, or the error the call panics with. */
  datatype Result<+T> = Ok(value: T) | Err(error: Error) {

    predicate IsFailure() {
      Err?
    }

    function PropagateFailure<U>(): Result<U>
      requires Err?
    {
      Err(error)
    }

    function Extract(): T
      requires Ok?
    {
      value
    }
  }

  /** Outcome of a check, which yields no value. */
  datatype Check = Pass | Fail(error: Error) {

    predicate IsFailure() {
      Fail?
    }

    function PropagateFailure<U>(): Result<U>
      requires Fail?
    {
      Err(error)
    }
  }

  function Need(condition: bool, error: Error): Check {
    if condition then Pass else Fail(error)
  }

  /**
   * The typed errors of the contract, then the two ways a call can stop
   * without one: a missing authorization and an arithmetic overflow.
   */
  datatype Error =
    | UnauthorizedSigner
    | NonExistentToken
    | MemberAlreadyExist
    | AccountAlreadyBound
    | TooManyProjects
    | InvalidLength
    | TokenRevoked
    | DuplicateProvider
    | RecoveryPending
    | NoRecovery
    | AttesterChanged
    | RecoveryExpired
    | MissingAuth
    | Overflow

  datatype Role = Verified | Pathfinder | Navigator | Pilot

  datatype Status = Active | Revoked

  datatype Provider = Discord | Github | X

  datatype SocialAccount = SocialAccount(provider: Provider, id: Text, handle: Text)

  datatype ExternalAccounts = ExternalAccounts(accounts: seq<SocialAccount>, emailHash: Option<Hash>)

  datatype Member = Member(
    status: Status,
    role: Role,
    externalAccounts: ExternalAccounts,
    bio: Text,
    projects: seq<Text>)

  datatype RecoveryRequest = RecoveryRequest(attester: Address, newAddress: Address, executableAt: U64)

  /** The part of an external account that is reserved: its provider and id. */
  datatype AccountKey = AccountKey(provider: Provider, id: Text)

  /** Keys of the persistent storage. */
  datatype MemberKey =
    | OwnerKey(token: TokenId)
    | TokenOfKey(address: Address)
    | MemberRecordKey(token: TokenId)
    | ReservedKey(account: AccountKey)
    | RecoveryKey(token: TokenId)

  function KeyOf(a: SocialAccount): AccountKey {
    AccountKey(a.provider, a.id)
  }

  /** The accounts a set of external accounts reserves. */
  function KeysOf(e: ExternalAccounts): set<AccountKey> {
    set a | a in e.accounts :: KeyOf(a)
  }

  datatype Event =
    | Minted(token: TokenId, to: Address, role: Role, accounts: ExternalAccounts, bio: Text, projects: seq<Text>)
    | RevokedEvent(token: TokenId, revokedFrom: Address)
    | KeyRotated(token: TokenId, from: Address, to: Address)
    | RecoveryProposed(token: TokenId, newAddress: Address, executableAt: U64)
    | RecoveryCancelled(token: TokenId)
    | Recovered(token: TokenId, from: Address, to: Address)
    | AdminRecovered(token: TokenId, fromOwner: Option<Address>, to: Address)
    | RoleSet(token: TokenId, role: Role)
    | ExternalAccountsSet(token: TokenId, accounts: ExternalAccounts)
    | BioSet(token: TokenId, bio: Text)
    | ProjectsSet(token: TokenId, projects: seq<Text>)
    | AdminSet(previous: Address, admin: Address)
    | AttesterSet(previous: Address, attester: Address)
    | NqgContractSet(previous: Address, nqgContract: Address)

  /** The entry points that can write, with their arguments. */
  datatype Call =
    | Mint(to: Address, role: Role, accounts: ExternalAccounts, bio: Text, projects: seq<Text>)
    | Revoke(token: TokenId)
    | SetRole(token: TokenId, role: Role)
    | SetExternalAccounts(token: TokenId, accounts: ExternalAccounts)
    | SetBio(caller: Address, token: TokenId, bio: Text)
    | SetProjects(caller: Address, token: TokenId, projects: seq<Text>)
    | ExtendMember(token: TokenId)
    | RotateKey(token: TokenId, newAddress: Address)
    | ProposeRecovery(token: TokenId, newAddress: Address)
    | CancelRecovery(caller: Address, token: TokenId)
    | FinalizeRecovery(token: TokenId)
    | Recover(token: TokenId, newAddress: Address)
    | SetAdmin(admin: Address)
    | SetAttester(attester: Address)
    | SetNqgContract(nqgContract: Address)

  /**
   * What a signature covers: a call with all of its arguments, or, for the
   * attester of a mint, the first three arguments only.
   */
  datatype Invocation =
    | Whole(call: Call)
    | MintAttestation(to: Address, role: Role, accounts: ExternalAccounts)

  datatype Auth = Auth(signer: Address, invocation: Invocation)

  /** A call, the ledger it runs in and the authorizations supplied with it. */
  datatype Tx = Tx(call: Call, timestamp: U64, auths: set<Auth>) {

    /** `signer.require_auth()` in the entry point called. */
    predicate Signed(signer: Address) {
      Auth(signer, Whole(call)) in auths
    }

    /** `signer.require_auth_for_args((to, role, accounts))` in `mint`. */
    predicate Attested(signer: Address)
      requires call.Mint?
    {
      Auth(signer, MintAttestation(call.to, call.role, call.accounts)) in auths
    }
  }
}
