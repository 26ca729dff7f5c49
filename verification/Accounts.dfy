/** The accounts and events of the two on-chain programs. */
module Accounts {
  import opened Borsh

  /** Program-derived addresses are an injective datatype of their seeds.
      DefaultKey is `Pubkey::default()`, the value of a freshly created index. */
  datatype Address =
    | DefaultKey
    | Wallet(key: Pubkey)
    | ParcelPda(cadastral: Bytes)
    | LienIndexPda(parcel: Address)
    | EncumbrancePda(parcel: Address, lender: Pubkey)

  datatype ParcelConfig = ParcelConfig(
    owner: Pubkey,
    mintAuthority: Pubkey,
    cadastral: Text,
    areaHa: U32,
    landClass: U8,
    kycVerified: bool,
    kycMethod: U8,
    lastCertEpoch: U64,
    certCount: U16,
    ndviSubmissions: U8,
    dormantSeasons: U8,
    egissHash: Bytes32,
    riskFlag: U8,
    registeredAt: I64,
    bump: U8,
    aiScore: U8,
    collateralGrade: U8,
    recommendedLtv: U16)

  datatype Encumbrance = Encumbrance(
    parcelPda: Address,
    lender: Pubkey,
    amount: U64,
    notarySigHash: Bytes32,
    notaryCertHash: Bytes32,
    egissHash: Bytes32,
    registeredAt: I64,
    releasedAt: I64,
    status: U8,
    bump: U8)

  const STATUS_ACTIVE: U8 := 0
  const STATUS_RELEASED: U8 := 1

  datatype LienIndex = LienIndex(
    parcelPda: Address,
    activeLienCount: U8,
    totalLienCount: U16,
    bump: U8)

  /** All zeroes: what `init_if_needed` hands to the handler the first time. */
  const FRESH_INDEX := LienIndex(DefaultKey, 0, 0, 0)

  /** The three account families, each keyed by address. Only terra_token owns
      parcels; only lien_registry owns indexes and encumbrances. */
  datatype State = State(
    parcels: map<Address, ParcelConfig>,
    indexes: map<Address, LienIndex>,
    encumbrances: map<Address, Encumbrance>)

  const GENESIS := State(map[], map[], map[])

  datatype Event =
    | ParcelRegistered(cadastral: Text, owner: Pubkey, areaHa: U32)
    | CertificateMinted(cadastral: Text, season: Text, ndviScore: U16, certAddress: Pubkey)
    | ParcelDormant(cadastral: Text, seasonsDormant: U8, hasActiveLien: bool)
    | RiskAssessmentUpdated(cadastral: Text, aiScore: U8, grade: U8, ltv: U16, riskFlag: U8)
    | EncumbranceRegistered(cadastral: Text, lender: Pubkey, amount: U64, parcelPda: Address)
    | EncumbranceReleased(cadastral: Text, lender: Pubkey, parcelPda: Address)

  datatype ChainError =
    | AccountConstraint   // an Anchor account constraint, or the verify_parcel call, refused
    | CadastralTooLong | InvalidArea | InvalidLandClass
    | ParcelNotVerified | RiskFlagSet | OwnerMismatch | ForeignCall
    | TooEarlyForSeasonalCheck
    | UnauthorizedAuthority | InvalidAIScore | InvalidCollateralGrade | InvalidLTV
    | InvalidAmount | ActiveLienExists | UnauthorizedRelease | EncumbranceNotActive
    | ArithmeticPanic

  /** An instruction either commits its whole effect or leaves the state alone. */
  datatype Outcome =
    | Committed(state: State, event: Option<Event>)
    | Aborted(error: ChainError)

  /** Instructions with the accounts their caller supplies. The bumps are the
      canonical ones the runtime derives; `tokenCallsOk` says whether the calls
      into Token-2022 and its companions succeed. */
  datatype Instruction =
    | RegisterParcel(parcel: Address, owner: Pubkey, cadastral: Text, areaHa: U32, landClass: U8,
                     egissHash: Bytes32, bump: U8)
    | MintCertificate(parcel: Address, mintAuthority: Pubkey, owner: Pubkey, cadastral: Text, season: Text,
                      ndviScore: U16, certificateMint: Pubkey, tokenCallsOk: bool)
    | SeasonalCheck(parcel: Address, cadastral: Text, lienAccount: Option<Address>)
    | UpdateRiskAssessment(parcel: Address, authority: Pubkey, cadastral: Text,
                           aiScore: U8, grade: U8, ltv: U16)
    | RegisterEncumbrance(parcel: Address, encumbrance: Address, lienIndex: Address, lender: Pubkey,
                          cadastral: Text, amount: U64, notarySigHash: Bytes32, notaryCertHash: Bytes32,
                          encumbranceBump: U8, lienIndexBump: U8)
    | ReleaseEncumbrance(parcel: Address, encumbrance: Address, lienIndex: Address, lender: Pubkey)

  datatype Tx = Tx(ix: Instruction, slot: U64, unixTime: I64)
}
