/**
 * The shapes and constant tables of the calculator: output languages,
 * primitive field types with their byte widths, account types with their
 * base data sizes, Token-2022 extensions, and the fixed field tables of the
 * well-known account layouts.
 */
module Types {
  import opened Wrappers
  import Text

  // ---------------------------------------------------------------- languages

  datatype Language = ASM | Rust | C

  function LanguageName(l: Language): string {
    match l
    case ASM => "ASM"
    case Rust => "Rust"
    case C => "C"
  }

  /** Recognises exactly the three language names, case-sensitively. */
  function ParseLanguage(s: string): (r: Option<Language>)
    ensures r.Some? <==> s in {"ASM", "Rust", "C"}
    ensures r.Some? ==> LanguageName(r.value) == s
  {
    if s == "ASM" then Some(ASM)
    else if s == "Rust" then Some(Rust)
    else if s == "C" then Some(C)
    else None
  }

  lemma LanguageRoundTrip(l: Language)
    ensures ParseLanguage(LanguageName(l)) == Some(l)
  {
  }

  // ------------------------------------------------------- primitive types

  /** The keys of the instruction-data type table. */
  datatype Primitive =
    | U8 | U16 | U32 | U64 | I8 | I16 | I32 | I64 | F32 | F64 | Pubkey
    | ByteArray   // `[u8;N]`, whose length is given per use

  function PrimitiveName(p: Primitive): string {
    match p
    case U8 => "u8"
    case U16 => "u16"
    case U32 => "u32"
    case U64 => "u64"
    case I8 => "i8"
    case I16 => "i16"
    case I32 => "i32"
    case I64 => "i64"
    case F32 => "f32"
    case F64 => "f64"
    case Pubkey => "Pubkey"
    case ByteArray => "[u8;N]"
  }

  /** Table width in bytes; the array entry is a placeholder 0. */
  function Width(p: Primitive): (w: nat)
    ensures w == 0 <==> p == ByteArray
    ensures p != ByteArray ==> w in {1, 2, 4, 8, 32}
    ensures p in {U8, I8} <==> w == 1
    ensures p in {U16, I16} <==> w == 2
    ensures p in {U32, I32, F32} <==> w == 4
    ensures p in {U64, I64, F64} <==> w == 8
    ensures p == Pubkey <==> w == 32
  {
    match p
    case U8 => 1
    case I8 => 1
    case U16 => 2
    case I16 => 2
    case U32 => 4
    case I32 => 4
    case F32 => 4
    case U64 => 8
    case I64 => 8
    case F64 => 8
    case Pubkey => 32
    case ByteArray => 0
  }

  /**
   * Bytes a field actually occupies: the table width, except that an array
   * field takes its explicit size, and a missing or zero size counts as 1.
   */
  function EffectiveWidth(p: Primitive, size: Option<nat>): (w: nat)
    ensures w >= 1
    ensures p != ByteArray ==> w == Width(p)
    ensures p == ByteArray && size.Some? && size.value > 0 ==> w == size.value
    ensures p == ByteArray && (size.None? || size.value == 0) ==> w == 1
  {
    if p == ByteArray then
      if size.Some? && size.value != 0 then size.value else 1
    else Width(p)
  }

  // ---------------------------------------------------------- account types

  datatype AccountKind =
    | System | SplToken | SplMint | Token2022Account | Token2022Mint
    | SysvarClock | SysvarRent | TypedAccount

  function KindName(k: AccountKind): string {
    match k
    case System => "System"
    case SplToken => "SPL Token"
    case SplMint => "SPL Mint"
    case Token2022Account => "Token2022 Account"
    case Token2022Mint => "Token2022 Mint"
    case SysvarClock => "Sysvar Clock"
    case SysvarRent => "Sysvar Rent"
    case TypedAccount => "TypedAccount"
  }

  /** The keys of the account-type table. */
  const AccountTypeNames: set<string> := {
    "System", "SPL Token", "SPL Mint", "Token2022 Account", "Token2022 Mint",
    "Sysvar Clock", "Sysvar Rent", "TypedAccount"
  }

  /** Looks a type name up among the keys of the account-type table. */
  function ParseAccountKind(s: string): (r: Option<AccountKind>)
    ensures r.Some? <==> s in AccountTypeNames
    ensures r.Some? ==> KindName(r.value) == s
  {
    if s == "System" then Some(System)
    else if s == "SPL Token" then Some(SplToken)
    else if s == "SPL Mint" then Some(SplMint)
    else if s == "Token2022 Account" then Some(Token2022Account)
    else if s == "Token2022 Mint" then Some(Token2022Mint)
    else if s == "Sysvar Clock" then Some(SysvarClock)
    else if s == "Sysvar Rent" then Some(SysvarRent)
    else if s == "TypedAccount" then Some(TypedAccount)
    else None
  }

  lemma KindRoundTrip(k: AccountKind)
    ensures KindName(k) in AccountTypeNames
    ensures ParseAccountKind(KindName(k)) == Some(k)
  {
  }

  /** Base data size of each account type (0 for user-sized types). */
  function BaseSize(k: AccountKind): nat {
    match k
    case System => 0
    case SplToken => 165
    case SplMint => 82
    case Token2022Account => 165
    case Token2022Mint => 82
    case SysvarClock => 40
    case SysvarRent => 17
    case TypedAccount => 0
  }

  /** The account-type table: each key with the base data size it lists. */
  lemma BaseSizes()
    ensures BaseSize(ParseAccountKind("System").value) == 0
    ensures BaseSize(ParseAccountKind("SPL Token").value) == 165
    ensures BaseSize(ParseAccountKind("SPL Mint").value) == 82
    ensures BaseSize(ParseAccountKind("Token2022 Account").value) == 165
    ensures BaseSize(ParseAccountKind("Token2022 Mint").value) == 82
    ensures BaseSize(ParseAccountKind("Sysvar Clock").value) == 40
    ensures BaseSize(ParseAccountKind("Sysvar Rent").value) == 17
    ensures BaseSize(ParseAccountKind("TypedAccount").value) == 0
  {
  }

  /** `type.startsWith("Token2022")`. */
  predicate IsToken2022(k: AccountKind) {
    |KindName(k)| >= 9 && KindName(k)[..9] == "Token2022"
  }

  lemma Token2022Kinds(k: AccountKind)
    ensures IsToken2022(k) <==> k == Token2022Account || k == Token2022Mint
  {
    var n := KindName(k);
    match k
    case Token2022Account => assert n[..9] == "Token2022";
    case Token2022Mint => assert n[..9] == "Token2022";
    case System => assert |n| < 9;
    case SysvarClock => assert n[..9][1] != 'o';
    case SysvarRent => assert n[..9][1] != 'o';
    case TypedAccount => assert n[..9][1] != 'o';
    case SplToken => assert n[..9][1] != 'o';
    case SplMint => assert |n| < 9;
  }

  // ------------------------------------------------------------- extensions

  datatype Extension =
    | TransferFeeConfig | InterestBearingConfig | ConfidentialTransfer
    | DefaultAccountState | PermanentDelegate

  /** Additional bytes each extension adds to a Token-2022 account. */
  function ExtensionSize(e: Extension): (n: nat)
    ensures n > 0
  {
    match e
    case TransferFeeConfig => 72
    case InterestBearingConfig => 32
    case ConfidentialTransfer => 97
    case DefaultAccountState => 1
    case PermanentDelegate => 32
  }

  // ---------------------------------------------------------------- records

  /**
   * A named, typed field with an optional explicit size. A `TypedAccount`'s
   * custom fields (the UI's row id is omitted) and the instruction data
   * fields share this shape.
   */
  datatype Field = Field(name: string, ty: Primitive, size: Option<nat>)

  type CustomField = Field

  /**
   * An account descriptor. Absent `extensions` / `customFields` are the empty
   * sequence: every reader in the source treats a missing list like an empty one.
   */
  datatype Account = Account(
    name: string,
    kind: AccountKind,
    dataLength: nat,
    extensions: seq<Extension>,
    customFields: seq<CustomField>)

  type InstructionDataField = Field

  /** One output entry: a constant name, its address literal and an optional note. */
  datatype Offset = Offset(name: string, offset: string, comment: Option<string>)

  // ------------------------------------------------------------ field tables

  /** An entry of a fixed field table: name, type, and byte offset in the data. */
  datatype FieldSpec = FieldSpec(name: string, ty: Primitive, offset: nat)

  function SplMintFields(): seq<FieldSpec> {
    [ FieldSpec("mint_authority", Pubkey, 0),
      FieldSpec("supply", U64, 32),
      FieldSpec("decimals", U8, 40),
      FieldSpec("is_initialized", U8, 41),
      FieldSpec("freeze_authority", Pubkey, 42) ]
  }

  function SplTokenFields(): seq<FieldSpec> {
    [ FieldSpec("mint", Pubkey, 0),
      FieldSpec("owner", Pubkey, 32),
      FieldSpec("amount", U64, 64),
      FieldSpec("delegate", Pubkey, 72),
      FieldSpec("state", U8, 104),
      FieldSpec("is_native", U64, 105),
      FieldSpec("delegated_amount", U64, 113),
      FieldSpec("close_authority", Pubkey, 121) ]
  }

  function Token2022MintFields(): seq<FieldSpec> {
    [ FieldSpec("mint_authority", Pubkey, 0),
      FieldSpec("supply", U64, 32),
      FieldSpec("decimals", U8, 40),
      FieldSpec("is_initialized", U8, 41),
      FieldSpec("freeze_authority", Pubkey, 42) ]
  }

  function SysvarClockFields(): seq<FieldSpec> {
    [ FieldSpec("slot", U64, 0),
      FieldSpec("epoch_start_timestamp", I64, 8),
      FieldSpec("epoch", U64, 16),
      FieldSpec("leader_schedule_epoch", U64, 24),
      FieldSpec("unix_timestamp", I64, 32) ]
  }

  function SysvarRentFields(): seq<FieldSpec> {
    [ FieldSpec("lamports_per_byte_year", U64, 0),
      FieldSpec("exemption_threshold", F64, 8),
      FieldSpec("burn_percent", U8, 16) ]
  }

  // ------------------------------------------------------------ prefix sums

  /** Sum of the first `i` widths: the offset of field `i` in a packed layout. */
  function PrefixSum(ws: seq<nat>, i: nat): nat
    requires i <= |ws|
  {
    if i == 0 then 0 else PrefixSum(ws, i - 1) + ws[i - 1]
  }

  function Total(ws: seq<nat>): nat {
    PrefixSum(ws, |ws|)
  }

  lemma {:induction false} PrefixSumCons(ws: seq<nat>, i: nat)
    requires 0 < |ws| && i < |ws|
    ensures PrefixSum(ws, i + 1) == ws[0] + PrefixSum(ws[1..], i)
  {
    if i > 0 {
      PrefixSumCons(ws, i - 1);
    }
  }

  function TableWidths(fields: seq<FieldSpec>): (ws: seq<nat>)
    ensures |ws| == |fields|
    ensures forall i :: 0 <= i < |fields| ==> ws[i] == Width(fields[i].ty)
  {
    seq(|fields|, i requires 0 <= i < |fields| => Width(fields[i].ty))
  }

  /** Where the last field of a table ends. */
  function TableEnd(fields: seq<FieldSpec>): nat {
    if fields == [] then 0 else fields[|fields| - 1].offset + Width(fields[|fields| - 1].ty)
  }

  /** Each field starts where its predecessor ends, and the first at 0. */
  predicate Contiguous(fields: seq<FieldSpec>) {
    && (|fields| > 0 ==> fields[0].offset == 0)
    && forall i :: 0 < i < |fields| ==> fields[i].offset == fields[i - 1].offset + Width(fields[i - 1].ty)
  }

  /** A contiguous table places every field at the prefix sum of the widths before it. */
  lemma {:induction false} ContiguousIsPrefixSum(fields: seq<FieldSpec>)
    requires Contiguous(fields)
    ensures forall i :: 0 <= i < |fields| ==> fields[i].offset == PrefixSum(TableWidths(fields), i)
    ensures TableEnd(fields) == Total(TableWidths(fields))
  {
    var ws := TableWidths(fields);
    forall i | 0 <= i < |fields|
      ensures fields[i].offset == PrefixSum(ws, i)
    {
      PrefixAt(fields, i);
    }
    if |fields| > 0 {
      PrefixAt(fields, |fields| - 1);
    }
  }

  lemma {:induction false} PrefixAt(fields: seq<FieldSpec>, i: nat)
    requires Contiguous(fields) && i < |fields|
    ensures fields[i].offset == PrefixSum(TableWidths(fields), i)
  {
    if i > 0 {
      PrefixAt(fields, i - 1);
    }
  }

  lemma SplMintTable()
    ensures Contiguous(SplMintFields())
    ensures TableEnd(SplMintFields()) == 74 <= BaseSize(SplMint)
  {
  }

  lemma SplTokenTable()
    ensures Contiguous(SplTokenFields())
    ensures TableEnd(SplTokenFields()) == 153 <= BaseSize(SplToken)
  {
  }

  lemma SysvarTables()
    ensures Contiguous(SysvarClockFields()) && TableEnd(SysvarClockFields()) == BaseSize(SysvarClock) == 40
    ensures Contiguous(SysvarRentFields()) && TableEnd(SysvarRentFields()) == BaseSize(SysvarRent) == 17
  {
  }

  lemma Token2022MintTable()
    ensures Token2022MintFields() == SplMintFields()
    ensures BaseSize(Token2022Mint) == BaseSize(SplMint)
  {
  }
}
