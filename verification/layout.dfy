/**
 * The offset-layout engine (`calculateOffsets`): a single left-to-right pass
 * that threads a byte cursor through the accounts and then the instruction
 * data, appending one named address per field.
 *
 * Account headers and instruction fields move the cursor; the per-field
 * breakdown of an account's data region is descriptive only and is anchored
 * at the data start. After its data, each account is followed by a fixed
 * padding and rent reserve, and the cursor is rounded up to a multiple of 8.
 */
module Layout {
  import opened Wrappers
  import opened Types
  import Text
  import Hex

  /** Bytes reserved after every account's data for reallocation. */
  const Padding: nat := 10240
  /** The rent-exemption reserve added after the padding. */
  const RentReserve: nat := 8
  /** HEADER (8) + KEY (32) + OWNER (32) + LAMPORTS (8) + DATA_LEN (8). */
  const HeaderSize: nat := 88
  /** The cursor starts past the 8-byte account count. */
  const FirstAccount: nat := 8

  /**
   * One recorded entry: the constant name, the cursor value it was recorded
   * at, and its comment. `CalculateOffsets` spells out every name and
   * formats every address at the end; the source does both at the moment of
   * recording, which gives the same strings because each depends on the
   * recorded values alone.
   */
  datatype Entry = Entry(name: Name, addr: nat, note: Note)

  /** A constant name: `prefix_field`, or one of the fixed names. */
  datatype Name =
    | Joined(prefix: string, field: string)
    | Fixed(text: string)

  function NameText(nm: Name): string {
    match nm
    case Joined(prefix, field) => prefix + "_" + field
    case Fixed(text) => text
  }

  /** Which comment an entry carries; `CommentText` spells it out. */
  datatype Note =
    | NoComment
    | TableNote(ty: Primitive)                        // a fixed-table field
    | FieldNote(ty: Primitive, size: Option<nat>)     // a custom or instruction field

  /** The list built so far and the running cursor. */
  datatype State = State(entries: seq<Entry>, cursor: nat)

  /** `addOffset`: record `prefix_field` at the cursor, then advance by `size`. */
  function AddOffset(st: State, prefix: string, field: string, size: nat): State {
    State(st.entries + [Entry(Joined(prefix, field), st.cursor, NoComment)], st.cursor + size)
  }

  /**
   * `addOffset` appends one entry at the current cursor, keeps every entry
   * recorded before it, and then moves the cursor on by the size.
   */
  lemma AddOffsetRecords(st: State, prefix: string, field: string, size: nat)
    ensures var r := AddOffset(st, prefix, field, size);
      && |r.entries| == |st.entries| + 1 && r.entries[..|st.entries|] == st.entries
      && r.entries[|st.entries|] == Entry(Joined(prefix, field), st.cursor, NoComment)
      && r.cursor == st.cursor + size
  {
    var r := AddOffset(st, prefix, field, size);
    assert r.entries[..|st.entries|] == st.entries;
  }

  /** `align`: the least multiple of 8 that is not below `c`. */
  function AlignUp8(c: nat): (r: nat)
    ensures r % 8 == 0
    ensures c <= r < c + 8
    ensures c % 8 == 0 ==> r == c
  {
    if c % 8 != 0 then c + (8 - c % 8) else c
  }

  // ---------------------------------------------------------------- comments

  /** `${size}` in a template literal: a missing size prints as "undefined". */
  function SizeText(size: Option<nat>): string {
    match size
    case None => "undefined"
    case Some(n) => Text.Decimal(n)
  }

  /**
   * The ` (N bytes)` ending of every comment: the digits between the
   * parentheses read back to the width.
   */
  function BytesSuffix(w: nat): (r: string)
    ensures |r| >= 10
    ensures r[..2] == " (" && r[|r| - 7..] == " bytes)"
    ensures Text.AllDigits(r[2..|r| - 7]) && Text.DecimalValue(r[2..|r| - 7]) == w
  {
    var d := Text.Decimal(w);
    var r := " (" + d + " bytes)";
    assert r[2..|r| - 7] == d;
    r
  }

  /**
   * Comment of a custom or instruction field, e.g. "[u8;N][12] (12 bytes)":
   * the type name, then the size in brackets exactly for an array (the
   * size as written, "undefined" when missing), then the effective width.
   */
  function FieldComment(p: Primitive, size: Option<nat>): (r: string)
    ensures var k := |PrimitiveName(p)|;
      var j := |r| - |BytesSuffix(EffectiveWidth(p, size))|;
      && k <= j
      && r[..k] == PrimitiveName(p)
      && (p == ByteArray ==> r[k..j] == "[" + SizeText(size) + "]")
      && (p != ByteArray ==> j == k)
      && r[j..] == BytesSuffix(EffectiveWidth(p, size))
  {
    var name := PrimitiveName(p);
    var bracket := if p == ByteArray then "[" + SizeText(size) + "]" else "";
    var tail := BytesSuffix(EffectiveWidth(p, size));
    var r := name + bracket + tail;
    assert r[..|name|] == name;
    assert r[|name|..|name| + |bracket|] == bracket;
    assert r[|name| + |bracket|..] == tail;
    r
  }

  /** Comment of a fixed-table field, e.g. "Pubkey (32 bytes)": the type name, then its width. */
  function TableComment(p: Primitive): (r: string)
    ensures |PrimitiveName(p)| <= |r|
    ensures r[..|PrimitiveName(p)|] == PrimitiveName(p)
    ensures r[|PrimitiveName(p)|..] == BytesSuffix(Width(p))
  {
    var name := PrimitiveName(p);
    var r := name + BytesSuffix(Width(p));
    assert r[..|name|] == name;
    r
  }

  /** The comment a note is rendered with: none, a table comment or a field comment. */
  function CommentText(note: Note): (r: Option<string>)
    ensures r.None? <==> note.NoComment?
    ensures note.TableNote? ==> r == Some(TableComment(note.ty))
    ensures note.FieldNote? ==> r == Some(FieldComment(note.ty, note.size))
  {
    match note
    case NoComment => None
    case TableNote(p) => Some(TableComment(p))
    case FieldNote(p, size) => Some(FieldComment(p, size))
  }

  /** An entry is rendered with a comment exactly when it has a note, and the comment is never empty. */
  lemma CommentPresent(note: Note)
    ensures CommentText(note).None? <==> note.NoComment?
    ensures CommentText(note).Some? ==> CommentText(note).value != []
  {
  }

  // --------------------------------------------------------- data breakdown

  /**
   * The generic DATA marker is left out for the types that get a per-field
   * breakdown instead, except Token2022 Mint, which gets both.
   */
  predicate ShowsDataMarker(a: Account) {
    !(|| a.kind == SplMint
      || a.kind == SplToken
      || a.kind == SysvarClock
      || a.kind == SysvarRent
      || (a.kind == TypedAccount && |a.customFields| > 0))
  }

  /**
   * Read positively, the marker is shown for System and both Token-2022
   * types, and for a TypedAccount without custom fields.
   */
  lemma MarkerShownFor(a: Account)
    ensures ShowsDataMarker(a) <==>
      || a.kind in {System, Token2022Account, Token2022Mint}
      || (a.kind == TypedAccount && a.customFields == [])
  {
  }

  function MarkerCount(a: Account): nat {
    if ShowsDataMarker(a) then 1 else 0
  }

  /** Fixed-table fields sit at the data start plus the offset the table gives. */
  function TableAnnotations(n: string, fields: seq<FieldSpec>, dataStart: nat): seq<Entry> {
    if fields == [] then []
    else
      [Entry(Joined(n, Text.ToUpper(fields[0].name)), dataStart + fields[0].offset, TableNote(fields[0].ty))]
      + TableAnnotations(n, fields[1..], dataStart)
  }

  /** Custom fields are placed by a running field offset that starts at 0. */
  function CustomAnnotations(n: string, fields: seq<CustomField>, dataStart: nat, fieldOffset: nat): seq<Entry> {
    if fields == [] then []
    else
      var f := fields[0];
      [Entry(Joined(n, Text.ToUpper(f.name)), dataStart + fieldOffset, FieldNote(f.ty, f.size))]
      + CustomAnnotations(n, fields[1..], dataStart, fieldOffset + EffectiveWidth(f.ty, f.size))
  }

  /** The breakdown entries of one account's data region, in source branch order. */
  function Annotations(n: string, a: Account, dataStart: nat): seq<Entry> {
    if a.kind == TypedAccount then CustomAnnotations(n, a.customFields, dataStart, 0)
    else TableAnnotations(n, KindTable(a.kind), dataStart)
  }

  // ------------------------------------------------------------- the pass

  /** The five header fields, recorded from the account's start `c`. */
  function HeaderState(n: string, c: nat): State {
    var s1 := AddOffset(State([], c), n, "HEADER", 8);
    var s2 := AddOffset(s1, n, "KEY", 32);
    var s3 := AddOffset(s2, n, "OWNER", 32);
    var s4 := AddOffset(s3, n, "LAMPORTS", 8);
    AddOffset(s4, n, "DATA_LEN", 8)
  }

  /** The DATA marker: `addOffset(name, "DATA", 0)` when shown, nothing otherwise. */
  function MarkerEntries(a: Account, n: string, dataStart: nat): (r: seq<Entry>)
    ensures |r| == MarkerCount(a)
  {
    if ShowsDataMarker(a) then AddOffset(State([], dataStart), n, "DATA", 0).entries else []
  }

  /**
   * The entries one iteration of the account loop records for an account
   * whose header starts at cursor `c`: the five header fields, the DATA
   * marker when shown (it does not move the cursor), and the breakdown
   * anchored at the data start.
   */
  function AccountBlock(a: Account, c: nat): seq<Entry> {
    var n := Text.ToUpper(a.name);
    var header := HeaderState(n, c);
    var dataStart := header.cursor;
    header.entries + MarkerEntries(a, n, dataStart) + Annotations(n, a, dataStart)
  }

  /**
   * One iteration of the account loop: record the account's block, move past
   * header, data, padding and rent reserve, and round up to a multiple of 8.
   */
  function AccountStep(st: State, a: Account): (r: State)
    ensures r.cursor % 8 == 0
    ensures st.cursor + HeaderSize + a.dataLength + Padding + RentReserve <= r.cursor
    ensures r.cursor < st.cursor + HeaderSize + a.dataLength + Padding + RentReserve + 8
  {
    var dataEnd := st.cursor + HeaderSize + a.dataLength;
    State(st.entries + AccountBlock(a, st.cursor), AlignUp8(dataEnd + Padding + RentReserve))
  }

  function AccountsFold(st: State, accounts: seq<Account>): State
    decreases |accounts|
  {
    if accounts == [] then st else AccountsFold(AccountStep(st, accounts[0]), accounts[1..])
  }

  function InstructionStep(st: State, f: InstructionDataField): State {
    State(
      st.entries + [Entry(Joined("INSTRUCTION", Text.ToUpper(f.name)), st.cursor, FieldNote(f.ty, f.size))],
      st.cursor + EffectiveWidth(f.ty, f.size))
  }

  function InstructionFold(st: State, fields: seq<InstructionDataField>): State
    decreases |fields|
  {
    if fields == [] then st else InstructionFold(InstructionStep(st, fields[0]), fields[1..])
  }

  function Initial(): State {
    State([Entry(Fixed("NUM_ACCOUNTS"), 0, NoComment)], FirstAccount)
  }

  /**
   * The instruction-data section as the pass produces it from the cursor `s`
   * the accounts leave: INSTRUCTION_DATA_LEN at s, then the cursor moves by
   * 8, INSTRUCTION_DATA at the new cursor, the instruction fields, and
   * PROGRAM_ID at the final cursor.
   */
  function InstructionSection(s: nat, instructionData: seq<InstructionDataField>): seq<Entry> {
    var s1 := State([Entry(Fixed("INSTRUCTION_DATA_LEN"), s, NoComment)], s + 8);
    var s2 := State(s1.entries + [Entry(Fixed("INSTRUCTION_DATA"), s1.cursor, NoComment)], s1.cursor);
    var s3 := InstructionFold(s2, instructionData);
    s3.entries + [Entry(Fixed("PROGRAM_ID"), s3.cursor, NoComment)]
  }

  /** The body of `calculateOffsets`, with addresses still numeric. */
  function LayoutEntries(accounts: seq<Account>, instructionData: seq<InstructionDataField>): seq<Entry> {
    var afterAccounts := AccountsFold(Initial(), accounts);
    afterAccounts.entries + InstructionSection(afterAccounts.cursor, instructionData)
  }

  /** Number of entries up to and including the last account's. */
  function AccountsEnd(accounts: seq<Account>): nat {
    |AccountsFold(Initial(), accounts).entries|
  }

  function ToOffset(e: Entry): Offset {
    Offset(NameText(e.name), Hex.FormatAddress(e.addr), CommentText(e.note))
  }

  function FormatEntries(es: seq<Entry>): (r: seq<Offset>)
    ensures |r| == |es|
    ensures forall i :: 0 <= i < |es| ==> r[i] == ToOffset(es[i])
  {
    seq(|es|, i requires 0 <= i < |es| => ToOffset(es[i]))
  }

  /** `calculateOffsets`: the whole address list for the given inputs. */
  function CalculateOffsets(accounts: seq<Account>, instructionData: seq<InstructionDataField>): seq<Offset> {
    FormatEntries(LayoutEntries(accounts, instructionData))
  }

  // ------------------------------------------------- reference definitions

  /** Where the account after one starting at `c` with `dataLength` bytes starts. */
  function NextStart(c: nat, dataLength: nat): nat {
    AlignUp8(c + HeaderSize + dataLength + Padding + RentReserve)
  }

  /** Start of account `k`, computed from the data lengths alone. */
  function AccountStart(accounts: seq<Account>, k: nat): nat
    requires k <= |accounts|
  {
    if k == 0 then FirstAccount else NextStart(AccountStart(accounts, k - 1), accounts[k - 1].dataLength)
  }

  /** Each field's effective width, in order: custom fields and instruction data alike. */
  function FieldWidths(fields: seq<Field>): (ws: seq<nat>)
    ensures |ws| == |fields|
  {
    if fields == [] then [] else [EffectiveWidth(fields[0].ty, fields[0].size)] + FieldWidths(fields[1..])
  }

  /** The fixed table an account type is broken down by, if any. */
  function KindTable(k: AccountKind): seq<FieldSpec> {
    match k
    case SplMint => SplMintFields()
    case SplToken => SplTokenFields()
    case SysvarClock => SysvarClockFields()
    case SysvarRent => SysvarRentFields()
    case Token2022Mint => Token2022MintFields()
    case _ => []
  }

  /** Every fixed table is packed: each field starts where the previous one ends. */
  lemma KindTableContiguous(k: AccountKind)
    ensures Contiguous(KindTable(k))
  {
    match k
    case SplMint => SplMintTable();
    case SplToken => SplTokenTable();
    case SysvarClock => SysvarTables();
    case SysvarRent => SysvarTables();
    case Token2022Mint => Token2022MintTable(); SplMintTable();
    case _ =>
  }

  /** Widths of the fields the breakdown of `a` describes, in order. */
  function AnnotatedWidths(a: Account): seq<nat> {
    if a.kind == TypedAccount then FieldWidths(a.customFields) else TableWidths(KindTable(a.kind))
  }

  /** Names of the fields the breakdown of `a` describes, in order. */
  function AnnotatedNames(a: Account): (names: seq<string>)
    ensures |names| == |AnnotatedWidths(a)|
  {
    if a.kind == TypedAccount then
      seq(|a.customFields|, i requires 0 <= i < |a.customFields| => a.customFields[i].name)
    else
      var t := KindTable(a.kind);
      seq(|t|, i requires 0 <= i < |t| => t[i].name)
  }

  // ---------------------------------------------------------------- lemmas

  lemma {:induction false} TableAnnotationsAt(n: string, fields: seq<FieldSpec>, dataStart: nat)
    ensures |TableAnnotations(n, fields, dataStart)| == |fields|
    ensures forall i :: 0 <= i < |fields| ==>
      TableAnnotations(n, fields, dataStart)[i]
        == Entry(Joined(n, Text.ToUpper(fields[i].name)), dataStart + fields[i].offset, TableNote(fields[i].ty))
    decreases |fields|
  {
    if fields != [] {
      TableAnnotationsAt(n, fields[1..], dataStart);
    }
  }

  lemma {:induction false} CustomAnnotationsAt(n: string, fields: seq<CustomField>, dataStart: nat, fieldOffset: nat)
    ensures |CustomAnnotations(n, fields, dataStart, fieldOffset)| == |fields|
    ensures forall i :: 0 <= i < |fields| ==>
      CustomAnnotations(n, fields, dataStart, fieldOffset)[i]
        == Entry(Joined(n, Text.ToUpper(fields[i].name)),
                 dataStart + fieldOffset + PrefixSum(FieldWidths(fields), i),
                 FieldNote(fields[i].ty, fields[i].size))
    decreases |fields|
  {
    if fields != [] {
      var f := fields[0];
      var w := EffectiveWidth(f.ty, f.size);
      var rest := fields[1..];
      CustomAnnotationsAt(n, rest, dataStart, fieldOffset + w);
      var r := CustomAnnotations(n, fields, dataStart, fieldOffset);
      var ws := FieldWidths(fields);
      assert FieldWidths(rest) == ws[1..];
      forall i | 0 < i < |fields|
        ensures r[i].addr == dataStart + fieldOffset + PrefixSum(ws, i)
      {
        PrefixSumCons(ws, i - 1);
        assert r[i] == CustomAnnotations(n, rest, dataStart, fieldOffset + w)[i - 1];
      }
    }
  }

  /** A packed table's breakdown places every field at the data start plus the widths before it. */
  lemma ContiguousTableAnnotations(n: string, t: seq<FieldSpec>, dataStart: nat)
    requires Contiguous(t)
    ensures |TableAnnotations(n, t, dataStart)| == |t|
    ensures forall i :: 0 <= i < |t| ==>
      TableAnnotations(n, t, dataStart)[i].addr == dataStart + PrefixSum(TableWidths(t), i)
  {
    ContiguousIsPrefixSum(t);
    TableAnnotationsAt(n, t, dataStart);
  }

  /**
   * Every breakdown entry sits at the data start plus the sum of the widths
   * of the fields before it, whether it comes from a fixed table or from a
   * TypedAccount's custom fields.
   */
  lemma AnnotationsAddrs(n: string, a: Account, dataStart: nat)
    ensures |Annotations(n, a, dataStart)| == |AnnotatedWidths(a)|
    ensures forall i :: 0 <= i < |AnnotatedWidths(a)| ==>
      Annotations(n, a, dataStart)[i].addr == dataStart + PrefixSum(AnnotatedWidths(a), i)
  {
    if a.kind == TypedAccount {
      CustomAnnotationsAt(n, a.customFields, dataStart, 0);
    } else {
      KindTableContiguous(a.kind);
      ContiguousTableAnnotations(n, KindTable(a.kind), dataStart);
    }
  }

  /** Breakdown entry i is named after the account and field i, upper-cased. */
  lemma AnnotationsNames(n: string, a: Account, dataStart: nat)
    ensures |Annotations(n, a, dataStart)| == |AnnotatedWidths(a)|
    ensures forall i :: 0 <= i < |AnnotatedWidths(a)| ==>
      Annotations(n, a, dataStart)[i].name == Joined(n, Text.ToUpper(AnnotatedNames(a)[i]))
  {
    if a.kind == TypedAccount {
      CustomAnnotationsAt(n, a.customFields, dataStart, 0);
    } else {
      TableAnnotationsAt(n, KindTable(a.kind), dataStart);
    }
  }

  /** Every breakdown entry carries a type comment. */
  lemma AnnotationsCommented(n: string, a: Account, dataStart: nat)
    ensures forall i :: 0 <= i < |Annotations(n, a, dataStart)| ==> !Annotations(n, a, dataStart)[i].note.NoComment?
  {
    if a.kind == TypedAccount {
      CustomAnnotationsAt(n, a.customFields, dataStart, 0);
    } else {
      TableAnnotationsAt(n, KindTable(a.kind), dataStart);
    }
  }

  /** The five header fields of an account starting at cursor c sit at c, c+8, c+40, c+72 and c+80. */
  lemma HeaderFields(n: string, c: nat)
    ensures HeaderState(n, c).cursor == c + HeaderSize
    ensures HeaderState(n, c).entries == [
      Entry(Joined(n, "HEADER"), c, NoComment),
      Entry(Joined(n, "KEY"), c + 8, NoComment),
      Entry(Joined(n, "OWNER"), c + 40, NoComment),
      Entry(Joined(n, "LAMPORTS"), c + 72, NoComment),
      Entry(Joined(n, "DATA_LEN"), c + 80, NoComment)]
  {
    var s1 := AddOffset(State([], c), n, "HEADER", 8);
    assert s1.entries == [Entry(Joined(n, "HEADER"), c, NoComment)];
    var s2 := AddOffset(s1, n, "KEY", 32);
    assert s2.entries == [Entry(Joined(n, "HEADER"), c, NoComment), Entry(Joined(n, "KEY"), c + 8, NoComment)];
    var s3 := AddOffset(s2, n, "OWNER", 32);
    var s4 := AddOffset(s3, n, "LAMPORTS", 8);
    assert s4.entries == [
      Entry(Joined(n, "HEADER"), c, NoComment),
      Entry(Joined(n, "KEY"), c + 8, NoComment),
      Entry(Joined(n, "OWNER"), c + 40, NoComment),
      Entry(Joined(n, "LAMPORTS"), c + 72, NoComment)];
  }

  /** The header is five entries long and ends at the data start. */
  lemma HeaderLength(n: string, c: nat)
    ensures |HeaderState(n, c).entries| == 5
    ensures HeaderState(n, c).cursor == c + HeaderSize
  {
    HeaderFields(n, c);
  }

  /** Indexing past the first operand of a concatenation. */
  lemma IndexAfter<T>(x: seq<T>, y: seq<T>, j: nat)
    requires |x| <= j < |x| + |y|
    ensures (x + y)[j] == y[j - |x|]
  {
  }

  /** The header fields lead the block. */
  lemma AccountHeaderFields(a: Account, c: nat)
    ensures var r := AccountBlock(a, c);
      var n := Text.ToUpper(a.name);
      && |r| >= 5
      && r[0] == Entry(Joined(n, "HEADER"), c, NoComment)
      && r[1] == Entry(Joined(n, "KEY"), c + 8, NoComment)
      && r[2] == Entry(Joined(n, "OWNER"), c + 40, NoComment)
      && r[3] == Entry(Joined(n, "LAMPORTS"), c + 72, NoComment)
      && r[4] == Entry(Joined(n, "DATA_LEN"), c + 80, NoComment)
  {
    HeaderFields(Text.ToUpper(a.name), c);
  }

  /** A block holds the header, the marker if shown, and one entry per described field. */
  lemma AccountBlockLength(a: Account, c: nat)
    ensures |AccountBlock(a, c)| == 5 + MarkerCount(a) + |AnnotatedWidths(a)|
  {
    var n := Text.ToUpper(a.name);
    HeaderLength(n, c);
    AnnotationsAddrs(n, a, c + HeaderSize);
  }

  /** When shown, the DATA marker follows the header at the data start c + 88. */
  lemma AccountBlockMarker(a: Account, c: nat)
    requires ShowsDataMarker(a)
    ensures |AccountBlock(a, c)| > 5
    ensures AccountBlock(a, c)[5] == Entry(Joined(Text.ToUpper(a.name), "DATA"), c + HeaderSize, NoComment)
  {
    HeaderFields(Text.ToUpper(a.name), c);
  }

  /** Entry q + i of a block, past header and marker, is breakdown entry i. */
  lemma AccountBlockBreakdown(a: Account, c: nat, i: nat)
    requires i < |Annotations(Text.ToUpper(a.name), a, c + HeaderSize)|
    ensures 5 + MarkerCount(a) + i < |AccountBlock(a, c)|
    ensures AccountBlock(a, c)[5 + MarkerCount(a) + i] == Annotations(Text.ToUpper(a.name), a, c + HeaderSize)[i]
  {
    var n := Text.ToUpper(a.name);
    HeaderLength(n, c);
    var h, m := HeaderState(n, c).entries, MarkerEntries(a, n, c + HeaderSize);
    var ann := Annotations(n, a, c + HeaderSize);
    assert AccountBlock(a, c) == h + m + ann;
    IndexAfter(h + m, ann, |h| + |m| + i);
  }

  /**
   * After the header, the DATA marker (when shown) is the only entry of the
   * block without a comment: every breakdown entry carries one.
   */
  lemma AccountBlockComments(a: Account, c: nat)
    ensures var r := AccountBlock(a, c);
      forall j :: 5 <= j < |r| ==> (r[j].note.NoComment? <==> ShowsDataMarker(a) && j == 5)
  {
    var n := Text.ToUpper(a.name);
    var ds := c + HeaderSize;
    HeaderLength(n, c);
    AnnotationsCommented(n, a, ds);
    var r := AccountBlock(a, c);
    forall j | 5 <= j < |r| ensures r[j].note.NoComment? <==> ShowsDataMarker(a) && j == 5 {
      if j < 5 + MarkerCount(a) {
        AccountBlockMarker(a, c);
      } else {
        AccountBlockBreakdown(a, c, j - 5 - MarkerCount(a));
      }
    }
  }

  /**
   * Breakdown entry i of the block sits at the data start c + 88 plus the
   * widths of the fields before it.
   */
  lemma AccountBlockAddrs(a: Account, c: nat)
    ensures var r := AccountBlock(a, c);
      var ws := AnnotatedWidths(a);
      var q := 5 + MarkerCount(a);
      && |r| == q + |ws|
      && forall i :: 0 <= i < |ws| ==> r[q + i].addr == c + HeaderSize + PrefixSum(ws, i)
  {
    AccountBlockLength(a, c);
    AnnotationsAddrs(Text.ToUpper(a.name), a, c + HeaderSize);
    forall i | 0 <= i < |AnnotatedWidths(a)|
      ensures AccountBlock(a, c)[5 + MarkerCount(a) + i].addr == c + HeaderSize + PrefixSum(AnnotatedWidths(a), i)
    {
      AccountBlockBreakdown(a, c, i);
    }
  }

  /** Breakdown entry i of the block is named ACCOUNT_FIELD after field i. */
  lemma AccountBlockNames(a: Account, c: nat)
    ensures var r := AccountBlock(a, c);
      var ws := AnnotatedWidths(a);
      var q := 5 + MarkerCount(a);
      && |r| == q + |ws|
      && forall i :: 0 <= i < |ws| ==> r[q + i].name == Joined(Text.ToUpper(a.name), Text.ToUpper(AnnotatedNames(a)[i]))
  {
    AccountBlockLength(a, c);
    AnnotationsNames(Text.ToUpper(a.name), a, c + HeaderSize);
    forall i | 0 <= i < |AnnotatedWidths(a)|
      ensures AccountBlock(a, c)[5 + MarkerCount(a) + i].name == Joined(Text.ToUpper(a.name), Text.ToUpper(AnnotatedNames(a)[i]))
    {
      AccountBlockBreakdown(a, c, i);
    }
  }

  lemma {:induction false} AccountsFoldAppend(st: State, s: seq<Account>, t: seq<Account>)
    ensures AccountsFold(st, s + t) == AccountsFold(AccountsFold(st, s), t)
    decreases |s|
  {
    if s == [] {
      assert s + t == t;
    } else {
      assert (s + t)[1..] == s[1..] + t;
      AccountsFoldAppend(AccountStep(st, s[0]), s[1..], t);
    }
  }

  lemma {:induction false} AccountsFoldKeepsPrefix(st: State, accounts: seq<Account>)
    ensures |AccountsFold(st, accounts).entries| >= |st.entries|
    ensures AccountsFold(st, accounts).entries[..|st.entries|] == st.entries
    decreases |accounts|
  {
    if accounts != [] {
      var st' := AccountStep(st, accounts[0]);
      var b := AccountBlock(accounts[0], st.cursor);
      assert st'.entries == st.entries + b;
      assert st'.entries[..|st.entries|] == st.entries;
      AccountsFoldKeepsPrefix(st', accounts[1..]);
      var r := AccountsFold(st, accounts);
      assert r == AccountsFold(st', accounts[1..]);
      assert r.entries[..|st.entries|] == r.entries[..|st'.entries|][..|st.entries|];
    }
  }

  /**
   * The cursor the pass holds before account k equals `AccountStart`, which
   * is computed from the data lengths alone.
   */
  lemma {:induction false} FoldCursorIsAccountStart(accounts: seq<Account>, k: nat)
    requires k <= |accounts|
    ensures AccountsFold(Initial(), accounts[..k]).cursor == AccountStart(accounts, k)
  {
    if k == 0 {
      assert accounts[..0] == [];
    } else {
      AccountsFoldSnocCursor(accounts, k - 1);
      FoldCursorIsAccountStart(accounts, k - 1);
    }
  }

  /**
   * Alignment: every account starts on a multiple of 8, and the rounding
   * after an account adds fewer than 8 bytes to its header, data, padding
   * and rent reserve.
   */
  lemma StartsAligned(accounts: seq<Account>, k: nat)
    requires k < |accounts|
    ensures AccountStart(accounts, k) % 8 == 0
    ensures var c := AccountStart(accounts, k);
      var end := c + HeaderSize + accounts[k].dataLength + Padding + RentReserve;
      end <= AccountStart(accounts, k + 1) < end + 8
  {
  }

  /** Two account lists with the same data lengths start every account at the same address. */
  lemma {:induction false} StartsDependOnLengthsOnly(a: seq<Account>, b: seq<Account>, k: nat)
    requires |a| == |b|
    requires forall i :: 0 <= i < |a| ==> a[i].dataLength == b[i].dataLength
    requires k <= |a|
    ensures AccountStart(a, k) == AccountStart(b, k)
  {
    if k > 0 {
      StartsDependOnLengthsOnly(a, b, k - 1);
    }
  }

  /** Widths of all fields but the first are the widths of the rest. */
  lemma FieldWidthsTail(fields: seq<Field>)
    requires fields != []
    ensures FieldWidths(fields[1..]) == FieldWidths(fields)[1..]
    ensures FieldWidths(fields)[0] == EffectiveWidth(fields[0].ty, fields[0].size)
  {
    var ws := FieldWidths(fields);
    assert ws == [EffectiveWidth(fields[0].ty, fields[0].size)] + FieldWidths(fields[1..]);
  }

  /** The instruction loop records one entry per field and advances by their total width. */
  lemma {:induction false} InstructionFoldSize(st: State, fields: seq<InstructionDataField>)
    ensures |InstructionFold(st, fields).entries| == |st.entries| + |fields|
    ensures InstructionFold(st, fields).cursor == st.cursor + Total(FieldWidths(fields))
    decreases |fields|
  {
    if fields != [] {
      var st' := InstructionStep(st, fields[0]);
      InstructionFoldSize(st', fields[1..]);
      FieldWidthsTail(fields);
      PrefixSumCons(FieldWidths(fields), |fields| - 1);
    }
  }

  /** The instruction loop leaves the entries recorded before it in place. */
  lemma {:induction false} InstructionFoldKeeps(st: State, fields: seq<InstructionDataField>, i: nat)
    requires i < |st.entries|
    ensures i < |InstructionFold(st, fields).entries|
    ensures InstructionFold(st, fields).entries[i] == st.entries[i]
    decreases |fields|
  {
    InstructionFoldSize(st, fields);
    if fields != [] {
      InstructionFoldKeeps(InstructionStep(st, fields[0]), fields[1..], i);
    }
  }

  /**
   * Instruction field i is recorded right after the entries before the loop,
   * at the starting cursor plus the widths of the fields before it.
   */
  lemma {:induction false} InstructionFoldAt(st: State, fields: seq<InstructionDataField>, i: nat)
    requires i < |fields|
    ensures |st.entries| + i < |InstructionFold(st, fields).entries|
    ensures InstructionFold(st, fields).entries[|st.entries| + i]
      == Entry(Joined("INSTRUCTION", Text.ToUpper(fields[i].name)),
               st.cursor + PrefixSum(FieldWidths(fields), i),
               FieldNote(fields[i].ty, fields[i].size))
    decreases |fields|
  {
    InstructionFoldSize(st, fields);
    var st' := InstructionStep(st, fields[0]);
    var p := |st.entries|;
    assert InstructionFold(st, fields) == InstructionFold(st', fields[1..]);
    if i == 0 {
      InstructionFoldKeeps(st', fields[1..], p);
      assert st'.entries[p] == Entry(Joined("INSTRUCTION", Text.ToUpper(fields[0].name)), st.cursor, FieldNote(fields[0].ty, fields[0].size));
    } else {
      InstructionFoldAt(st', fields[1..], i - 1);
      FieldWidthsTail(fields);
      PrefixSumCons(FieldWidths(fields), i - 1);
      assert fields[1..][i - 1] == fields[i];
    }
  }

  /**
   * The list is the account entries followed by the instruction section,
   * which starts at the cursor the last account leaves: `AccountStart` of
   * one past the last account.
   */
  lemma LayoutSplit(accounts: seq<Account>, instructionData: seq<InstructionDataField>)
    ensures LayoutEntries(accounts, instructionData)
         == AccountsFold(Initial(), accounts).entries + InstructionSection(AccountStart(accounts, |accounts|), instructionData)
  {
    assert accounts[..|accounts|] == accounts;
    FoldCursorIsAccountStart(accounts, |accounts|);
  }

  /**
   * The instruction section starting at cursor s: INSTRUCTION_DATA_LEN at s,
   * INSTRUCTION_DATA at s + 8, one entry per field in input order (no
   * reordering, no merging) at s + 8 plus the prefix sum of effective
   * widths, and PROGRAM_ID at s + 8 plus the total width.
   */
  lemma InstructionSectionShape(s: nat, instructionData: seq<InstructionDataField>)
    ensures |InstructionSection(s, instructionData)| == 3 + |instructionData|
    ensures InstructionSection(s, instructionData)[0] == Entry(Fixed("INSTRUCTION_DATA_LEN"), s, NoComment)
    ensures InstructionSection(s, instructionData)[1] == Entry(Fixed("INSTRUCTION_DATA"), s + 8, NoComment)
    ensures forall i :: 0 <= i < |instructionData| ==>
      InstructionSection(s, instructionData)[2 + i]
        == Entry(Joined("INSTRUCTION", Text.ToUpper(instructionData[i].name)),
                 s + 8 + PrefixSum(FieldWidths(instructionData), i),
                 FieldNote(instructionData[i].ty, instructionData[i].size))
    ensures InstructionSection(s, instructionData)[2 + |instructionData|]
      == Entry(Fixed("PROGRAM_ID"), s + 8 + Total(FieldWidths(instructionData)), NoComment)
  {
    var head := State([Entry(Fixed("INSTRUCTION_DATA_LEN"), s, NoComment)] + [Entry(Fixed("INSTRUCTION_DATA"), s + 8, NoComment)], s + 8);
    var f := InstructionFold(head, instructionData);
    var sec := f.entries + [Entry(Fixed("PROGRAM_ID"), f.cursor, NoComment)];
    assert InstructionSection(s, instructionData) == sec;
    InstructionFoldSize(head, instructionData);
    InstructionFoldKeeps(head, instructionData, 0);
    InstructionFoldKeeps(head, instructionData, 1);
    forall i | 0 <= i < |instructionData|
      ensures sec[2 + i]
        == Entry(Joined("INSTRUCTION", Text.ToUpper(instructionData[i].name)),
                 s + 8 + PrefixSum(FieldWidths(instructionData), i),
                 FieldNote(instructionData[i].ty, instructionData[i].size))
    {
      InstructionFoldAt(head, instructionData, i);
      assert sec[2 + i] == f.entries[2 + i];
    }
  }

  /** The first entry is always the account count at address 0. */
  lemma LayoutStartsWithCount(accounts: seq<Account>, instructionData: seq<InstructionDataField>)
    ensures |LayoutEntries(accounts, instructionData)| > AccountsEnd(accounts)
    ensures LayoutEntries(accounts, instructionData)[0] == Entry(Fixed("NUM_ACCOUNTS"), 0, NoComment)
  {
    LayoutSplit(accounts, instructionData);
    InstructionSectionShape(AccountStart(accounts, |accounts|), instructionData);
    AccountsFoldKeepsPrefix(Initial(), accounts);
    assert AccountsFold(Initial(), accounts).entries[0] == AccountsFold(Initial(), accounts).entries[..1][0];
  }

  /** The pass over the first k + 1 accounts is one more step after the pass over the first k. */
  lemma AccountsFoldSnoc(accounts: seq<Account>, k: nat)
    requires k < |accounts|
    ensures AccountsFold(Initial(), accounts[..k + 1]) == AccountStep(AccountsFold(Initial(), accounts[..k]), accounts[k])
  {
    var pre := AccountsFold(Initial(), accounts[..k]);
    assert accounts[..k + 1] == accounts[..k] + [accounts[k]];
    AccountsFoldAppend(Initial(), accounts[..k], [accounts[k]]);
    assert AccountsFold(AccountStep(pre, accounts[k]), []) == AccountStep(pre, accounts[k]);
  }

  lemma AccountsFoldSnocCursor(accounts: seq<Account>, k: nat)
    requires k < |accounts|
    ensures AccountsFold(Initial(), accounts[..k + 1]).cursor
         == NextStart(AccountsFold(Initial(), accounts[..k]).cursor, accounts[k].dataLength)
  {
    AccountsFoldSnoc(accounts, k);
  }

  /** The entries of the first k accounts are a prefix of those of all accounts. */
  lemma AccountsFoldPrefixOf(accounts: seq<Account>, k: nat)
    requires k <= |accounts|
    ensures |AccountsFold(Initial(), accounts[..k]).entries| <= AccountsEnd(accounts)
    ensures AccountsFold(Initial(), accounts).entries[..|AccountsFold(Initial(), accounts[..k]).entries|]
         == AccountsFold(Initial(), accounts[..k]).entries
  {
    assert accounts == accounts[..k] + accounts[k..];
    AccountsFoldAppend(Initial(), accounts[..k], accounts[k..]);
    AccountsFoldKeepsPrefix(AccountsFold(Initial(), accounts[..k]), accounts[k..]);
  }

  /** The pass over the first k + 1 accounts appends account k's block to the pass over the first k. */
  lemma AccountsFoldSnocEntries(accounts: seq<Account>, k: nat)
    requires k < |accounts|
    ensures AccountsFold(Initial(), accounts[..k + 1]).entries
         == AccountsFold(Initial(), accounts[..k]).entries + AccountBlock(accounts[k], AccountStart(accounts, k))
  {
    FoldCursorIsAccountStart(accounts, k);
    AccountsFoldSnoc(accounts, k);
  }

  /** Below `AccountsEnd` the list holds the account entries. */
  lemma LayoutAccountEntry(accounts: seq<Account>, instructionData: seq<InstructionDataField>, i: nat)
    requires i < AccountsEnd(accounts)
    ensures i < |LayoutEntries(accounts, instructionData)|
    ensures LayoutEntries(accounts, instructionData)[i] == AccountsFold(Initial(), accounts).entries[i]
  {
  }

  /** Entries of the pass over a prefix of the accounts keep their place in the pass over all of them. */
  lemma AccountsFoldPrefixEntry(accounts: seq<Account>, k: nat, i: nat)
    requires k <= |accounts|
    requires i < |AccountsFold(Initial(), accounts[..k]).entries|
    ensures i < AccountsEnd(accounts)
    ensures AccountsFold(Initial(), accounts).entries[i] == AccountsFold(Initial(), accounts[..k]).entries[i]
  {
    AccountsFoldPrefixOf(accounts, k);
    var whole := AccountsFold(Initial(), accounts).entries;
    var part := AccountsFold(Initial(), accounts[..k]).entries;
    assert whole[..|part|][i] == whole[i];
  }

  /**
   * Account k's entries appear in the list, right after the entries of the
   * accounts before it, exactly as the block of an account whose header
   * starts at `AccountStart(accounts, k)`: entry j of that block is entry
   * AccountsEnd(accounts[..k]) + j of the list.
   */
  lemma AccountEntryInLayout(accounts: seq<Account>, instructionData: seq<InstructionDataField>, k: nat, j: nat)
    requires k < |accounts|
    requires j < |AccountBlock(accounts[k], AccountStart(accounts, k))|
    ensures AccountsEnd(accounts[..k]) + j < |LayoutEntries(accounts, instructionData)|
    ensures LayoutEntries(accounts, instructionData)[AccountsEnd(accounts[..k]) + j]
         == AccountBlock(accounts[k], AccountStart(accounts, k))[j]
  {
    var pre := AccountsFold(Initial(), accounts[..k]).entries;
    var block := AccountBlock(accounts[k], AccountStart(accounts, k));
    var p := |pre|;
    AccountsFoldSnocEntries(accounts, k);
    IndexAfter(pre, block, p + j);
    AccountsFoldPrefixEntry(accounts, k + 1, p + j);
    LayoutAccountEntry(accounts, instructionData, p + j);
  }

  /**
   * The header fields of account k in the final list: at the account's
   * start c and at c + 8, c + 40, c + 72, c + 80, wherever the account is
   * in the list.
   */
  lemma AccountHeaderInLayout(accounts: seq<Account>, instructionData: seq<InstructionDataField>, k: nat)
    requires k < |accounts|
    ensures var p := AccountsEnd(accounts[..k]);
      var r := LayoutEntries(accounts, instructionData);
      var c := AccountStart(accounts, k);
      var n := Text.ToUpper(accounts[k].name);
      && p + 5 <= |r|
      && r[p] == Entry(Joined(n, "HEADER"), c, NoComment)
      && r[p + 1] == Entry(Joined(n, "KEY"), c + 8, NoComment)
      && r[p + 2] == Entry(Joined(n, "OWNER"), c + 40, NoComment)
      && r[p + 3] == Entry(Joined(n, "LAMPORTS"), c + 72, NoComment)
      && r[p + 4] == Entry(Joined(n, "DATA_LEN"), c + 80, NoComment)
  {
    var c := AccountStart(accounts, k);
    AccountHeaderFields(accounts[k], c);
    AccountEntryInLayout(accounts, instructionData, k, 0);
    AccountEntryInLayout(accounts, instructionData, k, 1);
    AccountEntryInLayout(accounts, instructionData, k, 2);
    AccountEntryInLayout(accounts, instructionData, k, 3);
    AccountEntryInLayout(accounts, instructionData, k, 4);
  }

  /** When shown, account k's DATA marker is in the list right after its header, at c + 88. */
  lemma AccountMarkerInLayout(accounts: seq<Account>, instructionData: seq<InstructionDataField>, k: nat)
    requires k < |accounts| && ShowsDataMarker(accounts[k])
    ensures var p := AccountsEnd(accounts[..k]);
      var r := LayoutEntries(accounts, instructionData);
      && p + 5 < |r|
      && r[p + 5] == Entry(Joined(Text.ToUpper(accounts[k].name), "DATA"), AccountStart(accounts, k) + HeaderSize, NoComment)
  {
    AccountBlockMarker(accounts[k], AccountStart(accounts, k));
    AccountEntryInLayout(accounts, instructionData, k, 5);
  }

  /**
   * The formatted list reads back, entry by entry, to the recorded names,
   * comments and numeric addresses.
   */
  lemma CalculateOffsetsReadsBack(accounts: seq<Account>, instructionData: seq<InstructionDataField>)
    ensures var r := CalculateOffsets(accounts, instructionData);
      var es := LayoutEntries(accounts, instructionData);
      && |r| == |es|
      && forall i :: 0 <= i < |r| ==>
           && r[i].name == NameText(es[i].name)
           && r[i].comment == CommentText(es[i].note)
           && Hex.ParseAddress(r[i].offset) == Some(es[i].addr)
  {
    var es := LayoutEntries(accounts, instructionData);
    forall i | 0 <= i < |es| ensures Hex.ParseAddress(Hex.FormatAddress(es[i].addr)) == Some(es[i].addr) {
      Hex.AddressRoundTrip(es[i].addr);
    }
  }

  /** The entries behind `CalculateOffsetsShape`: their number, the first and the last. */
  lemma LayoutEnds(accounts: seq<Account>, instructionData: seq<InstructionDataField>)
    ensures var es := LayoutEntries(accounts, instructionData);
      && |es| == AccountsEnd(accounts) + 3 + |instructionData|
      && es[0] == Entry(Fixed("NUM_ACCOUNTS"), 0, NoComment)
      && es[|es| - 1] == Entry(Fixed("PROGRAM_ID"),
           AccountStart(accounts, |accounts|) + 8 + Total(FieldWidths(instructionData)), NoComment)
  {
    var s := AccountStart(accounts, |accounts|);
    var sec := InstructionSection(s, instructionData);
    var pre := AccountsFold(Initial(), accounts).entries;
    LayoutSplit(accounts, instructionData);
    InstructionSectionShape(s, instructionData);
    LayoutStartsWithCount(accounts, instructionData);
    var es := pre + sec;
    assert es[|es| - 1] == sec[2 + |instructionData|];
  }

  /**
   * The whole list: NUM_ACCOUNTS at 0x0000 first, then the account entries,
   * then three fixed records and one per instruction field, ending with
   * PROGRAM_ID where the reference recurrence puts the end of the last
   * account plus 8 plus the instruction fields' total width.
   */
  lemma CalculateOffsetsShape(accounts: seq<Account>, instructionData: seq<InstructionDataField>)
    ensures var r := CalculateOffsets(accounts, instructionData);
      && |r| == AccountsEnd(accounts) + 3 + |instructionData|
      && r[0] == Offset("NUM_ACCOUNTS", "0x0000", None)
      && r[|r| - 1] == Offset("PROGRAM_ID",
           Hex.FormatAddress(AccountStart(accounts, |accounts|) + 8 + Total(FieldWidths(instructionData))), None)
  {
    var es := LayoutEntries(accounts, instructionData);
    LayoutEnds(accounts, instructionData);
    var r := FormatEntries(es);
    assert r[0] == ToOffset(es[0]);
    assert r[|r| - 1] == ToOffset(es[|es| - 1]);
    Hex.SmallAddresses();
    PlainOffset("NUM_ACCOUNTS", 0);
    PlainOffset("PROGRAM_ID", AccountStart(accounts, |accounts|) + 8 + Total(FieldWidths(instructionData)));
  }

  /**
   * The instruction-data section (from INSTRUCTION_DATA_LEN to PROGRAM_ID)
   * depends on the accounts only through their data lengths: names, types,
   * extensions and custom fields of the accounts never move it.
   */
  lemma InstructionSectionDependsOnLengthsOnly(a: seq<Account>, b: seq<Account>, instructionData: seq<InstructionDataField>)
    requires |a| == |b|
    requires forall i :: 0 <= i < |a| ==> a[i].dataLength == b[i].dataLength
    ensures AccountsEnd(a) <= |LayoutEntries(a, instructionData)|
    ensures AccountsEnd(b) <= |LayoutEntries(b, instructionData)|
    ensures LayoutEntries(a, instructionData)[AccountsEnd(a)..] == LayoutEntries(b, instructionData)[AccountsEnd(b)..]
  {
    StartsDependOnLengthsOnly(a, b, |a|);
    LayoutSplit(a, instructionData);
    LayoutSplit(b, instructionData);
    var sec := InstructionSection(AccountStart(a, |a|), instructionData);
    assert LayoutEntries(a, instructionData)[AccountsEnd(a)..] == sec;
    assert LayoutEntries(b, instructionData)[AccountsEnd(b)..] == sec;
  }

  /**
   * With no accounts and no instruction data the cursor is bumped by 8
   * before INSTRUCTION_DATA, so INSTRUCTION_DATA and PROGRAM_ID both sit
   * at 0x0010.
   */
  lemma EmptyLayout()
    ensures CalculateOffsets([], []) == [
      Offset("NUM_ACCOUNTS", "0x0000", None),
      Offset("INSTRUCTION_DATA_LEN", "0x0008", None),
      Offset("INSTRUCTION_DATA", "0x0010", None),
      Offset("PROGRAM_ID", "0x0010", None)]
  {
    var es := LayoutEntries([], []);
    EmptyLayoutEntries();
    var r := FormatEntries(es);
    assert r == [ToOffset(es[0]), ToOffset(es[1]), ToOffset(es[2]), ToOffset(es[3])];
    Hex.SmallAddresses();
    PlainOffset("NUM_ACCOUNTS", 0);
    PlainOffset("INSTRUCTION_DATA_LEN", 8);
    PlainOffset("INSTRUCTION_DATA", 16);
    PlainOffset("PROGRAM_ID", 16);
  }

  /** An entry with a fixed name and no comment renders as that name and its address. */
  lemma PlainOffset(text: string, addr: nat)
    ensures ToOffset(Entry(Fixed(text), addr, NoComment)) == Offset(text, Hex.FormatAddress(addr), None)
  {
  }

  lemma EmptyLayoutEntries()
    ensures LayoutEntries([], []) == [
      Entry(Fixed("NUM_ACCOUNTS"), 0, NoComment),
      Entry(Fixed("INSTRUCTION_DATA_LEN"), 8, NoComment),
      Entry(Fixed("INSTRUCTION_DATA"), 16, NoComment),
      Entry(Fixed("PROGRAM_ID"), 16, NoComment)]
  {
    assert InstructionSection(8, []) == [
      Entry(Fixed("INSTRUCTION_DATA_LEN"), 8, NoComment),
      Entry(Fixed("INSTRUCTION_DATA"), 16, NoComment),
      Entry(Fixed("PROGRAM_ID"), 16, NoComment)];
  }
}
