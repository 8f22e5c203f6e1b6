# SVM offset calculator — a Dafny model

This project models the core of the sbpf.xyz SVM offset calculator. The
calculator lays out the input buffer a Solana BPF program receives:

- the account count;
- for each account, a fixed header (`_HEADER`, `_KEY`, `_OWNER`, `_LAMPORTS`,
  `_DATA_LEN`);
- an optional `_DATA` marker;
- a breakdown of well-known data layouts (SPL Mint, SPL Token, Token-2022
  Mint, the Clock and Rent sysvars) or of a user-defined `TypedAccount`;
- 10240 bytes of realloc padding, an 8-byte rent reserve, and 8-byte
  alignment;
- finally the instruction data and the program id.

It prints each address as a constant in assembly (`.equ`), Rust
(`const … : usize`) or C (`#define`). The model also covers the editor's
pure list and record updates, and the project import check and export
naming.

The modules follow the source:

- `Types` (`types.dfy`): the constant tables and record shapes of `app/types.ts`.
- `Layout` (`layout.dfy`): `calculateOffsets` with `addOffset` and `align`.
  It is a functional fold over a `State` of recorded entries and a running
  cursor. Entries keep their address as a number. Names and comments are kept
  symbolically (`Name`, `Note`) and are spelt out only when the list is
  formatted (`ToOffset`, `CalculateOffsets`). `NextStart`, `AccountStart`,
  `PrefixSum` and `KindTable` are independent reference definitions that the
  lemmas connect the fold to.
- `Render` (`render.dfy`): `formatOffset` as a pure string function, with the
  colouring markup dropped.
- `Hex` (`hex.dfy`): `"0x" + n.toString(16).padStart(4, "0")` and the parser
  that reads it back.
- `Text` (`text.dfy`): ASCII `toUpperCase`/`toLowerCase`, decimal rendering in
  template literals, and `replace(/\s+/g, "-")`.
- `Accounts` (`accounts.dfy`): the extension handlers, the type-change
  handler, and `addAccount`/`updateAccount`/`removeAccount`.
- `Projects` (`projects.dfy`): the import validity check, the exported
  record and its file name.
- `Wrappers` (`wrappers.dfy`): `Option` and `Result`.

Behaviours of the code worth noting:

- With no accounts, the cursor is bumped by 8 after `INSTRUCTION_DATA_LEN`.
  `INSTRUCTION_DATA` and `PROGRAM_ID` therefore both sit at `0x0010`
  (`Layout.EmptyLayout`).
- `Token2022 Mint` is not in the list that suppresses the `DATA` marker. It
  gets both the marker and the mint breakdown (`Layout.AccountBlockComments`,
  `Layout.AccountMarkerInLayout`).
- A `[u8;N]` field is `size || 1` bytes wide, so a missing or zero size counts
  as 1 (`Types.EffectiveWidth`). Its comment prints the raw size, and a
  missing size prints as `undefined` (`Layout.FieldComment`).
- The type-change handler resets the data length to the new type's base size
  even when it keeps the Token-2022 extensions. The account is then out of
  sync with its extensions (`Accounts.ChangeKindKeepsStaleLength`).

## Model

| member | source | states |
|---|---|---|
| Types.ParseLanguage | app/types.ts:13 | a language name is recognised exactly when it is one of "ASM", "Rust", "C", and recognition returns the language of that name |
| Types.LanguageRoundTrip | app/types.ts:13 | every language's name reads back as that language |
| Types.Width | app/types.ts:15-28 | u8/i8 are 1 byte, u16/i16 2, u32/i32/f32 4, u64/i64/f64 8, Pubkey 32, and `[u8;N]` is the only type with table width 0 |
| Types.EffectiveWidth | app/components/OffsetDisplay.tsx:114-117 | a non-array field has its table width; a `[u8;N]` field with a positive size has exactly that size, and one with a missing or zero size is 1 byte |
| Types.ParseAccountKind | app/types.ts:38-47 | a type name is accepted exactly when it is a key of the account-type table, and maps to the kind of that name |
| Types.KindRoundTrip | app/types.ts:38-47 | every account kind's name is a table key and reads back as that kind |
| Types.BaseSizes | app/types.ts:38-47 | each key of the account-type table has the base data size the table lists: System 0, SPL Token 165, SPL Mint 82, Token2022 Account 165, Token2022 Mint 82, Sysvar Clock 40, Sysvar Rent 17, TypedAccount 0 |
| Types.Token2022Kinds | app/components/SVMOffsetCalculator.tsx:183 | a type name starts with "Token2022" exactly for Token2022 Account and Token2022 Mint |
| Types.ExtensionSize | app/types.ts:49-55 | every extension adds a positive number of bytes |
| Types.TableWidths | app/components/OffsetDisplay.tsx:62 | the width list of a field table gives each field the width of its primitive type |
| Types.ContiguousIsPrefixSum | app/types.ts:59-98 | in a packed field table each offset is the sum of the widths before it, and the table ends at the sum of all widths |
| Types.PrefixAt | app/types.ts:59-98 | one field of a packed table starts at the sum of the widths before it |
| Types.SplMintTable | app/types.ts:59-65 | SPL_MINT_FIELDS is packed and ends at byte 74, within the 82-byte SPL Mint size |
| Types.SplTokenTable | app/types.ts:67-76 | SPL_TOKEN_FIELDS is packed and ends at byte 153, within the 165-byte SPL Token size |
| Types.SysvarTables | app/types.ts:86-98 | the Clock and Rent tables are packed and end exactly at their base sizes 40 and 17 |
| Types.Token2022MintTable | app/types.ts:59-84 | TOKEN2022_MINT_FIELDS equals SPL_MINT_FIELDS, and both mint types have the same base size |
| Hex.ToHex | app/components/OffsetDisplay.tsx:17 | `toString(16)` gives lowercase hex digits without leading zeros that parse back to the number, at most 4 digits below 0x10000 |
| Hex.FormatAddress | app/components/OffsetDisplay.tsx:17 | an address literal is "0x" followed by lowercase hex digits, at least 4 of them and never truncated, that parse back to the address |
| Hex.LeadingZeros | app/components/OffsetDisplay.tsx:17 | padding with leading zeros keeps the digits lowercase hex and does not change their value |
| Hex.AddressRoundTrip | app/components/OffsetDisplay.tsx:17 | parsing an address literal gives back the address |
| Hex.FormatAddressInjective | app/components/OffsetDisplay.tsx:17 | two addresses get the same literal only when they are equal |
| Hex.SmallAddresses | app/components/OffsetDisplay.tsx:17 | 0, 8 and 16 are written "0x0000", "0x0008" and "0x0010" |
| Hex.WideAddress | app/components/OffsetDisplay.tsx:17 | an address above 0xffff keeps all its digits: 0x12345 is written "0x12345" |
| Text.UpperCharSpec | app/components/OffsetDisplay.tsx:36 | upper-casing turns each ASCII a-z into its capital and leaves every other character alone |
| Text.ToUpperSpec | app/components/OffsetDisplay.tsx:36 | upper-casing keeps the length and maps each character on its own |
| Text.ToUpperIdempotent | app/components/OffsetDisplay.tsx:36 | upper-casing an upper-cased name changes nothing |
| Text.ToLowerSpec | app/components/SVMOffsetCalculator.tsx:348 | lower-casing keeps the length and maps each character on its own |
| Text.ToLowerAppend | app/components/SVMOffsetCalculator.tsx:348 | lower-casing distributes over concatenation |
| Text.Decimal | app/components/SVMOffsetCalculator.tsx:311 | a number's decimal text is non-empty, all digits, reads back to the number, has no leading zero unless it is 0, and is one digit exactly below 10 |
| Text.ReplaceRuns | app/components/SVMOffsetCalculator.tsx:348 | the replacement leaves no character of the class behind (when the dash is not in the class) and never lengthens the text |
| Text.ReplaceSpaceRuns | app/components/SVMOffsetCalculator.tsx:348 | `replace(/\s+/g, "-")` leaves no whitespace and never lengthens the text |
| Text.RunBecomesOneDash | app/components/SVMOffsetCalculator.tsx:348 | a whitespace run of any length becomes exactly one dash |
| Text.ReplaceRunsAppend | app/components/SVMOffsetCalculator.tsx:348 | the replacement distributes over a concatenation whose cut does not split a run |
| Text.NoneInUnchanged | app/components/SVMOffsetCalculator.tsx:348 | text without whitespace is left unchanged |
| Text.DashBetween | app/components/SVMOffsetCalculator.tsx:348 | two words around a whitespace run come out joined by a single dash |
| Text.LowerKeepsSpaces | app/components/SVMOffsetCalculator.tsx:348 | lower-casing moves no character into or out of the whitespace class |
| Layout.AddOffsetRecords | app/components/OffsetDisplay.tsx:9-21 | `addOffset` appends one entry named `prefix_field` at the current cursor, keeps every earlier entry, and then advances the cursor by the size |
| Layout.AlignUp8 | app/components/OffsetDisplay.tsx:23-28 | `align` yields a multiple of 8 that is not below the cursor and less than 8 above it, and leaves an aligned cursor unchanged |
| Layout.BytesSuffix | app/components/OffsetDisplay.tsx:122 | a comment's ending is " (", digits that read back to the width, then " bytes)" |
| Layout.FieldComment | app/components/OffsetDisplay.tsx:122 | a custom or instruction field's comment is the type name, then `[size]` exactly for a `[u8;N]` field ("undefined" when the size is missing), then the effective width in bytes |
| Layout.TableComment | app/components/OffsetDisplay.tsx:66 | a fixed-table field's comment is the type name followed by its table width in bytes |
| Layout.CommentText | app/components/OffsetDisplay.tsx:60-161 | an entry without a note gets no comment; a table note gets the table comment and a field note the field comment |
| Layout.CommentPresent | app/components/OffsetDisplay.tsx:15-166 | an entry has a comment exactly when it is a breakdown or instruction field, and that comment is non-empty |
| Layout.MarkerEntries | app/components/OffsetDisplay.tsx:47-57 | the DATA marker adds one entry when shown and none otherwise |
| Layout.AccountStep | app/components/OffsetDisplay.tsx:126-133 | after each account the cursor is a multiple of 8, at least `c + 88 + dataLength + 10248` and less than 8 above it |
| Layout.FormatEntries | app/components/OffsetDisplay.tsx:15-19 | the formatted list has one record per entry, in the same order |
| Layout.KindTableContiguous | app/components/OffsetDisplay.tsx:60-109 | every table an account type is broken down by is packed |
| Layout.TableAnnotationsAt | app/components/OffsetDisplay.tsx:61-68 | breakdown entry i of a fixed table is named `NAME_FIELD`, sits at the data start plus the table's offset, and carries the field's type comment |
| Layout.CustomAnnotationsAt | app/components/OffsetDisplay.tsx:110-125 | custom field i is named `NAME_FIELD` and sits at the data start plus the sum of the effective widths of the fields before it |
| Layout.ContiguousTableAnnotations | app/components/OffsetDisplay.tsx:60-109 | for a packed table, breakdown entry i sits at the data start plus the sum of the widths before it |
| Layout.AnnotationsAddrs | app/components/OffsetDisplay.tsx:60-126 | for every account type, breakdown entry i sits at the data start plus the prefix sum of the described fields' widths |
| Layout.AnnotationsNames | app/components/OffsetDisplay.tsx:60-125 | breakdown entry i is named after the upper-cased account name and upper-cased field name i, in table order |
| Layout.AnnotationsCommented | app/components/OffsetDisplay.tsx:60-125 | every breakdown entry carries a comment |
| Layout.HeaderFields | app/components/OffsetDisplay.tsx:37-41 | from cursor c the header fields are `_HEADER` at c, `_KEY` at c+8, `_OWNER` at c+40, `_LAMPORTS` at c+72, `_DATA_LEN` at c+80, and the data starts at c+88 |
| Layout.HeaderLength | app/components/OffsetDisplay.tsx:37-44 | the header is five entries and ends at the data start c+88 |
| Layout.AccountHeaderFields | app/components/OffsetDisplay.tsx:36-41 | an account's block opens with its five header fields at c, c+8, c+40, c+72, c+80, under the upper-cased account name |
| Layout.AccountBlockLength | app/components/OffsetDisplay.tsx:35-129 | a block has the 5 header entries, the marker if shown, and one entry per described field |
| Layout.AccountBlockMarker | app/components/OffsetDisplay.tsx:44-57 | when shown, the DATA marker is the sixth entry of the block, at the data start c+88 |
| Layout.AccountBlockBreakdown | app/components/OffsetDisplay.tsx:59-126 | the breakdown follows the header and marker, in order |
| Layout.MarkerShownFor | app/components/OffsetDisplay.tsx:47-53 | the DATA marker is shown exactly for System, Token2022 Account, Token2022 Mint, and a TypedAccount with no custom fields |
| Layout.AccountBlockComments | app/components/OffsetDisplay.tsx:47-57 | past the header, an entry lacks a comment exactly when it is the DATA marker, which is shown iff the type is none of SPL Mint, SPL Token, Sysvar Clock, Sysvar Rent, nor a TypedAccount with custom fields |
| Layout.AccountBlockAddrs | app/components/OffsetDisplay.tsx:59-126 | the breakdown entries of a block starting at c sit at c + 88 plus the prefix sums of the described widths |
| Layout.AccountBlockNames | app/components/OffsetDisplay.tsx:60-125 | the breakdown entries of a block are named after the account and the described fields, in order |
| Layout.AccountsFoldAppend | app/components/OffsetDisplay.tsx:35-134 | processing two account lists one after the other is processing their concatenation |
| Layout.AccountsFoldKeepsPrefix | app/components/OffsetDisplay.tsx:15-19 | the pass only appends: earlier entries are never changed or removed |
| Layout.FoldCursorIsAccountStart | app/components/OffsetDisplay.tsx:35-134 | after k accounts the cursor is the start of account k by the reference recurrence from 8 |
| Layout.StartsAligned | app/components/OffsetDisplay.tsx:126-133 | every account starts on a multiple of 8, and the next one starts less than 8 bytes after its header, data, padding and rent reserve |
| Layout.StartsDependOnLengthsOnly | app/components/OffsetDisplay.tsx:60-129 | where each account starts depends only on the data lengths, never on names, types, extensions or custom fields |
| Layout.FieldWidthsTail | app/components/OffsetDisplay.tsx:149-161 | the field widths are each field's effective width, in order |
| Layout.InstructionFoldSize | app/components/OffsetDisplay.tsx:149-161 | the instruction fields add one entry each and move the cursor by the sum of their effective widths |
| Layout.InstructionFoldKeeps | app/components/OffsetDisplay.tsx:149-161 | the instruction loop leaves earlier entries unchanged |
| Layout.InstructionFoldAt | app/components/OffsetDisplay.tsx:149-161 | instruction field i is named `INSTRUCTION_FIELD` and sits at the loop's start plus the widths of the fields before it |
| Layout.LayoutSplit | app/components/OffsetDisplay.tsx:35-166 | the output is the account section followed by the instruction section, which starts where the reference recurrence puts the end of the last account |
| Layout.InstructionSectionShape | app/components/OffsetDisplay.tsx:136-166 | `INSTRUCTION_DATA_LEN` at s, `INSTRUCTION_DATA` at s+8, field i at s+8 plus the widths before it, `PROGRAM_ID` at s+8 plus all widths, in input order |
| Layout.CalculateOffsetsShape | app/components/OffsetDisplay.tsx:4-169 | the list has the account entries plus three fixed records and one per instruction field; it opens with `NUM_ACCOUNTS` at 0x0000 and ends with `PROGRAM_ID` at the end of the last account (by the reference recurrence) plus 8 plus the instruction fields' total width |
| Layout.LayoutStartsWithCount | app/components/OffsetDisplay.tsx:30-33 | the output opens with `NUM_ACCOUNTS` at 0 |
| Layout.AccountsFoldSnoc | app/components/OffsetDisplay.tsx:35-134 | handling one more account is one more loop iteration |
| Layout.AccountsFoldSnocCursor | app/components/OffsetDisplay.tsx:126-133 | the cursor after one more account follows the reference recurrence |
| Layout.AccountsFoldPrefixOf | app/components/OffsetDisplay.tsx:35-134 | the entries of the first k accounts are a prefix of the entries of all of them |
| Layout.AccountsFoldSnocEntries | app/components/OffsetDisplay.tsx:35-134 | account k adds exactly its block, laid out from its reference start |
| Layout.LayoutAccountEntry | app/components/OffsetDisplay.tsx:35-166 | the account entries appear unchanged at the front of the output |
| Layout.AccountsFoldPrefixEntry | app/components/OffsetDisplay.tsx:35-134 | an entry recorded for an earlier account is unchanged in the complete account section |
| Layout.AccountEntryInLayout | app/components/OffsetDisplay.tsx:35-134 | entry j of account k's block appears in the output right after the entries of the accounts before it |
| Layout.AccountHeaderInLayout | app/components/OffsetDisplay.tsx:36-41 | in the output, account k's header fields sit at its reference start c and at c+8, c+40, c+72, c+80 |
| Layout.AccountMarkerInLayout | app/components/OffsetDisplay.tsx:44-57 | when shown, account k's DATA marker follows its header in the output, at the data start c+88 |
| Layout.CalculateOffsetsReadsBack | app/components/OffsetDisplay.tsx:15-19 | each output record's name is the entry's name, its comment is the entry's comment, and its address literal parses back to the entry's address |
| Layout.InstructionSectionDependsOnLengthsOnly | app/components/OffsetDisplay.tsx:60-166 | the instruction section is the same for any two account lists with the same data lengths |
| Layout.EmptyLayout | app/components/OffsetDisplay.tsx:5-166 | with no accounts and no instruction data the output is exactly NUM_ACCOUNTS@0x0000, INSTRUCTION_DATA_LEN@0x0008, INSTRUCTION_DATA@0x0010, PROGRAM_ID@0x0010 |
| Layout.EmptyLayoutEntries | app/components/OffsetDisplay.tsx:5-166 | with no accounts and no instruction data the entries are NUM_ACCOUNTS at 0, INSTRUCTION_DATA_LEN at 8, INSTRUCTION_DATA and PROGRAM_ID at 16 |
| Layout.PlainOffset | app/components/OffsetDisplay.tsx:136-146 | an entry with a fixed name and no comment is printed as that name and its address literal |
| Render.CommentSuffix | app/components/OffsetDisplay.tsx:172 | an absent or empty comment adds nothing; otherwise the suffix is " // " followed by the comment |
| Render.FormatLineParts | app/components/OffsetDisplay.tsx:171-205 | all three syntaxes write lead, name, separator, address, closing text and comment suffix in that order |
| Render.LineFields | app/components/OffsetDisplay.tsx:171-205 | a `formatOffset` line is the lead, then the name verbatim, then the separator, then the address verbatim, then the closing text, and it ends in the comment suffix; its length is the sum of those parts |
| Render.LeadDetermines | app/components/OffsetDisplay.tsx:174-205 | a line starting with `const `, `#define ` or `.equ ` is read as that language |
| Render.LanguageRecovered | app/components/OffsetDisplay.tsx:174-205 | the language can be read back from any line it produced |
| Render.RenderOffsets | app/components/OffsetDisplay.tsx:212-214 | one line per offset, line i rendering offset i |
| Render.OffsetDisplay | app/components/OffsetDisplay.tsx:208-214 | the display has one line per layout entry, line i rendering entry i's name, address literal and comment |
| Render.OffsetLine | app/components/OffsetDisplay.tsx:171-205 | from a line one can read the language, the name, an address literal that parses to the address, and whether a comment follows |
| Render.AddressLine | app/components/OffsetDisplay.tsx:171-205 | a line written for address a shows the language, the name verbatim, a literal parsing back to a, and ends there exactly when there is no comment |
| Accounts.ExtensionBytesAppend | app/components/SVMOffsetCalculator.tsx:142-143 | the extension byte sum of a concatenation is the sum of the parts |
| Accounts.Without | app/components/SVMOffsetCalculator.tsx:152 | the filtered list no longer holds the extension, is no longer, and holds nothing new |
| Accounts.WithoutAppend | app/components/SVMOffsetCalculator.tsx:152 | the filter distributes over concatenation, so the surviving extensions keep their order |
| Accounts.WithoutSingle | app/components/SVMOffsetCalculator.tsx:152 | on one extension the filter drops it exactly when it is the removed one |
| Accounts.WithoutCounts | app/components/SVMOffsetCalculator.tsx:152 | the removed extension occurs zero times afterwards and every other extension occurs as often as before |
| Accounts.WithoutAbsent | app/components/SVMOffsetCalculator.tsx:152 | removing an extension that is not there changes nothing |
| Accounts.AddExtension | app/components/SVMOffsetCalculator.tsx:139-149 | the extension is appended, the data length becomes base size plus all extension bytes, and nothing else changes |
| Accounts.RemoveExtension | app/components/SVMOffsetCalculator.tsx:151-161 | every occurrence of the extension is dropped, the length is recomputed from the base size and the rest, and nothing else changes |
| Accounts.AddExtensionGrows | app/components/SVMOffsetCalculator.tsx:139-149 | on an account whose length matches its extensions, adding one grows the data by exactly its size |
| Accounts.AddThenRemove | app/components/SVMOffsetCalculator.tsx:139-161 | adding an extension the account lacks and removing it restores the account |
| Accounts.RemoveIdempotent | app/components/SVMOffsetCalculator.tsx:151-161 | removing an extension twice is removing it once |
| Accounts.ChangeKind | app/components/SVMOffsetCalculator.tsx:177-186 | the type changes, the length becomes the new base size, extensions survive exactly for the Token-2022 types and are emptied otherwise |
| Accounts.ChangeKindSynced | app/components/SVMOffsetCalculator.tsx:177-186 | after a type change the length matches the extensions exactly when the kept extensions add no bytes |
| Accounts.ExtensionBytesPositive | app/types.ts:49-55 | an extension list adds no bytes only when it is empty |
| Accounts.ChangeKindKeepsStaleLength | app/components/SVMOffsetCalculator.tsx:180-184 | switching to a Token-2022 type with extensions leaves the length out of step with them |
| Accounts.AddAccount | app/components/SVMOffsetCalculator.tsx:309-317 | one account is appended, named ACCOUNT followed by the new count, a System account of length 0 with no extensions, and earlier accounts are unchanged |
| Accounts.UpdateAccount | app/components/SVMOffsetCalculator.tsx:319-323 | index i holds the given account and every other account is kept; an index within the list keeps the length, the index just past the end appends |
| Accounts.UpdatePastEndAppends | app/components/SVMOffsetCalculator.tsx:309-323 | storing the new account just past the end gives the same list as `addAccount` |
| Accounts.RemoveAccount | app/components/SVMOffsetCalculator.tsx:325-328 | index i is dropped and the rest keep their order; an index past the end changes nothing |
| Accounts.UpdateSame | app/components/SVMOffsetCalculator.tsx:319-323 | writing back the account already at i changes nothing |
| Accounts.AddThenRemoveAccount | app/components/SVMOffsetCalculator.tsx:309-328 | removing the account just added restores the list |
| Accounts.RemoveSplits | app/components/SVMOffsetCalculator.tsx:325-328 | the original list is the remaining accounts before i, the removed one, and the remaining ones after |
| Accounts.UpdateKeepsStarts | app/components/SVMOffsetCalculator.tsx:319-323 | an update that keeps the data length leaves every account's start address where it was |
| Accounts.AddKeepsStarts | app/components/SVMOffsetCalculator.tsx:309-317 | adding an account leaves the earlier accounts' start addresses unchanged |
| Accounts.AlignedStep | app/components/OffsetDisplay.tsx:126-133 | from an aligned start, an empty account moves the cursor by exactly 10336 |
| Accounts.NewAccountLayout | app/components/SVMOffsetCalculator.tsx:309-317 | the new account shows a DATA marker and the next free start is 10336 bytes past its own |
| Projects.ToAccount | app/components/SVMOffsetCalculator.tsx:66-77 | an account converts exactly when its type is a key of the account-type table; the result has that type and the file's name, data length, extensions and custom fields |
| Projects.ToAccounts | app/components/SVMOffsetCalculator.tsx:66-69 | a converted list has one account per input account |
| Projects.ToAccountsSpec | app/components/SVMOffsetCalculator.tsx:66-73 | the accounts convert exactly when every type is a table key, and each converts on its own |
| Projects.Import | app/components/SVMOffsetCalculator.tsx:57-77 | an import succeeds iff id and name are truthy, accounts is a list, the language is ASM, Rust or C, and every account type is a table key; the field check is reported first; a success keeps the file's fields under the fresh id |
| Projects.ImportChecks | app/components/SVMOffsetCalculator.tsx:57-73 | an import succeeds iff the id and name are truthy, the accounts are a list, the language is one of the three names and every account type is a table key; the field error is reported whenever a field check fails, and the type error otherwise |
| Projects.ImportRejectsKinds | app/components/SVMOffsetCalculator.tsx:66-73 | a file that passes the field check but holds an unknown type is refused for its account types |
| Projects.ExportName | app/components/SVMOffsetCalculator.tsx:337 | the exported name is the project's own name when that is non-empty, and "Untitled Project" when it is empty |
| Projects.Export | app/components/SVMOffsetCalculator.tsx:330-341 | without a current project nothing is exported; otherwise the record has the project's id, its name defaulted as `ExportName` gives it, the edited accounts and the selected language, and no instruction data or timestamp |
| Projects.ExportFileName | app/components/SVMOffsetCalculator.tsx:348 | the file name ends in ".json" and contains no whitespace |
| Projects.FileNameOfPlainName | app/components/SVMOffsetCalculator.tsx:348 | a name without whitespace only has its letters lower-cased |
| Projects.LowerSpaces | app/components/SVMOffsetCalculator.tsx:348 | lower-casing keeps a whitespace-free name whitespace-free and an all-whitespace run all whitespace |
| Projects.DefaultFileName | app/components/SVMOffsetCalculator.tsx:337-348 | a project without a name downloads as "untitled-project.json" |
| Projects.ExportedFileName | app/components/SVMOffsetCalculator.tsx:335-348 | the download's file name is built from the exported record's defaulted name |
| Projects.FileNameOfTwoWords | app/components/SVMOffsetCalculator.tsx:348 | two words around any whitespace run become lower-case words joined by one dash |
| Projects.ToRaw | app/components/SVMOffsetCalculator.tsx:330-345 | the written file holds the id, the name, the instruction data, the timestamp, a language that parses back to the project's, and each account with every field and its type's table name |
| Projects.ExportImportRoundTrip | app/components/SVMOffsetCalculator.tsx:57-77 | an exported project with a truthy id imports back to the same record under the fresh id |

## Left out

- JSX rendering, the `<span>` colouring, the sidebar and dialogs: these are
  presentation. `Render` keeps only the text of each line.
- localStorage loading and the autosave timer, FileReader, `JSON.parse` and
  its error toast, the Blob/URL download, and all toasts: these are browser
  I/O. A parsed import file is a `RawProject` parameter. The export yields
  the record and the file name instead of downloading.
- `Date.now()`: the fresh id of an imported project is the parameter `now`.
- `dataLength` and `size` are `nat`. The `parseInt` NaN path of the length
  input is a JavaScript number artefact. Number precision beyond 2^53 is not
  modelled: addresses are unbounded integers.
- f32/f64 appear only as byte widths. No floating-point semantics are needed.
- Text.ToUpper and Text.ToLower map ASCII letters only. Full Unicode case
  mapping is out of scope.
- Accounts.UpdateAccount: requires an index no greater than the list's
  length. The editor only passes the index of a rendered account. An index
  further past the end would leave holes in the JavaScript array, which a
  `seq` cannot represent.
- Projects.Import: the file's fields have the types the source declares. A
  `name` that is truthy but not a string (such as 5) passes the source's
  check and is imported, while the model has only string names. A
  `language` that is not a string fails the `includes` test exactly like a
  missing one, which is `None` here. An account element that is a non-null
  primitive has no `type` and is refused like one with a missing type. Only
  a `null` or `undefined` element makes `account.type` throw, which the
  source reports as an unreadable file; that path is not modelled.
- Projects.Import: the source checks only the account types. It does not
  validate account names, extension names, custom-field types, sizes or
  `dataLength`, so it accepts a file with an account that has no name, an
  unknown extension, or a negative or fractional length. An account without
  a name is then rejected only later, when `account.name.toUpperCase()`
  throws while the addresses are computed. A `RawAccount` cannot hold such
  values, because its fields have the types `string`, `Extension`,
  `Primitive` and `nat`, so those files are outside the model.
- The optional `extensions` and `customFields` of an account are modelled
  as sequences, with absent meaning empty. Every reader in the source treats
  a missing list like an empty one. A TypedAccount with no custom fields
  takes the custom-field branch but records nothing, like the final branch.
- The `id` field of custom fields is a UI row key and is not modelled.
- The React call site that renders the display without the
  `instructionData` prop is not modelled. The instruction data is an
  explicit parameter.
- The name and data-length inputs of an account row are plain
  `updateAccount` calls with one field replaced; they are covered by
  `Accounts.UpdateAccount` and not modelled separately.
