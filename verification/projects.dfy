/**
 * Saved projects as they cross the file boundary: the checks an imported
 * file must pass before it replaces nothing and is added to the list, the
 * record written on export, and the export's file name. Reading the file
 * and parsing its JSON are outside the model; a parsed file is a
 * `RawProject` whose fields may be missing.
 */
module Projects {
  import opened Wrappers
  import opened Types
  import Text

  /** A project id: freshly created ones are timestamps, the declared type is text. */
  datatype Id = NumId(n: int) | TextId(s: string)

  /** JavaScript truthiness of an id: not 0 and not the empty string. */
  predicate IdTruthy(id: Option<Id>) {
    match id
    case None => false
    case Some(NumId(n)) => n != 0
    case Some(TextId(s)) => s != []
  }

  /** A stored project (`Project` in the types file). */
  datatype Project = Project(
    id: Id,
    name: string,
    accounts: seq<Account>,
    instructionData: Option<seq<InstructionDataField>>,
    language: Option<Language>,
    lastModified: Option<int>)

  /** An account as parsed from a file: its type is whatever text the file held. */
  datatype RawAccount = RawAccount(
    name: string,
    kind: Option<string>,
    dataLength: nat,
    extensions: seq<Extension>,
    customFields: seq<CustomField>)

  /** A project as parsed from a file; `accounts` is `None` when it is not a list. */
  datatype RawProject = RawProject(
    id: Option<Id>,
    name: Option<string>,
    accounts: Option<seq<RawAccount>>,
    instructionData: Option<seq<InstructionDataField>>,
    language: Option<string>,
    lastModified: Option<int>)

  /** Why an import was refused, in the order the checks run. */
  datatype ImportError = InvalidFields | InvalidAccountTypes

  // ------------------------------------------------------------ validity

  /** The required fields: a truthy id and name, a list of accounts, a known language. */
  predicate FieldsValid(p: RawProject) {
    && IdTruthy(p.id)
    && p.name.Some? && p.name.value != []
    && p.accounts.Some?
    && p.language.Some? && p.language.value in {"ASM", "Rust", "C"}
  }

  /** Every account's type is a key of the account-type table. */
  predicate KindsValid(raws: seq<RawAccount>) {
    forall i :: 0 <= i < |raws| ==> raws[i].kind.Some? && raws[i].kind.value in AccountTypeNames
  }

  /** The whole check an imported file must pass. */
  predicate ValidImport(p: RawProject) {
    FieldsValid(p) && KindsValid(p.accounts.value)
  }

  /** One account with its type looked up in the table. */
  function ToAccount(r: RawAccount): (a: Option<Account>)
    ensures a.Some? <==> r.kind.Some? && r.kind.value in AccountTypeNames
    ensures a.Some? ==> KindName(a.value.kind) == r.kind.value
    ensures a.Some? ==> a.value == Account(r.name, a.value.kind, r.dataLength, r.extensions, r.customFields)
  {
    if r.kind.None? then None
    else match ParseAccountKind(r.kind.value)
      case None => None
      case Some(k) => Some(Account(r.name, k, r.dataLength, r.extensions, r.customFields))
  }

  /** All accounts with their types looked up; fails at the first unknown type. */
  function ToAccounts(raws: seq<RawAccount>): (r: Option<seq<Account>>)
    ensures r.Some? ==> |r.value| == |raws|
  {
    if raws == [] then Some([])
    else match (ToAccount(raws[0]), ToAccounts(raws[1..]))
      case (Some(a), Some(rest)) => Some([a] + rest)
      case _ => None
  }

  /** The conversion succeeds exactly when every type is known, and keeps each account's data. */
  lemma {:induction false} ToAccountsSpec(raws: seq<RawAccount>)
    ensures ToAccounts(raws).Some? <==> KindsValid(raws)
    ensures ToAccounts(raws).Some? ==> forall i :: 0 <= i < |raws| ==>
      ToAccount(raws[i]) == Some(ToAccounts(raws).value[i])
  {
    if raws != [] {
      ToAccountsSpec(raws[1..]);
      if KindsValid(raws) {
        assert KindsValid(raws[1..]) by {
          forall i | 0 <= i < |raws[1..]|
            ensures raws[1..][i].kind.Some? && raws[1..][i].kind.value in AccountTypeNames
          {
            assert raws[1..][i] == raws[i + 1];
          }
        }
      }
    }
  }

  /**
   * The import handler after parsing: refuse a file missing a required
   * field, then one with an unknown account type, and otherwise take the
   * file's project under the fresh id `now`.
   */
  function Import(p: RawProject, now: int): (r: Result<Project, ImportError>)
    ensures r.Success? <==> ValidImport(p)
    ensures !FieldsValid(p) ==> r == Failure(InvalidFields)
    ensures r.Success? ==>
      && r.value.id == NumId(now) && Some(r.value.name) == p.name
      && r.value.instructionData == p.instructionData && r.value.lastModified == p.lastModified
      && r.value.language.Some? && Some(LanguageName(r.value.language.value)) == p.language
      && Some(r.value.accounts) == ToAccounts(p.accounts.value)
  {
    if !FieldsValid(p) then Failure(InvalidFields)
    else
      ToAccountsSpec(p.accounts.value);
      match ToAccounts(p.accounts.value)
      case None => Failure(InvalidAccountTypes)
      case Some(accounts) =>
        var lang := ParseLanguage(p.language.value);
        Success(Project(NumId(now), p.name.value, accounts, p.instructionData, lang, p.lastModified))
  }

  /**
   * The import checks spelled out on the file's fields: the import succeeds
   * exactly when the id and name are truthy, the accounts are a list, the
   * language parses, and every account's type parses; the missing-field
   * error is the one reported when the first four fail.
   */
  lemma ImportChecks(p: RawProject, now: int)
    ensures var fields :=
        && IdTruthy(p.id) && p.name.Some? && p.name.value != [] && p.accounts.Some?
        && p.language.Some? && ParseLanguage(p.language.value).Some?;
      && (Import(p, now).Success? <==>
           && fields
           && forall i :: 0 <= i < |p.accounts.value| ==>
                p.accounts.value[i].kind.Some? && ParseAccountKind(p.accounts.value[i].kind.value).Some?)
      && (!fields ==> Import(p, now) == Failure(InvalidFields))
      && (fields && Import(p, now).Failure? ==> Import(p, now) == Failure(InvalidAccountTypes))
  {
    if FieldsValid(p) && !KindsValid(p.accounts.value) {
      ImportRejectsKinds(p, now);
    }
  }

  /** A file that passes the field check but not the type check is refused for its types. */
  lemma ImportRejectsKinds(p: RawProject, now: int)
    requires FieldsValid(p) && !KindsValid(p.accounts.value)
    ensures Import(p, now) == Failure(InvalidAccountTypes)
  {
    ToAccountsSpec(p.accounts.value);
  }

  // ------------------------------------------------------------ export

  /** The name written on export: the project's name, or a default for an empty one. */
  function ExportName(name: string): (r: string)
    ensures r != []
    ensures name != [] ==> r == name
    ensures name == [] ==> r == "Untitled Project"
  {
    if name != [] then name else "Untitled Project"
  }

  /**
   * The record `exportProject` writes: the current project's id, its name
   * (defaulted), the edited accounts and the selected language. The
   * instruction data and modification time are not written. Without a
   * current project nothing is exported.
   */
  function Export(current: Option<Project>, accounts: seq<Account>, language: Language): (r: Option<Project>)
    ensures r.Some? <==> current.Some?
    ensures r.Some? ==>
      && r.value.id == current.value.id && r.value.name == ExportName(current.value.name)
      && r.value.accounts == accounts && r.value.language == Some(language)
      && r.value.instructionData.None? && r.value.lastModified.None?
  {
    match current
    case None => None
    case Some(p) => Some(Project(p.id, ExportName(p.name), accounts, None, Some(language), None))
  }

  lemma JsonNoSpace(ext: string)
    requires ext == ".json"
    ensures Text.NoSpace(ext)
  {
    forall i | 0 <= i < 5 ensures !Text.IsSpace(ext[i]) {
      assert ext[i] in ".json";
    }
  }

  /** The download's file name: the lower-cased name, whitespace runs as dashes. */
  function ExportFileName(name: string): (r: string)
    ensures |r| >= 5 && r[|r| - 5..] == ".json"
    ensures Text.NoSpace(r)
  {
    var stem := Text.ReplaceSpaceRuns(Text.ToLower(name));
    var r := stem + ".json";
    assert r[|stem|..] == ".json";
    JsonNoSpace(".json");
    Text.NoneInAppend(stem, ".json", Text.Spaces);
    r
  }

  /** A name without whitespace only has its letters lower-cased. */
  lemma FileNameOfPlainName(name: string)
    requires Text.NoSpace(name)
    ensures ExportFileName(name) == Text.ToLower(name) + ".json"
  {
    Text.ToLowerSpec(name);
    var low := Text.ToLower(name);
    assert Text.NoSpace(low) by {
      forall i | 0 <= i < |low| ensures !Text.IsSpace(low[i]) {
        Text.LowerKeepsSpaces(name[i]);
      }
    }
    Text.NoneInUnchanged(low, Text.Spaces);
  }

  /** Lower-casing keeps every character's whitespace class. */
  lemma LowerSpaces(s: string)
    ensures Text.NoSpace(s) ==> Text.NoSpace(Text.ToLower(s))
    ensures Text.AllSpace(s) ==> Text.AllSpace(Text.ToLower(s))
  {
    Text.ToLowerSpec(s);
    forall i | 0 <= i < |s| ensures Text.IsSpace(Text.ToLower(s)[i]) <==> Text.IsSpace(s[i]) {
      Text.LowerKeepsSpaces(s[i]);
    }
  }

  /**
   * A whitespace run between two words becomes a single dash, however long
   * the run is and whichever whitespace characters it holds.
   */
  lemma FileNameOfTwoWords(a: string, w: string, b: string)
    requires Text.NoSpace(a) && Text.NoSpace(b)
    requires w != [] && Text.AllSpace(w)
    ensures ExportFileName(a + w + b) == Text.ToLower(a) + "-" + Text.ToLower(b) + ".json"
  {
    Text.ToLowerAppend(a + w, b);
    Text.ToLowerAppend(a, w);
    LowerSpaces(a);
    LowerSpaces(w);
    LowerSpaces(b);
    Text.ToLowerSpec(w);
    Text.DashBetween(Text.ToLower(a), Text.ToLower(w), Text.ToLower(b), Text.Spaces);
  }

  /** The default name is two whitespace-free words around one space. */
  lemma DefaultNameWords(a: string, w: string, b: string)
    requires a == "Untitled" && w == " " && b == "Project"
    ensures Text.NoSpace(a) && Text.NoSpace(b) && Text.AllSpace(w)
  {
    forall i | 0 <= i < 8 ensures !Text.IsSpace(a[i]) {
      assert a[i] in "Untitled";
    }
    forall i | 0 <= i < 7 ensures !Text.IsSpace(b[i]) {
      assert b[i] in "Project";
    }
  }

  lemma DefaultNameLower(a: string, b: string)
    requires a == "Untitled" && b == "Project"
    ensures Text.ToLower(a) == "untitled" && Text.ToLower(b) == "project"
  {
    Text.ToLowerSpec(a);
    Text.ToLowerSpec(b);
  }

  /** Two words around a single space, as in the default name. */
  lemma FileNameOfDefault(a: string, w: string, b: string)
    requires a == "Untitled" && w == " " && b == "Project"
    ensures ExportFileName(a + w + b) == "untitled-project.json"
  {
    DefaultNameWords(a, w, b);
    FileNameOfTwoWords(a, w, b);
    DefaultNameLower(a, b);
  }

  /** A project without a name downloads as "untitled-project.json". */
  lemma DefaultFileName(name: string)
    ensures name == [] ==> ExportFileName(ExportName(name)) == "untitled-project.json"
  {
    if name == [] {
      FileNameOfDefault("Untitled", " ", "Project");
      assert ExportName(name) == "Untitled" + " " + "Project";
    }
  }

  /** The download is named after the exported record's name, default included. */
  lemma ExportedFileName(current: Project, accounts: seq<Account>, language: Language)
    ensures var e := Export(Some(current), accounts, language).value;
      && ExportFileName(e.name) == ExportFileName(ExportName(current.name))
      && (current.name == [] ==> ExportFileName(e.name) == "untitled-project.json")
  {
    DefaultFileName(current.name);
  }

  // ------------------------------------------------------------ round trip

  /** The file contents of a stored project, as the parser would read them back. */
  function ToRaw(p: Project): (r: RawProject)
    ensures r.accounts.Some? && |r.accounts.value| == |p.accounts|
    ensures forall i :: 0 <= i < |p.accounts| ==>
      var a := p.accounts[i];
      r.accounts.value[i] == RawAccount(a.name, Some(KindName(a.kind)), a.dataLength, a.extensions, a.customFields)
    ensures r.id == Some(p.id) && r.name == Some(p.name)
    ensures r.instructionData == p.instructionData && r.lastModified == p.lastModified
    ensures r.language.Some? <==> p.language.Some?
    ensures p.language.Some? ==> ParseLanguage(r.language.value) == p.language
  {
    RawProject(
      Some(p.id),
      Some(p.name),
      Some(seq(|p.accounts|, i requires 0 <= i < |p.accounts| =>
        var a := p.accounts[i];
        RawAccount(a.name, Some(KindName(a.kind)), a.dataLength, a.extensions, a.customFields))),
      p.instructionData,
      if p.language.Some? then Some(LanguageName(p.language.value)) else None,
      p.lastModified)
  }

  /**
   * An exported project imports back to the same project under the new
   * id, provided its id was truthy: the export always writes a non-empty
   * name and a language, and every account type it writes is a table key.
   */
  lemma ExportImportRoundTrip(current: Project, accounts: seq<Account>, language: Language, now: int)
    requires IdTruthy(Some(current.id))
    ensures var e := Export(Some(current), accounts, language).value;
      Import(ToRaw(e), now) == Success(e.(id := NumId(now)))
  {
    var e := Export(Some(current), accounts, language).value;
    var raw := ToRaw(e);
    LanguageRoundTrip(language);
    assert KindsValid(raw.accounts.value) by {
      forall i | 0 <= i < |raw.accounts.value|
        ensures raw.accounts.value[i].kind.Some? && raw.accounts.value[i].kind.value in AccountTypeNames
      {
        KindRoundTrip(accounts[i].kind);
      }
    }
    ToAccountsSpec(raw.accounts.value);
    var back := ToAccounts(raw.accounts.value).value;
    assert back == accounts by {
      forall i | 0 <= i < |accounts| ensures back[i] == accounts[i] {
        KindRoundTrip(accounts[i].kind);
      }
    }
  }
}
