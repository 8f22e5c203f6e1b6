/**
 * Rendering of the address list (`formatOffset`): one line per offset in
 * the selected language's constant syntax, followed by ` // comment` when
 * the offset has a non-empty comment. Only the text of a line is modelled;
 * the colouring markup around it is not.
 */
module Render {
  import opened Wrappers
  import opened Types
  import Layout
  import Hex

  /** `comment ? " // " + comment : ""`: an absent or empty comment adds nothing. */
  function CommentSuffix(comment: Option<string>): (r: string)
    ensures r == [] <==> comment.None? || comment.value == []
    ensures r != [] ==> |r| == 4 + |comment.value| && r[..4] == " // " && r[4..] == comment.value
  {
    if comment.Some? && comment.value != [] then " // " + comment.value else ""
  }

  /** One rendered line. */
  function FormatLine(lang: Language, name: string, offset: string, comment: Option<string>): string {
    var ct := CommentSuffix(comment);
    match lang
    case Rust => "const " + name + ": usize = " + offset + ";" + ct
    case C => "#define " + name + " " + offset + ct
    case ASM => ".equ " + name + ", " + offset + ct
  }

  /** The text before the name. */
  function Lead(lang: Language): string {
    match lang
    case Rust => "const "
    case C => "#define "
    case ASM => ".equ "
  }

  /** The text between the name and the address. */
  function Sep(lang: Language): string {
    match lang
    case Rust => ": usize = "
    case C => " "
    case ASM => ", "
  }

  /** The text after the address, before any comment. */
  function Close(lang: Language): string {
    match lang
    case Rust => ";"
    case C => ""
    case ASM => ""
  }

  /** Every language writes the same four parts in the same order: lead, name, separator, address. */
  lemma FormatLineParts(lang: Language, name: string, offset: string, comment: Option<string>)
    ensures FormatLine(lang, name, offset, comment)
         == Lead(lang) + name + (Sep(lang) + offset + (Close(lang) + CommentSuffix(comment)))
  {
    var ct := CommentSuffix(comment);
    match lang
    case Rust =>
      assert "const " + name + ": usize = " + offset + ";" + ct
          == "const " + name + (": usize = " + offset + (";" + ct));
    case C =>
      assert "" + ct == ct;
      assert "#define " + name + " " + offset + ct == "#define " + name + (" " + offset + ("" + ct));
    case ASM =>
      assert "" + ct == ct;
      assert ".equ " + name + ", " + offset + ct == ".equ " + name + (", " + offset + ("" + ct));
  }

  /** The slice of `x + y + z` that `y` occupies. */
  lemma SliceMiddle<T>(x: seq<T>, y: seq<T>, z: seq<T>)
    ensures (x + y + z)[|x|..|x| + |y|] == y
  {
  }

  /**
   * The name, the address and the comment suffix can be read back from
   * their positions in the line: the name right after the lead, the
   * address after the separator, the suffix at the end.
   */
  lemma LineFields(lang: Language, name: string, offset: string, comment: Option<string>)
    ensures var line := FormatLine(lang, name, offset, comment);
      var i := |Lead(lang)|;
      var j := i + |name| + |Sep(lang)|;
      var k := j + |offset| + |Close(lang)|;
      && |line| == k + |CommentSuffix(comment)|
      && line[..i] == Lead(lang)
      && line[i..i + |name|] == name
      && line[j..j + |offset|] == offset
      && line[k..] == CommentSuffix(comment)
  {
    FormatLineParts(lang, name, offset, comment);
    var lead := Lead(lang);
    var sep := Sep(lang);
    var close := Close(lang);
    var ct := CommentSuffix(comment);
    var rest := sep + offset + (close + ct);
    var line := FormatLine(lang, name, offset, comment);
    assert line == lead + name + rest;
    SliceMiddle(lead, name, rest);
    assert line[..|lead|] == lead;
    var j := |lead| + |name| + |sep|;
    assert line[|lead| + |name|..] == rest;
    assert rest == sep + offset + (close + ct);
    SliceMiddle(sep, offset, close + ct);
    assert line[j..j + |offset|] == rest[|sep|..|sep| + |offset|];
    assert line[j + |offset|..] == close + ct;
    assert (close + ct)[|close|..] == ct;
  }

  /** Reads the language back from a line's lead. */
  function LanguageOf(line: string): Option<Language> {
    if |line| >= 6 && line[..6] == "const " then Some(Rust)
    else if |line| >= 8 && line[..8] == "#define " then Some(C)
    else if |line| >= 5 && line[..5] == ".equ " then Some(ASM)
    else None
  }

  /** A line that starts with a language's lead is read as that language. */
  lemma LeadDetermines(line: string, lang: Language)
    requires |Lead(lang)| <= |line| && line[..|Lead(lang)|] == Lead(lang)
    ensures LanguageOf(line) == Some(lang)
  {
    match lang
    case Rust =>
    case C =>
      assert line[0] == line[..8][0] == '#';
      assert line[..6][0] == line[0];
    case ASM =>
      assert line[0] == line[..5][0] == '.';
      assert |line| < 6 || line[..6][0] == line[0];
      assert |line| < 8 || line[..8][0] == line[0];
  }

  /** The three syntaxes never produce the same line: each lead identifies its language. */
  lemma LanguageRecovered(lang: Language, name: string, offset: string, comment: Option<string>)
    ensures LanguageOf(FormatLine(lang, name, offset, comment)) == Some(lang)
  {
    LineFields(lang, name, offset, comment);
    LeadDetermines(FormatLine(lang, name, offset, comment), lang);
  }

  /** The rendered list: one line per offset, in order. */
  function RenderOffsets(lang: Language, offsets: seq<Offset>): (lines: seq<string>)
    ensures |lines| == |offsets|
    ensures forall i :: 0 <= i < |offsets| ==>
      lines[i] == FormatLine(lang, offsets[i].name, offsets[i].offset, offsets[i].comment)
  {
    seq(|offsets|, i requires 0 <= i < |offsets| => FormatLine(lang, offsets[i].name, offsets[i].offset, offsets[i].comment))
  }

  /**
   * The component's output for the given inputs: one line per entry of the
   * layout, line i rendering entry i's name, the address literal of its
   * cursor value and its comment. `AddressLine` says what can be read back
   * from such a line.
   */
  function OffsetDisplay(lang: Language, accounts: seq<Account>, instructionData: seq<InstructionDataField>): (lines: seq<string>)
    ensures var es := Layout.LayoutEntries(accounts, instructionData);
      && |lines| == |es|
      && forall i :: 0 <= i < |es| ==>
           lines[i] == FormatLine(lang, Layout.NameText(es[i].name), Hex.FormatAddress(es[i].addr), Layout.CommentText(es[i].note))
  {
    RenderOffsets(lang, Layout.CalculateOffsets(accounts, instructionData))
  }

  /**
   * A line written for cursor value `addr`: its lead identifies the
   * language, the name sits right after the lead, the literal after the
   * separator reads back to `addr`, and the line ends there exactly when
   * there is no comment.
   */
  lemma AddressLine(lang: Language, name: string, addr: nat, comment: Option<string>)
    requires comment.Some? ==> comment.value != []
    ensures var offset := Hex.FormatAddress(addr);
      var line := FormatLine(lang, name, offset, comment);
      var j := |Lead(lang)| + |name| + |Sep(lang)|;
      var k := j + |offset| + |Close(lang)|;
      && LanguageOf(line) == Some(lang)
      && |Lead(lang)| + |name| <= |line|
      && line[|Lead(lang)|..|Lead(lang)| + |name|] == name
      && j + |offset| <= |line|
      && Hex.ParseAddress(line[j..j + |offset|]) == Some(addr)
      && (comment.None? <==> |line| == k)
  {
    Hex.AddressRoundTrip(addr);
    OffsetLine(lang, name, Hex.FormatAddress(addr), comment, addr);
  }

  /**
   * The line of one offset whose literal reads back to `addr` and whose
   * comment, if any, is non-empty: its language, name, address and whether
   * it carries a comment can all be read back.
   */
  lemma OffsetLine(lang: Language, name: string, offset: string, comment: Option<string>, addr: nat)
    requires Hex.ParseAddress(offset) == Some(addr)
    requires comment.Some? ==> comment.value != []
    ensures var line := FormatLine(lang, name, offset, comment);
      var j := |Lead(lang)| + |name| + |Sep(lang)|;
      var k := j + |offset| + |Close(lang)|;
      && LanguageOf(line) == Some(lang)
      && |Lead(lang)| + |name| <= |line|
      && line[|Lead(lang)|..|Lead(lang)| + |name|] == name
      && j + |offset| <= |line|
      && Hex.ParseAddress(line[j..j + |offset|]) == Some(addr)
      && (comment.None? <==> |line| == k)
  {
    LineFields(lang, name, offset, comment);
    LeadDetermines(FormatLine(lang, name, offset, comment), lang);
  }
}
