/** What the lexer hands to the parser. Register names are resolved and numbers are read. */
module Tokens {
  import opened Options
  import opened Instructions

  datatype Kind =
    | Invalid | Eof | Identifier | Directive | Opcode(mnemonic: Mnemonic)
    | GpRegister(n: nat) | FpRegister | CsrRegister
    | Num(v: int) | FloatNum(floatBits: bv32, doubleBits: bv64) | Label | LabelRef | Comma | LParen | RParen
    | Str(raw: seq<bv8>) | Rm

  datatype Token = Token(kind: Kind, value: string, line: nat)

  /** The token past the end. */
  const END := Token(Eof, "", 1)

  predicate EndsSection(value: string) {
    value == "text" || value == "data" || value == "bss" || value == "section"
  }

  datatype DataDirective = DWord | Word | HalfWord | Byte | Float | Double | Zero | Text

  function DirectiveOf(value: string): Option<DataDirective> {
    if value == "dword" then Some(DWord)
    else if value == "word" then Some(Word)
    else if value == "halfword" then Some(HalfWord)
    else if value == "byte" then Some(Byte)
    else if value == "float" then Some(Float)
    else if value == "double" then Some(Double)
    else if value == "zero" then Some(Zero)
    else if value == "string" then Some(Text)
    else None
  }

  function AlignmentOf(d: DataDirective): nat {
    match d
    case DWord => 8
    case Word => 4
    case HalfWord => 2
    case Byte => 1
    case Float => 4
    case Double => 8
    case Zero => 1
    case Text => 1
  }

  /** The kind of literal a directive takes. */
  predicate Takes(d: DataDirective, k: Kind) {
    if d.Float? || d.Double? then k.FloatNum? else if d.Text? then k.Str? else k.Num?
  }

  /** The run of literals and commas from i on holds a literal. */
  predicate CarriesLiteral(tokens: seq<Token>, i: nat, d: DataDirective)
    decreases |tokens| - i
  {
    && i < |tokens|
    && (Takes(d, tokens[i].kind) || (tokens[i].kind.Comma? && CarriesLiteral(tokens, i + 1, d)))
  }

  /** Every label of the data section stands in front of a directive with at least one literal. */
  predicate LabelsCarryLiterals(tokens: seq<Token>) {
    forall i :: 0 <= i < |tokens| - 1 && tokens[i].kind.Label? && DirectiveOf(tokens[i + 1].value).Some? ==>
      tokens[i + 1].kind.Directive? && CarriesLiteral(tokens, i + 2, DirectiveOf(tokens[i + 1].value).value)
  }

  const BACKSLASH: bv8 := 92

  /** The bytes of a string literal, with its escapes replaced. */
  function Unescape(raw: seq<bv8>): seq<bv8> {
    if raw == [] then []
    else if raw[0] == BACKSLASH && |raw| > 1 then
      (if raw[1] == 110 then [10]
       else if raw[1] == 116 then [9]
       else if raw[1] == BACKSLASH then [BACKSLASH]
       else if raw[1] == 34 then [34]
       else [BACKSLASH, raw[1]]) + Unescape(raw[2..])
    else [raw[0]] + Unescape(raw[1..])
  }

  /** A text as it has to be written between quotes. */
  function Escape(text: seq<bv8>): seq<bv8> {
    if text == [] then []
    else
      (if text[0] == 10 then [BACKSLASH, 110]
       else if text[0] == 9 then [BACKSLASH, 116]
       else if text[0] == BACKSLASH then [BACKSLASH, BACKSLASH]
       else if text[0] == 34 then [BACKSLASH, 34]
       else [text[0]]) + Escape(text[1..])
  }

  /** Every text has a literal that stands for it. */
  lemma {:induction false} UnescapeEscape(text: seq<bv8>)
    ensures Unescape(Escape(text)) == text
  {
    if text != [] {
      UnescapeEscape(text[1..]);
      var rest := Escape(text[1..]);
      if text[0] == 10 || text[0] == 9 || text[0] == BACKSLASH || text[0] == 34 {
        assert Escape(text)[2..] == rest;
      } else {
        assert Escape(text)[1..] == rest;
      }
      assert text == [text[0]] + text[1..];
    }
  }

  function Ascii(c: char): bv8
    requires c as int < 128
  {
    c as int as bv8
  }

  function Escaped(c: char): seq<bv8>
    requires c as int < 128
  {
    match c
    case 'n' => [10]
    case 't' => [9]
    case '\\' => [92]
    case '"' => [34]
    case _ => [92, Ascii(c)]
  }

  lemma AsciiDiffers(c: char)
    requires c as int < 128
    ensures Ascii(c) == 110 <==> c == 'n'
    ensures Ascii(c) == 116 <==> c == 't'
    ensures Ascii(c) == 92 <==> c == '\\'
    ensures Ascii(c) == 34 <==> c == '"'
  {
  }

  /** A backslash takes the next character with it: n is a line feed, t a tab, backslash and quote are
      themselves, and any other pair is kept. Everything else is itself. */
  lemma EscapesExactly(c: char, rest: seq<bv8>)
    requires c as int < 128
    ensures Unescape([Ascii('\\'), Ascii(c)] + rest) == Escaped(c) + Unescape(rest)
    ensures c != '\\' ==> Unescape([Ascii(c)] + rest) == [Ascii(c)] + Unescape(rest)
  {
    AsciiDiffers(c);
    AsciiDiffers('\\');
    hide Ascii;
    var pair, single := [Ascii('\\'), Ascii(c)] + rest, [Ascii(c)] + rest;
    assert pair[2..] == rest && single[1..] == rest;
  }
}
