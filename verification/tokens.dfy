/** The tokens of the lexer, and the pure tests it makes on the bytes ahead. */
module Tokens {
  import opened LexText

  datatype Kind =
    | EOF | ERROR | TEXT | OPEN_INTERP | CLOSE_INTERP | STMT | BLOCK_OPEN | BLOCK_CLOSE | STMT_END | VERBATIM
    | NAME | INT | FLOAT | STRING | TRUE | FALSE | NULL | DOT | OPTDOT | COMMA | COLON | LPAREN | RPAREN
    | LBRACKET | RBRACKET | LBRACE | RBRACE | OPTBRACK | PIPE | ARROW | TYPEARROW | ASSIGN | EQ | NE | LT | GT
    | LE | GE | SPACESHIP | PLUS | MINUS | STAR | POW | SLASH | FLOORDIV | PERCENT | TILDE | RANGE | SPREAD
    | QUESTION | COALESCE | ELVIS | BANG | AMP | CARET | ANDAND | OROR | BITOR3

  datatype Trim = NoTrim | HardTrim | LineTrim | KeepTrim

  datatype Token = Token(kind: Kind, text: string, line: nat, col: nat, trimL: Trim, trimR: Trim)

  // ----- streams -----

  predicate Clean(ts: seq<Token>) { forall i :: 0 <= i < |ts| ==> ts[i].kind != EOF && ts[i].kind != ERROR }

  // One ERROR, the last token.
  predicate Faulted(ts: seq<Token>) {
    ts != [] && ts[|ts| - 1].kind == ERROR && forall i :: 0 <= i < |ts| - 1 ==> ts[i].kind != EOF && ts[i].kind != ERROR
  }

  predicate Appended(a: seq<Token>, b: seq<Token>) { |a| <= |b| && forall i :: 0 <= i < |a| ==> b[i] == a[i] }

  predicate Holds(ts: seq<Token>, from: nat, kind: Kind) { exists i :: from <= i < |ts| && ts[i].kind == kind }

  // A run of text as tokens: none when it is empty.
  function TextTokens(text: string, line: nat, col: nat): seq<Token> {
    if text == "" then [] else [Token(TEXT, text, line, col, NoTrim, NoTrim)]
  }

  // The position of the byte after s.
  function Place(s: string): (nat, nat) {
    if s == "" then (1, 1)
    else
      var p := Place(s[..|s| - 1]);
      if s[|s| - 1] == '\n' then (p.0 + 1, 1) else (p.0, p.1 + 1)
  }

  // ----- operators -----

  // An operator: its kind, its length, and the change of bracket depth.
  datatype Op = Op(kind: Kind, len: nat, depth: int) | NoOp

  predicate Has(s: string, p: string) { |p| <= |s| && s[..|p|] == p }

  // Maximal munch.
  function Operator(s: string): (o: Op)
    requires s != ""
    ensures o.Op? ==> 1 <= o.len <= |s| && o.kind != EOF && o.kind != ERROR && -1 <= o.depth <= 1
  {
    match s[0]
    case '(' => Op(LPAREN, 1, 1)
    case ')' => Op(RPAREN, 1, -1)
    case '[' => Op(LBRACKET, 1, 1)
    case ']' => Op(RBRACKET, 1, -1)
    case '{' => Op(LBRACE, 1, 1)
    case '}' => Op(RBRACE, 1, -1)
    case '.' => if Has(s, "...") then Op(SPREAD, 3, 0) else if Has(s, "..") then Op(RANGE, 2, 0) else Op(DOT, 1, 0)
    case ',' => Op(COMMA, 1, 0)
    case ':' => Op(COLON, 1, 0)
    case '|' => if Has(s, "|||") then Op(BITOR3, 3, 0) else if Has(s, "||") then Op(OROR, 2, 0) else Op(PIPE, 1, 0)
    case '=' => if Has(s, "==") then Op(EQ, 2, 0) else if Has(s, "=>") then Op(ARROW, 2, 0) else Op(ASSIGN, 1, 0)
    case '!' => if Has(s, "!=") then Op(NE, 2, 0) else Op(BANG, 1, 0)
    case '<' => if Has(s, "<=>") then Op(SPACESHIP, 3, 0) else if Has(s, "<=") then Op(LE, 2, 0) else Op(LT, 1, 0)
    case '>' => if Has(s, ">=") then Op(GE, 2, 0) else Op(GT, 1, 0)
    case '+' => Op(PLUS, 1, 0)
    case '-' => if Has(s, "->") then Op(TYPEARROW, 2, 0) else Op(MINUS, 1, 0)
    case '*' => if Has(s, "**") then Op(POW, 2, 0) else Op(STAR, 1, 0)
    case '/' => if Has(s, "//") then Op(FLOORDIV, 2, 0) else Op(SLASH, 1, 0)
    case '%' => Op(PERCENT, 1, 0)
    case '~' => Op(TILDE, 1, 0)
    case '?' =>
      if Has(s, "??") then Op(COALESCE, 2, 0)
      else if Has(s, "?:") then Op(ELVIS, 2, 0)
      else if Has(s, "?.") then Op(OPTDOT, 2, 0)
      else if Has(s, "?[") then Op(OPTBRACK, 2, 1)
      else Op(QUESTION, 1, 0)
    case '&' => if Has(s, "&&") then Op(ANDAND, 2, 0) else Op(AMP, 1, 0)
    case '^' => Op(CARET, 1, 0)
    case _ => NoOp
  }

  function WordKind(w: string): Kind {
    if w == "true" then TRUE else if w == "false" then FALSE else if w == "null" || w == "none" then NULL else NAME
  }

  // ----- trims -----

  const LINE_WS: set<char> := {' ', '\t', '\0', '\U{B}'}
  const HARD_WS: set<char> := LINE_WS + {'\n', '\r'}

  function DropLeft(s: string, ws: set<char>): string { if s != "" && s[0] in ws then DropLeft(s[1..], ws) else s }

  function DropRight(s: string, ws: set<char>): string {
    if s != "" && s[|s| - 1] in ws then DropRight(s[..|s| - 1], ws) else s
  }

  function TrimLeft(s: string, mode: Trim): string {
    if mode == HardTrim then DropLeft(s, HARD_WS) else if mode == LineTrim then DropLeft(s, LINE_WS) else s
  }

  function TrimRight(s: string, mode: Trim): string {
    if mode == HardTrim then DropRight(s, HARD_WS) else if mode == LineTrim then DropRight(s, LINE_WS) else s
  }

  predicate Closing(k: Kind) { k == CLOSE_INTERP || k == BLOCK_OPEN || k == BLOCK_CLOSE }

  function LeftOf(ts: seq<Token>, i: nat): Token
    requires i < |ts|
  {
    if ts[i].kind == TEXT && i > 0 && Closing(ts[i - 1].kind) then ts[i].(text := TrimLeft(ts[i].text, ts[i - 1].trimR))
    else ts[i]
  }

  // A text between its delimiters: trimmed on the left by the one before, on the right by an
  // interpolation after.
  function Trimmed(ts: seq<Token>, i: nat): Token
    requires i < |ts|
  {
    var t := LeftOf(ts, i);
    if t.kind == TEXT && i + 1 < |ts|
        && ts[i + 1].kind == OPEN_INTERP then t.(text := TrimRight(t.text, ts[i + 1].trimL))
    else t
  }

  // ----- looking ahead for a mapping literal -----

  function SkipString(s: string, i: nat, quote: char): nat
    decreases |s| - i
  {
    if i >= |s| then i
    else if quote != '`' && s[i] == '\\' && i + 1 < |s| then SkipString(s, i + 2, quote)
    else if s[i] == quote then i + 1
    else SkipString(s, i + 1, quote)
  }

  // Whether the braces s begins inside of, at this depth, hold a mapping literal.
  function MapFrom(s: string, i: nat, depth: nat): bool
    requires depth > 0
    decreases |s| - i
  {
    if i >= |s| then false
    else
      var c := s[i];
      if c in {'{', '(', '['} then MapFrom(s, i + 1, depth + 1)
      else if c in {'}', ')', ']'} then if depth == 1 then AssignFollows(s, i + 1) else MapFrom(s, i + 1, depth - 1)
      else if c in {'\'', '"', '`'} then
        if SkipString(s, i + 1, c) > i then MapFrom(s, SkipString(s, i + 1, c), depth) else false
      else if c == ':' && depth == 1 then true
      else if depth == 1 && Has(s[i..], "...") then true
      else if c == '\n' then false
      else MapFrom(s, i + 1, depth)
  }

  function AfterHorizontal(s: string, i: nat): nat
    decreases |s| - i
  {
    if i < |s| && Horizontal(s[i]) then AfterHorizontal(s, i + 1) else i
  }

  function AssignFollows(s: string, i: nat): bool {
    var j := AfterHorizontal(s, i);
    j < |s| && s[j] == '=' && (j + 1 >= |s| || s[j + 1] != '=')
  }

  function Ungrouped(s: string): string {
    if s == "" then "" else (if s[0] == '_' then [] else [s[0]]) + Ungrouped(s[1..])
  }
}
