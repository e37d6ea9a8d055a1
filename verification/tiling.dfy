/** What a token stream says of its source: the tokens and the bytes dropped between them cover the source
    in order, each piece in the mode it stands in, and every token carries what its own bytes spell. */
module Tiling {
  import opened LexText
  import opened Tokens

  // ----- spellings -----

  // The operators and punctuation of code; other kinds have no fixed spelling.
  function Spelling(k: Kind): string {
    match k
    case LPAREN => "(" case RPAREN => ")" case LBRACKET => "[" case RBRACKET => "]" case LBRACE => "{"
    case RBRACE => "}" case COMMA => "," case COLON => ":" case DOT => "." case OPTDOT => "?." case OPTBRACK => "?["
    case SPREAD => "..." case RANGE => ".." case PIPE => "|" case OROR => "||" case BITOR3 => "|||"
    case ASSIGN => "=" case EQ => "==" case ARROW => "=>" case TYPEARROW => "->" case BANG => "!" case NE => "!="
    case LT => "<" case LE => "<=" case SPACESHIP => "<=>" case GT => ">" case GE => ">="
    case PLUS => "+" case MINUS => "-" case STAR => "*" case POW => "**" case SLASH => "/" case FLOORDIV => "//"
    case PERCENT => "%" case TILDE => "~" case AMP => "&" case ANDAND => "&&" case CARET => "^"
    case QUESTION => "?" case COALESCE => "??" case ELVIS => "?:"
    case _ => ""
  }

  // The bytes begin with the operator's spelling and with no longer one.
  ghost predicate Longest(s: string, k: Kind) {
    && Spelling(k) != "" && Has(s, Spelling(k))
    && forall o: Kind :: Spelling(o) != "" && Has(s, Spelling(o)) ==> |Spelling(o)| <= |Spelling(k)|
  }

  predicate Opens(k: Kind) { k in {LPAREN, LBRACKET, LBRACE, OPTBRACK} }

  predicate Closes(k: Kind) { k in {RPAREN, RBRACKET, RBRACE} }

  // The bracket depth after an operator; a closer with nothing to close changes nothing.
  function Deepened(depth: nat, k: Kind): nat {
    if Opens(k) then depth + 1 else if Closes(k) && depth > 0 then depth - 1 else depth
  }

  lemma SpellingShort(k: Kind)
    ensures |Spelling(k)| <= 3
  {
  }

  // A spelling that begins the bytes begins with their first byte, and continues with the next ones.
  lemma HasBytes(s: string, p: string)
    requires Has(s, p) && p != ""
    ensures p[0] == s[0] && (|p| > 1 ==> p[1] == s[1]) && (|p| > 2 ==> p[2] == s[2])
  {
    assert s[..|p|][0] == s[0];
    if |p| > 1 { assert s[..|p|][1] == s[1]; }
    if |p| > 2 { assert s[..|p|][2] == s[2]; }
  }

  // The first bytes that begin a comparison, a dot or a bar, and those of the other longer operators.
  const COMPARING: set<char> := {'.', '|', '=', '!', '<', '>'}
  const COMBINING: set<char> := {'-', '*', '/', '&'}

  lemma ComparingLength(s: string)
    requires s != "" && s[0] in COMPARING
    ensures Operator(s).Op? && Spelling(Operator(s).kind) != "" && Operator(s).len == |Spelling(Operator(s).kind)|
  {
  }

  lemma CombiningLength(s: string)
    requires s != "" && s[0] in COMBINING
    ensures Operator(s).Op? && Spelling(Operator(s).kind) != "" && Operator(s).len == |Spelling(Operator(s).kind)|
  {
  }

  lemma QueryLength(s: string)
    requires s != "" && s[0] == '?'
    ensures Operator(s).Op? && Spelling(Operator(s).kind) != "" && Operator(s).len == |Spelling(Operator(s).kind)|
    ensures Operator(s).len > 1 ==> Has(s, Spelling(Operator(s).kind))
  {
  }

  lemma SingleLength(s: string)
    requires s != "" && s[0] !in COMPARING + COMBINING + {'?'} && Operator(s).Op?
    ensures Spelling(Operator(s).kind) == [s[0]] && Operator(s).len == 1
  {
  }

  lemma OperatorLength(s: string)
    requires s != "" && Operator(s).Op?
    ensures Spelling(Operator(s).kind) != "" && Operator(s).len == |Spelling(Operator(s).kind)|
  {
    if s[0] in COMPARING { ComparingLength(s); }
    else if s[0] in COMBINING { CombiningLength(s); }
    else if s[0] == '?' { QueryLength(s); }
    else { SingleLength(s); }
  }

  lemma OperatorFirst(s: string)
    requires s != "" && Operator(s).Op? && Operator(s).len == 1
    ensures Spelling(Operator(s).kind) == [s[0]]
  {
  }

  lemma OperatorTurns(s: string)
    requires s != "" && Operator(s).Op?
    ensures var o := Operator(s); o.depth == if Opens(o.kind) then 1 else if Closes(o.kind) then -1 else 0
  {
  }

  lemma ComparingHas(s: string)
    requires s != "" && s[0] in COMPARING && Operator(s).Op? && Operator(s).len > 1
    ensures Has(s, Spelling(Operator(s).kind))
  {
  }

  lemma CombiningHas(s: string)
    requires s != "" && s[0] in COMBINING && Operator(s).Op? && Operator(s).len > 1
    ensures Has(s, Spelling(Operator(s).kind))
  {
  }

  lemma OperatorHas(s: string)
    requires s != "" && Operator(s).Op? && Operator(s).len > 1
    ensures Has(s, Spelling(Operator(s).kind))
  {
    if s[0] in COMPARING { ComparingHas(s); }
    else if s[0] in COMBINING { CombiningHas(s); }
    else if s[0] == '?' { QueryLength(s); }
    else { SingleLength(s); }
  }

  lemma OperatorOwn(s: string)
    requires s != "" && Operator(s).Op?
    ensures var o := Operator(s);
      && Spelling(o.kind) != "" && Has(s, Spelling(o.kind)) && o.len == |Spelling(o.kind)|
      && o.depth == if Opens(o.kind) then 1 else if Closes(o.kind) then -1 else 0
  {
    OperatorLength(s);
    OperatorTurns(s);
    if Operator(s).len == 1 {
      OperatorFirst(s);
      assert s[..1] == [s[0]];
    } else {
      OperatorHas(s);
    }
  }

  lemma OperatorBeats(s: string, k: Kind)
    requires s != "" && Spelling(k) != "" && Has(s, Spelling(k))
    ensures Operator(s).Op? && |Spelling(k)| <= Operator(s).len
  {
    var p := Spelling(k);
    SpellingShort(k);
    HasBytes(s, p);
    if |p| == 2 { TwoBytes(s, k); } else if |p| == 3 { ThreeBytes(s, k); } else { OneByte(s, k); }
  }

  lemma OneByte(s: string, k: Kind)
    requires s != "" && |Spelling(k)| == 1 && s[0] == Spelling(k)[0]
    ensures Operator(s).Op?
  {
  }

  lemma TwoBytes(s: string, k: Kind)
    requires |s| >= 2 && |Spelling(k)| == 2 && Has(s, Spelling(k)) && s[0] == Spelling(k)[0]
    ensures Operator(s).Op? && 2 <= Operator(s).len
  {
  }

  lemma ThreeBytes(s: string, k: Kind)
    requires |s| >= 3 && |Spelling(k)| == 3 && Has(s, Spelling(k)) && s[0] == Spelling(k)[0]
    ensures Operator(s).Op? && 3 <= Operator(s).len
  {
  }

  // The operator found at some bytes is the one with the longest spelling there; there is none when no
  // spelling begins them.
  lemma OperatorSpells(s: string)
    requires s != ""
    ensures var o := Operator(s);
      && (o.Op? ==> Longest(s, o.kind) && o.len == |Spelling(o.kind)|
                    && o.depth == if Opens(o.kind) then 1 else if Closes(o.kind) then -1 else 0)
      && (o.NoOp? ==> forall k: Kind :: Spelling(k) != "" ==> !Has(s, Spelling(k)))
  {
    if Operator(s).Op? { OperatorOwn(s); }
    forall k: Kind | Spelling(k) != "" && Has(s, Spelling(k))
      ensures Operator(s).Op? && |Spelling(k)| <= Operator(s).len
    {
      OperatorBeats(s, k);
    }
  }

  // ----- words -----

  const CONTROL: set<string> := {"if", "elseif", "else", "for", "do", "with", "apply", "guard", "sandbox"}
  const COMPOSITION: set<string> :=
    {"extends", "block", "use", "include", "embed", "import", "from", "macro", "call", "provide", "yield"}
  const OUTPUT: set<string> := {"set", "capture", "cache", "escape", "verbatim", "tab", "line", "flush", "log"}
  const DECLARATIONS: set<string> := {"types", "deprecated"}

  // The statement keywords, by what they are for.
  lemma KeywordsAre(w: string)
    ensures w in KEYWORDS <==> w in CONTROL + COMPOSITION + OUTPUT + DECLARATIONS
  {
  }

  // The literals spelled as words, and the name for every other.
  predicate WordIsKind(w: string, k: Kind) {
    && (k == TRUE <==> w == "true") && (k == FALSE <==> w == "false") && (k == NULL <==> w in {"null", "none"})
    && k in {TRUE, FALSE, NULL, NAME}
  }

  // A word from i to j, not continued.
  predicate WordAt(src: string, i: nat, j: nat) {
    && i < j <= |src| && IdentStart(src[i]) && (forall k :: i <= k < j ==> WordByte(src[k]))
    && (j < |src| ==> !WordByte(src[j]))
  }

  // ----- numbers -----

  // Digits and separators, up to a byte that is neither.
  predicate DigitRun(src: string, i: nat, j: nat) {
    && i <= j <= |src| && (forall k :: i <= k < j ==> Digit(src[k]) || src[k] == '_')
    && (j < |src| ==> !Digit(src[j]) && src[j] != '_')
  }

  predicate Based(src: string, i: nat) {
    i + 1 < |src| && src[i] == '0' && src[i + 1] in {'x', 'X', 'b', 'B', 'o', 'O'}
  }

  predicate BasedAt(src: string, i: nat, j: nat) {
    && i + 2 <= j <= |src| && (forall k :: i + 2 <= k < j ==> HexDigit(src[k]) || src[k] == '_')
    && (j < |src| ==> !HexDigit(src[j]) && src[j] != '_')
  }

  // A fraction, when a digit follows the point.
  predicate FractionAt(src: string, i: nat, j: nat) {
    if i + 1 < |src| && src[i] == '.' && Digit(src[i + 1]) then i + 1 < j && DigitRun(src, i + 1, j) else j == i
  }

  function ExponentDigits(src: string, i: nat): nat {
    if i + 1 < |src| && src[i + 1] in {'+', '-'} then i + 2 else i + 1
  }

  // An exponent, when digits follow it and its sign.
  predicate ExponentAt(src: string, i: nat, j: nat) {
    if i < |src| && src[i] in {'e', 'E'} && ExponentDigits(src, i) < |src| && Digit(src[ExponentDigits(src, i)]) then
      ExponentDigits(src, i) < j && DigitRun(src, ExponentDigits(src, i), j)
    else j == i
  }

  // A number: an integer in a base, or a decimal that is a float exactly with a fraction or an exponent.
  ghost predicate NumberAt(src: string, i: nat, j: nat, k: Kind) {
    && i < j <= |src| && Digit(src[i])
    && (if Based(src, i) then k == INT && BasedAt(src, i, j)
        else
          exists a, b :: i < a <= b <= j && DigitRun(src, i, a) && FractionAt(src, a, b) && ExponentAt(src, b, j)
                         && k == if a == j then INT else FLOAT)
  }

  // ----- strings -----

  // The end of the braces a segment begins inside of.
  function BraceEnd(src: string, i: nat, braces: nat): (j: nat)
    ensures j >= i && (i <= |src| ==> j <= |src|)
    decreases |src| - i
  {
    if i >= |src| || braces == 0 then i
    else if src[i] == '{' then BraceEnd(src, i + 1, braces + 1)
    else if src[i] == '}' then BraceEnd(src, i + 1, braces - 1)
    else BraceEnd(src, i + 1, braces)
  }

  // The end of the literal whose body goes on at i, or a place past the source when it has none: an escape
  // hides a quote outside raw strings, and an embedded segment hides its quotes in double-quoted ones.
  function StringEnd(src: string, i: nat, quote: char): nat
    decreases |src| - i
  {
    if i >= |src| then |src| + 1
    else if src[i] == quote then i + 1
    else if quote != '`' && src[i] == '\\' && i + 1 < |src| then StringEnd(src, i + 2, quote)
    else if quote == '"' && src[i] == '#' && i + 1 < |src| && src[i + 1] == '{' then
      StringEnd(src, BraceEnd(src, i + 2, 1), quote)
    else StringEnd(src, i + 1, quote)
  }

  // ----- where a code region ends -----

  predicate MapAt(src: string, i: nat)
    requires i < |src|
  {
    var j := AfterHorizontal(src, i + 1);
    j < |src| && (src[j] == '}' || MapFrom(src, j, 1))
  }

  // How many bytes a closing trim takes at i, and the trim.
  function CloseTrimAt(src: string, i: nat): (nat, Trim) {
    if i >= |src| then (0, NoTrim)
    else if src[i] == '-' then (1, HardTrim)
    else if src[i] == '~' then (1, LineTrim)
    else if src[i] == '+' then (1, KeepTrim)
    else (0, NoTrim)
  }

  function OpenTrimAt(src: string, i: nat): (nat, Trim) {
    if i < |src| && src[i] == '+' then (0, NoTrim) else CloseTrimAt(src, i)
  }

  predicate Two(src: string, i: nat, a: char, b: char) { i + 1 < |src| && src[i] == a && src[i + 1] == b }

  // An interpolation's closer, or a statement head's end.
  predicate StopsAt(src: string, i: nat, interp: bool) {
    if interp then Two(src, i + CloseTrimAt(src, i).0, '}', '}')
    else i >= |src| || src[i] == '\n' || (src[i] == '{' && !MapAt(src, i))
  }

  // ----- text -----

  // What a run of text reads as, and whether it ends at a line start; a door in it breaks it off.
  datatype Reading = Reads(text: string, atStart: bool) | Opened

  function Before(c: char, r: Reading): Reading { if r.Reads? then Reads([c] + r.text, r.atStart) else r }

  function TextRun(src: string, i: nat, j: nat, atStart: bool): Reading
    requires i <= j <= |src|
    decreases j - i, 0
  {
    if i == j then Reads("", atStart)
    else if DoorAt(src[i..], atStart) != NoDoor then Opened
    else if EscapeAt(src[i..]) then if i + 2 <= j then Before(src[i + 1], Passage(src, i + 2, j, atStart)) else Opened
    else Before(src[i], Passage(src, i + 1, j, NextStart(src[i], atStart)))
  }

  // The same reading as one fact, where nothing of it is taken apart.
  function Passage(src: string, i: nat, j: nat, atStart: bool): Reading
    requires i <= j <= |src|
    decreases j - i, 1
  {
    TextRun(src, i, j, atStart)
  }

  function Joined(a: Reading, b: Reading): Reading {
    if a.Reads? && b.Reads? then Reads(a.text + b.text, b.atStart) else Opened
  }

  lemma BeforeJoined(c: char, a: Reading, b: Reading)
    ensures Before(c, Joined(a, b)) == Joined(Before(c, a), b)
  {
    if a.Reads? && b.Reads? { assert [c] + (a.text + b.text) == ([c] + a.text) + b.text; }
  }

  // A run goes on from where it is.
  lemma {:induction false} RunOn(src: string, i: nat, k: nat, j: nat, atStart: bool)
    requires i <= k <= j <= |src| && TextRun(src, i, k, atStart).Reads?
    ensures var a := TextRun(src, i, k, atStart);
      TextRun(src, i, j, atStart) == Joined(a, TextRun(src, k, j, a.atStart))
    decreases k - i
  {
    var b := TextRun(src, k, j, TextRun(src, i, k, atStart).atStart);
    if i == k {
      assert b.Reads? ==> "" + b.text == b.text;
    } else if EscapeAt(src[i..]) {
      RunOn(src, i + 2, k, j, atStart);
      BeforeJoined(src[i + 1], TextRun(src, i + 2, k, atStart), b);
    } else {
      RunOn(src, i + 1, k, j, NextStart(src[i], atStart));
      BeforeJoined(src[i], TextRun(src, i + 1, k, NextStart(src[i], atStart)), b);
    }
  }

  lemma PassageOn(src: string, i: nat, k: nat, j: nat, a: Reading, b: Reading, atStart: bool)
    requires i <= k <= j <= |src| && a == Passage(src, i, k, atStart) && a.Reads?
    requires b == Passage(src, k, j, a.atStart) && b.Reads?
    ensures Passage(src, i, j, atStart) == Reads(a.text + b.text, b.atStart)
  {
    RunOn(src, i, k, j, atStart);
  }

  // What a run drops with the indentation of a statement: its bytes are blanks and escapes.
  lemma {:induction false} LeadBytes(src: string, i: nat, k: nat, atStart: bool)
    requires i <= k <= |src| && TextRun(src, i, k, atStart).Reads? && TextRun(src, i, k, atStart).atStart
    requires '\n' !in src[i..k]
    ensures var t := TextRun(src, i, k, atStart).text;
      (forall c :: c in t ==> Horizontal(c)) <==> '\\' !in src[i..k]
    decreases k - i
  {
    if i < k {
      assert src[i..k][0] == src[i];
      if EscapeAt(src[i..]) {
        assert src[i..k][2..] == src[i + 2..k] && src[i..k][0] == '\\';
        var t := TextRun(src, i, k, atStart).text;
        assert t[0] == src[i + 1] && !Horizontal(t[0]) && '\\' in src[i..k];
      } else {
        var next := NextStart(src[i], atStart);
        assert src[i..k] == [src[i]] + src[i + 1..k];
        NeverAgain(src, i + 1, k, next);
        LeadBytes(src, i + 1, k, next);
        assert TextRun(src, i, k, atStart).text == [src[i]] + TextRun(src, i + 1, k, next).text;
      }
    }
  }

  // Once a line has begun with something, it takes a newline to be at its start again.
  lemma {:induction false} NeverAgain(src: string, i: nat, k: nat, atStart: bool)
    requires i <= k <= |src| && '\n' !in src[i..k]
    requires TextRun(src, i, k, atStart).Reads? && TextRun(src, i, k, atStart).atStart
    ensures atStart
    decreases k - i
  {
    if i < k {
      assert src[i..k][0] == src[i];
      if EscapeAt(src[i..]) {
        assert src[i..k][2..] == src[i + 2..k];
        NeverAgain(src, i + 2, k, atStart);
      } else {
        assert src[i..k][1..] == src[i + 1..k];
        NeverAgain(src, i + 1, k, NextStart(src[i], atStart));
      }
    }
  }

  // An escaped brace before a keyword is dropped with the blanks before it.
  lemma EscapeDropped(rest: string)
    requires rest != "" ==> !WordByte(rest[0])
    ensures var src := "\\{@if" + rest;
      && TextRun(src, 0, 2, true) == Reads("{", true) && DoorAt(src[2..], true) == StmtDoor
  {
    var src := "\\{@if" + rest;
    assert src[0..] == src && src[2..][0] == '@' && src[2..][1..] == "if" + rest;
    WordIs("if" + rest, 2);
    assert EscapeAt(src) && DoorAt(src, true) == NoDoor;
    assert TextRun(src, 2, 2, true) == Reads("", true);
  }

  // ----- verbatim -----

  // The @} that balances the brace a verbatim body begins inside of, or a place past the source.
  function BodyEnd(src: string, i: nat, depth: int): nat
    decreases |src| - i
  {
    if i >= |src| then |src| + 1
    else if depth == 1 && Two(src, i, '@', '}') then i
    else BodyEnd(src, i + 1, if src[i] == '{' then depth + 1 else if src[i] == '}' then depth - 1 else depth)
  }

  function LineEndAt(src: string, i: nat): (j: nat)
    ensures i <= j && (i <= |src| ==> j <= |src| && (forall k :: i <= k < j ==> src[k] != '\n'))
    ensures i <= |src| ==> j == |src| || src[j] == '\n'
    decreases |src| - i
  {
    if i >= |src| || src[i] == '\n' then i else LineEndAt(src, i + 1)
  }

  const FENCE_WS: set<char> := {' ', '\t', '\r'}

  // The first line from i on that reads as the fence but for blanks at its end, or a place past the source.
  function FenceLine(src: string, i: nat, fence: string): nat
    decreases |src| - i
  {
    if i >= |src| then |src| + 1
    else if DropRight(src[i..LineEndAt(src, i)], FENCE_WS) == fence then i
    else FenceLine(src, LineEndAt(src, i) + 1, fence)
  }

  // One newline eaten at i, if it is there.
  function Eaten(src: string, i: nat): nat { if i < |src| && src[i] == '\n' then i + 1 else i }

  // ----- pieces -----

  // Where a piece stands: in text, at a line start or not; in code, at a bracket depth; or on the way
  // through a verbatim region or to a continuation after a block close.
  datatype Mode =
    | InText(atStart: bool)
    | InCode(interp: bool, depth: nat)
    | InVerbatim
    | InBraces
    | InClose
    | Rejoining

  // A stretch of the source with its token, or with none when its bytes are dropped.
  datatype Piece = Piece(from: nat, to: nat, mode: Mode, toks: seq<Token>)

  ghost predicate At(t: Token, src: string, i: nat) { i <= |src| && (t.line, t.col) == Place(src[..i]) }

  predicate Untrimmed(t: Token) { t.trimL == NoTrim && t.trimR == NoTrim }

  // Blanks and comments of code.
  ghost predicate CodeSkip(src: string, i: nat, j: nat) {
    && i < j <= |src|
    && (if src[i] == '#' then j == LineEndAt(src, i) else j == i + 1 && src[i] in {' ', '\t', '\r', '\n'})
  }

  // A text comment up to its first closer, and the newline or the keep mark after it.
  ghost predicate Comment(src: string, i: nat, j: nat, m: Mode) {
    Two(src, i, '{', '#') && exists k :: CommentEnds(src, i, k) && AfterComment(src, k, j, m)
  }

  predicate AfterComment(src: string, k: nat, j: nat, m: Mode) {
    var kept, newline := k + 2 < |src| && src[k + 2] == '+', k + 2 < |src| && src[k + 2] == '\n';
    j == (if kept || newline then k + 3 else k + 2) && m == InText(newline)
  }

  ghost predicate CommentEnds(src: string, i: nat, k: nat) {
    i + 2 <= k && Two(src, k, '#', '}') && forall q :: i + 2 <= q < k ==> !Two(src, q, '#', '}')
  }

  // Bytes dropped without a token.
  ghost predicate Skips(src: string, m: Mode, i: nat, j: nat, n: Mode) {
    match m
    case InText(_) => Comment(src, i, j, n)
    case InCode(interp, depth) => n == m && !(depth == 0 && StopsAt(src, i, interp)) && CodeSkip(src, i, j)
    case InVerbatim => n == m && i < |src| && j == i + 1 && Horizontal(src[i])
    case _ => false
  }

  // A token of code and what its own bytes spell.
  ghost predicate Codes(src: string, m: Mode, i: nat, j: nat, t: Token, n: Mode) {
    && m.InCode? && i < j <= |src| && !(m.depth == 0 && StopsAt(src, i, m.interp)) && At(t, src, i) && Untrimmed(t)
    && (if t.kind in {NAME, TRUE, FALSE, NULL} then
          n == m && WordAt(src, i, j) && t.text == src[i..j] && WordIsKind(t.text, t.kind)
        else if t.kind in {INT, FLOAT} then n == m && NumberAt(src, i, j, t.kind) && t.text == Ungrouped(src[i..j])
        else if t.kind == STRING then
          n == m && src[i] in {'\'', '"', '`'} && j == StringEnd(src, i + 1, src[i]) && t.text == src[i..j]
        else
          && Longest(src[i..], t.kind) && j == i + |Spelling(t.kind)| && t.text == ""
          && n == InCode(m.interp, Deepened(m.depth, t.kind)))
  }

  // A statement or block close in text: blanks and escapes of its own line, then its head at k.
  ghost predicate Leads(src: string, m: Mode, i: nat, k: nat) {
    && m.InText? && i <= k <= |src| && Passage(src, i, k, m.atStart).Reads? && Passage(src, i, k, m.atStart).atStart
    && '\n' !in src[i..k]
  }

  // Blanks up to a continuation keyword.
  predicate Blanks(src: string, i: nat, k: nat) {
    i <= k <= |src| && forall q :: i <= q < k ==> Horizontal(src[q]) || src[q] == '\r'
  }

  // What follows a statement's keyword.
  function HeadMode(kw: string): Mode { if kw == "verbatim" then InVerbatim else InCode(false, 0) }

  // The keyword of a head at k, or of a continuation.
  ghost predicate HeadsAt(src: string, m: Mode, i: nat, j: nat, t: Token, n: Mode, k: nat) {
    && At(t, src, k)
    && (if m == Rejoining then
          Blanks(src, i, k) && t.text == Word(src[k..]) && t.text in {"elseif", "else"} && j == k + |t.text|
          && n == InCode(false, 0)
        else
          && Leads(src, m, i, k) && k < |src| && StatementAt(src[k..]) && t.text == Word(src[k + 1..])
          && j == k + 1 + |t.text| && n == HeadMode(t.text))
  }

  ghost predicate Heads(src: string, m: Mode, i: nat, j: nat, t: Token, n: Mode) {
    Untrimmed(t) && exists k :: HeadsAt(src, m, i, j, t, n, k)
  }

  // The brace that opens a body, with its trim, and the newline after it unless it is kept.
  ghost predicate BodyOpens(src: string, m: Mode, i: nat, j: nat, t: Token, n: Mode) {
    && (m == InCode(false, 0) || m == InVerbatim) && i < |src| && src[i] == '{' && At(t, src, i) && t.text == ""
    && (m.InCode? ==> StopsAt(src, i, false)) && t.trimL == NoTrim
    && var (w, trim) := CloseTrimAt(src, i + 1); var e := i + 1 + w;
       && t.trimR == trim && j == (if trim == KeepTrim then e else Eaten(src, e))
       && n == if m == InVerbatim then InBraces else InText(j > e)
  }

  // The blanks up to the end of a line, when there is nothing else on it, and its newline.
  predicate RestOfLine(src: string, e: nat, j: nat) {
    if e <= |src| && (forall q :: e <= q < LineEndAt(src, e) ==> Horizontal(src[q]) || src[q] == '\r') then
      j == Eaten(src, LineEndAt(src, e))
    else j == e
  }

  // The close of a body at k, with its trim: a continuation goes on from there, and otherwise the line
  // ends.
  ghost predicate ClosesAt(src: string, m: Mode, i: nat, j: nat, t: Token, n: Mode, k: nat) {
    && At(t, src, k) && Two(src, k, '@', '}')
    && (if m == InClose then k == i else Leads(src, m, i, k) && CloseAt(src[k..]))
    && var (w, trim) := CloseTrimAt(src, k + 2); var e := k + 2 + w;
       && e <= |src| && t.trimR == trim
       && (if m.InText? && ContinuationAt(SkipBlanks(src[e..])) then j == e && n == Rejoining
           else n == InText(true) && if trim == KeepTrim then j == e else RestOfLine(src, e, j))
  }

  ghost predicate BodyCloses(src: string, m: Mode, i: nat, j: nat, t: Token, n: Mode) {
    t.text == "" && t.trimL == NoTrim && exists k :: ClosesAt(src, m, i, j, t, n, k)
  }

  ghost predicate Copies(src: string, m: Mode, i: nat, j: nat, t: Token, n: Mode) {
    && Untrimmed(t)
    && (if m == InBraces then i <= j <= |src| && j == BodyEnd(src, i, 1) && t.text == src[i..j] && At(t, src, i)
        && n == InClose
        else
          && m == InVerbatim && i <= |src| && n == InText(true)
          && var fence := DropRight(src[i..LineEndAt(src, i)], FENCE_WS);
             var b := Eaten(src, LineEndAt(src, i));
             var c := FenceLine(src, b, fence);
             && fence != "" && b <= c <= |src| && t.text == src[b..c] && At(t, src, b)
             && j == Eaten(src, LineEndAt(src, c)))
  }

  ghost predicate Text(src: string, m: Mode, i: nat, j: nat, t: Token, n: Mode) {
    && m.InText? && i < j <= |src| && Passage(src, i, j, m.atStart).Reads?
    && n == InText(Passage(src, i, j, m.atStart).atStart)
    && t.text == Passage(src, i, j, m.atStart).text && At(t, src, i) && Untrimmed(t)
  }

  ghost predicate InterpOpens(src: string, m: Mode, i: nat, j: nat, t: Token, n: Mode) {
    && m.InText? && Two(src, i, '{', '{') && At(t, src, i) && t.text == "" && t.trimR == NoTrim
    && t.trimL == OpenTrimAt(src, i + 2).1 && j == i + 2 + OpenTrimAt(src, i + 2).0 && n == InCode(true, 0)
  }

  ghost predicate InterpCloses(src: string, m: Mode, i: nat, j: nat, t: Token, n: Mode) {
    && m == InCode(true, 0) && StopsAt(src, i, true) && t.text == "" && t.trimL == NoTrim
    && t.trimR == CloseTrimAt(src, i).1 && At(t, src, i + CloseTrimAt(src, i).0)
    && j == i + CloseTrimAt(src, i).0 + 2 && n == InText(false)
  }

  ghost predicate HeadEnds(src: string, m: Mode, i: nat, j: nat, t: Token, n: Mode) {
    && m.InCode? && !m.interp && (m.depth == 0 || i >= |src|) && StopsAt(src, i, false)
    && (i >= |src| || src[i] == '\n') && At(t, src, i)
    && t.text == "" && Untrimmed(t) && j == Eaten(src, i) && n == InText(j > i)
  }

  // The kinds with a place of their own outside code.
  predicate Placed(k: Kind) {
    k in {TEXT, OPEN_INTERP, CLOSE_INTERP, STMT, BLOCK_OPEN, STMT_END, BLOCK_CLOSE, VERBATIM}
  }

  // A piece with a token, by the token's kind.
  ghost predicate Carries(src: string, m: Mode, i: nat, j: nat, t: Token, n: Mode) {
    if t.kind.TEXT? then Text(src, m, i, j, t, n)
    else if t.kind.OPEN_INTERP? then InterpOpens(src, m, i, j, t, n)
    else if t.kind.CLOSE_INTERP? then InterpCloses(src, m, i, j, t, n)
    else if t.kind.STMT? then Heads(src, m, i, j, t, n)
    else if t.kind.BLOCK_OPEN? then BodyOpens(src, m, i, j, t, n)
    else if t.kind.STMT_END? then HeadEnds(src, m, i, j, t, n)
    else if t.kind.BLOCK_CLOSE? then BodyCloses(src, m, i, j, t, n)
    else if t.kind.VERBATIM? then Copies(src, m, i, j, t, n)
    else Codes(src, m, i, j, t, n)
  }

  ghost predicate Fits(src: string, p: Piece, n: Mode) {
    && p.from <= p.to <= |src|
    && if p.toks == [] then Skips(src, p.mode, p.from, p.to, n)
       else |p.toks| == 1 && Carries(src, p.mode, p.from, p.to, p.toks[0], n)
  }

  // ----- tilings -----

  // Pieces cover the source up to pos, one after another from its start, and carry the tokens.
  ghost predicate Tiled(src: string, pos: nat, m: Mode, out: seq<Token>)
    decreases pos + |out|, 1
  {
    (pos == 0 && m == InText(true) && out == []) || exists p :: EndsIn(src, p, pos, m, out)
  }

  // The last of the pieces; it takes a byte of the source or has a token.
  ghost predicate EndsIn(src: string, p: Piece, pos: nat, m: Mode, out: seq<Token>)
    decreases pos + |out|, 0
  {
    && p.to == pos && Fits(src, p, m) && |p.toks| <= |out| && out[|out| - |p.toks|..] == p.toks
    && (p.from < p.to || p.toks != [])
    && Tiled(src, p.from, p.mode, out[..|out| - |p.toks|])
  }

  lemma NoneTiled(src: string)
    ensures Tiled(src, 0, InText(true), [])
  {
  }

  lemma Lay(src: string, pos: nat, m: Mode, out: seq<Token>, to: nat, toks: seq<Token>, n: Mode)
    requires Tiled(src, pos, m, out) && Fits(src, Piece(pos, to, m, toks), n) && (pos < to || toks != [])
    ensures Tiled(src, to, n, out + toks)
  {
    var all := out + toks;
    assert all[|all| - |toks|..] == toks && all[..|all| - |toks|] == out;
    assert EndsIn(src, Piece(pos, to, m, toks), to, n, all);
  }

  // ----- laying one piece -----

  lemma LayText(src: string, pos: nat, m: Mode, out: seq<Token>, to: nat, t: Token, n: Mode)
    requires Tiled(src, pos, m, out) && pos <= to <= |src| && t.kind.TEXT? && Text(src, m, pos, to, t, n)
    ensures Tiled(src, to, n, out + [t])
  {
    Lay(src, pos, m, out, to, [t], n);
  }

  lemma LayInterp(src: string, pos: nat, m: Mode, out: seq<Token>, to: nat, t: Token, n: Mode)
    requires Tiled(src, pos, m, out) && pos <= to <= |src| && t.kind.OPEN_INTERP? && InterpOpens(src, m, pos, to, t, n)
    ensures Tiled(src, to, n, out + [t])
  {
    Lay(src, pos, m, out, to, [t], n);
  }

  lemma LayInterpEnd(src: string, pos: nat, m: Mode, out: seq<Token>, to: nat, t: Token, n: Mode)
    requires Tiled(src, pos, m, out) && pos <= to <= |src| && t.kind.CLOSE_INTERP?
        && InterpCloses(src, m, pos, to, t, n)
    ensures Tiled(src, to, n, out + [t])
  {
    Lay(src, pos, m, out, to, [t], n);
  }

  lemma LayHead(src: string, pos: nat, m: Mode, out: seq<Token>, to: nat, t: Token, n: Mode)
    requires Tiled(src, pos, m, out) && pos <= to <= |src| && t.kind.STMT? && Heads(src, m, pos, to, t, n)
    ensures Tiled(src, to, n, out + [t])
  {
    Lay(src, pos, m, out, to, [t], n);
  }

  lemma LayBody(src: string, pos: nat, m: Mode, out: seq<Token>, to: nat, t: Token, n: Mode)
    requires Tiled(src, pos, m, out) && pos <= to <= |src| && t.kind.BLOCK_OPEN? && BodyOpens(src, m, pos, to, t, n)
    ensures Tiled(src, to, n, out + [t])
  {
    Lay(src, pos, m, out, to, [t], n);
  }

  lemma LayHeadEnd(src: string, pos: nat, m: Mode, out: seq<Token>, to: nat, t: Token, n: Mode)
    requires Tiled(src, pos, m, out) && pos <= to <= |src| && t.kind.STMT_END? && HeadEnds(src, m, pos, to, t, n)
    ensures Tiled(src, to, n, out + [t])
  {
    Lay(src, pos, m, out, to, [t], n);
  }

  lemma LayClose(src: string, pos: nat, m: Mode, out: seq<Token>, to: nat, t: Token, n: Mode)
    requires Tiled(src, pos, m, out) && pos <= to <= |src| && t.kind.BLOCK_CLOSE? && BodyCloses(src, m, pos, to, t, n)
    ensures Tiled(src, to, n, out + [t])
  {
    Lay(src, pos, m, out, to, [t], n);
  }

  lemma LayCopy(src: string, pos: nat, m: Mode, out: seq<Token>, to: nat, t: Token, n: Mode)
    requires Tiled(src, pos, m, out) && pos <= to <= |src| && t.kind.VERBATIM? && Copies(src, m, pos, to, t, n)
    ensures Tiled(src, to, n, out + [t])
  {
    Lay(src, pos, m, out, to, [t], n);
  }

  lemma LayCode(src: string, pos: nat, m: Mode, out: seq<Token>, to: nat, t: Token, n: Mode)
    requires Tiled(src, pos, m, out) && pos <= to <= |src| && !Placed(t.kind) && Codes(src, m, pos, to, t, n)
    ensures Tiled(src, to, n, out + [t])
  {
    Lay(src, pos, m, out, to, [t], n);
  }

  lemma LaySkip(src: string, pos: nat, m: Mode, out: seq<Token>, to: nat, n: Mode)
    requires Tiled(src, pos, m, out) && pos < to <= |src| && Skips(src, m, pos, to, n)
    ensures Tiled(src, to, n, out)
  {
    Lay(src, pos, m, out, to, [], n);
    assert out + [] == out;
  }

  // The brace that opens a body.
  lemma LayBrace(src: string, pos: nat, m: Mode, out: seq<Token>, to: nat, l: nat, c: nat, tr: Trim, ate: bool)
    requires Tiled(src, pos, m, out) && pos < |src| && src[pos] == '{' && (l, c) == Place(src[..pos])
    requires m == InVerbatim || (m == InCode(false, 0) && StopsAt(src, pos, false))
    requires var (w, trim) := CloseTrimAt(src, pos + 1); var e := pos + 1 + w;
      && e <= |src| && tr == trim && to == (if trim == KeepTrim then e else Eaten(src, e)) && ate == (to > e)
    ensures Tiled(src, to, if m == InVerbatim then InBraces else InText(ate),
                  out + [Token(BLOCK_OPEN, "", l, c, NoTrim, tr)])
  {
    LayBody(src, pos, m, out, to, Token(BLOCK_OPEN, "", l, c, NoTrim, tr),
            if m == InVerbatim then InBraces else InText(ate));
  }

  // A statement's keyword at k.
  lemma LayHeadAt(src: string, pos: nat, m: Mode, out: seq<Token>, k: nat, kw: string, l: nat, c: nat)
    requires Tiled(src, pos, m, out) && Leads(src, m, pos, k) && (l, c) == Place(src[..k])
    requires k < |src| && StatementAt(src[k..]) && kw == Word(src[k + 1..])
    ensures Tiled(src, k + 1 + |kw|, HeadMode(kw), out + [Token(STMT, kw, l, c, NoTrim, NoTrim)])
  {
    var t := Token(STMT, kw, l, c, NoTrim, NoTrim);
    assert HeadsAt(src, m, pos, k + 1 + |kw|, t, HeadMode(kw), k);
    LayHead(src, pos, m, out, k + 1 + |kw|, t, HeadMode(kw));
  }

  lemma LayContinuation(src: string, pos: nat, out: seq<Token>, k: nat, to: nat, t: Token)
    requires Tiled(src, pos, Rejoining, out) && pos <= to <= |src| && t.kind.STMT? && Untrimmed(t)
    requires HeadsAt(src, Rejoining, pos, to, t, InCode(false, 0), k)
    ensures Tiled(src, to, InCode(false, 0), out + [t])
  {
    LayHead(src, pos, Rejoining, out, to, t, InCode(false, 0));
  }

  // Text read in two runs, of earlier lines and of the current one, with a little more.
  lemma RunMore(src: string, from: nat, mark: nat, at: nat, pos: nat, f: bool, a: Reading, b: Reading, c: Reading)
    requires from <= mark <= at <= pos <= |src| && a.Reads? && b.Reads? && c.Reads?
    requires a == Passage(src, from, mark, f) && b == Passage(src, mark, at, a.atStart)
    requires c == Passage(src, at, pos, b.atStart)
    ensures Passage(src, mark, pos, a.atStart) == Reads(b.text + c.text, c.atStart)
    ensures Passage(src, from, pos, f) == Reads(a.text + (b.text + c.text), c.atStart)
    ensures '\n' !in src[mark..at] && '\n' !in src[at..pos] ==> '\n' !in src[mark..pos]
  {
    RunOn(src, mark, at, pos, a.atStart);
    RunOn(src, from, mark, pos, f);
    assert src[mark..pos] == src[mark..at] + src[at..pos];
  }

  // A scan broken off by a fault: its tokens tile the source up to somewhere.
  ghost predicate Broken(src: string, out: seq<Token>) {
    && out != [] && out[|out| - 1].kind == ERROR
    && Somewhere(src, out[..|out| - 1])
  }

  ghost predicate Somewhere(src: string, out: seq<Token>) { exists pos, m :: Tiled(src, pos, m, out) }

  lemma BreaksOff(src: string, pos: nat, m: Mode, out: seq<Token>, error: Token)
    requires Tiled(src, pos, m, out) && error.kind == ERROR
    ensures Broken(src, out + [error])
  {
    assert (out + [error])[..|out|] == out;
  }

  // A whole stream: its tokens tile the whole source, or up to the fault they end with, and the end stands
  // at the end.
  ghost predicate Scanned(src: string, ts: seq<Token>) {
    && ts != [] && ts[|ts| - 1].kind == EOF
    && (Broken(src, ts[..|ts| - 1]) || (At(ts[|ts| - 1], src, |src|) && Finished(src, ts[..|ts| - 1])))
  }

  ghost predicate Finished(src: string, out: seq<Token>) { exists b :: Tiled(src, |src|, InText(b), out) }

  // ----- what the scanner finds -----

  lemma {:induction false} LineEndIs(src: string, i: nat, j: nat)
    requires i <= j <= |src| && (forall k :: i <= k < j ==> src[k] != '\n') && (j < |src| ==> src[j] == '\n')
    ensures LineEndAt(src, i) == j
    decreases j - i
  {
    if i < j { LineEndIs(src, i + 1, j); }
  }

  // A run that reads as nothing is no run.
  lemma EmptyRun(src: string, i: nat, j: nat, atStart: bool)
    requires i <= j <= |src| && Passage(src, i, j, atStart).Reads? && Passage(src, i, j, atStart).text == ""
    ensures i == j
  {
  }

  // One byte, or one escape, where no door opens.
  lemma RunByte(src: string, i: nat, atStart: bool)
    requires i < |src| && DoorAt(src[i..], atStart) == NoDoor
    ensures var j := if EscapeAt(src[i..]) then i + 2 else i + 1;
      && j <= |src|
      && Passage(src, i, j, atStart)
         == if EscapeAt(src[i..]) then Reads([src[i + 1]], atStart) else Reads([src[i]], NextStart(src[i], atStart))
  {
    if EscapeAt(src[i..]) {
      assert Passage(src, i + 2, i + 2, atStart) == Reads("", atStart);
    } else {
      assert Passage(src, i + 1, i + 1, NextStart(src[i], atStart)) == Reads("", NextStart(src[i], atStart));
    }
  }

  // A byte that is no blank, before the end of its line, keeps the line from being blank.
  lemma LineEndBeyond(src: string, i: nat, j: nat)
    requires i <= j < |src| && (forall k :: i <= k < j ==> src[k] != '\n') && src[j] != '\n'
    ensures j < LineEndAt(src, i)
  {
  }

  // Operators are none of the kinds with a text or a place of their own.
  lemma OperatorKinds(k: Kind)
    requires Spelling(k) != ""
    ensures !Placed(k) && k !in {EOF, ERROR}
    ensures k !in {NAME, INT, FLOAT, STRING, TRUE, FALSE, NULL}
  {
  }

  // ----- the bytes it tells apart -----

  // The classes of bytes, by listing them.
  lemma ByteClasses(c: char)
    ensures Digit(c) <==> c in "0123456789"
    ensures HexDigit(c) <==> c in "0123456789abcdefABCDEF"
    ensures Horizontal(c) <==> c in " \t"
    ensures CloseTrim(c) <==> c in "-~+"
  {
  }

  lemma WordClasses(c: char)
    ensures IdentStart(c) <==> c == '_' || 'a' <= c <= 'z' || 'A' <= c <= 'Z' || c as int >= 128
    ensures WordByte(c) <==> IdentStart(c) || c in "0123456789"
  {
  }

  // Separators are all that a numeral's text drops.
  lemma {:induction false} UngroupedIs(a: string, b: string)
    ensures Ungrouped(a + b) == Ungrouped(a) + Ungrouped(b)
  {
    if a == "" {
      assert a + b == b;
    } else {
      assert (a + b)[1..] == a[1..] + b;
      UngroupedIs(a[1..], b);
      var head := if a[0] == '_' then [] else [a[0]];
      assert head + (Ungrouped(a[1..]) + Ungrouped(b)) == (head + Ungrouped(a[1..])) + Ungrouped(b);
    }
  }

  lemma {:induction false} UngroupedKeeps(a: string)
    requires '_' !in a
    ensures Ungrouped(a) == a && Ungrouped("_") == ""
  {
    if a != "" { UngroupedKeeps(a[1..]); }
  }

  // A run of blanks dropped at one end: what is left begins, or ends, with none.
  lemma {:induction false} DropLeftIs(s: string, ws: set<char>) returns (k: nat)
    ensures k <= |s| && DropLeft(s, ws) == s[k..] && (forall i :: 0 <= i < k ==> s[i] in ws)
    ensures k < |s| ==> s[k] !in ws
  {
    k := 0;
    if s != "" && s[0] in ws {
      k := DropLeftIs(s[1..], ws);
      forall i | 0 <= i < k + 1 ensures s[i] in ws { if i > 0 { assert s[i] == s[1..][i - 1]; } }
      k := k + 1;
    }
  }

  lemma {:induction false} DropRightIs(s: string, ws: set<char>) returns (k: nat)
    ensures k <= |s| && DropRight(s, ws) == s[..k] && (forall i :: k <= i < |s| ==> s[i] in ws)
    ensures k > 0 ==> s[k - 1] !in ws
    decreases |s|
  {
    k := |s|;
    if s != "" && s[|s| - 1] in ws { k := DropRightIs(s[..|s| - 1], ws); }
  }

  // What each trim takes: the blanks of a line, and line ends as well when it is hard.
  lemma TrimBytes(c: char)
    ensures c in LINE_WS <==> c as int in {32, 9, 0, 11}
    ensures c in HARD_WS <==> c in LINE_WS || c as int in {10, 13}
  {
  }

  // The bytes a trim takes: none, the blanks of a line, or those and line ends.
  predicate Takes(mode: Trim, c: char) {
    (mode == HardTrim && c as int in {32, 9, 0, 11, 10, 13}) || (mode == LineTrim && c as int in {32, 9, 0, 11})
  }

  // The marks on the two sides of a token: an interpolation's closer and a body's braces trim what
  // follows them, an interpolation's opener what precedes it.
  function MarkBefore(ts: seq<Token>, i: nat): Trim
    requires i < |ts|
  {
    if i > 0 && ts[i - 1].kind in {CLOSE_INTERP, BLOCK_OPEN, BLOCK_CLOSE} then ts[i - 1].trimR else NoTrim
  }

  function MarkAfter(ts: seq<Token>, i: nat): Trim
    requires i < |ts|
  {
    if i + 1 < |ts| && ts[i + 1].kind == OPEN_INTERP then ts[i + 1].trimL else NoTrim
  }

  // A text keeps what is left when each mark has taken the longest run of its bytes from its side, the
  // one before it first; every other token is kept.
  lemma TrimmedIs(ts: seq<Token>, i: nat) returns (a: nat, b: nat)
    requires i < |ts|
    ensures ts[i].kind != TEXT ==> Trimmed(ts, i) == ts[i]
    ensures ts[i].kind == TEXT ==> var s, before, after := ts[i].text, MarkBefore(ts, i), MarkAfter(ts, i);
      && a <= b <= |s| && Trimmed(ts, i) == ts[i].(text := s[a..b])
      && (forall k :: 0 <= k < a ==> Takes(before, s[k])) && (a < |s| ==> !Takes(before, s[a]))
      && (forall k :: b <= k < |s| ==> Takes(after, s[k])) && (a < b ==> !Takes(after, s[b - 1]))
  {
    a, b := 0, 0;
    if ts[i].kind == TEXT {
      var s := ts[i].text;
      a := TrimLeftIs(s, MarkBefore(ts, i));
      b := TrimRightIs(s[a..], MarkAfter(ts, i));
      forall k | a + b <= k < |s| ensures Takes(MarkAfter(ts, i), s[k]) { assert s[k] == s[a..][k - a]; }
      assert LeftOf(ts, i) == ts[i].(text := TrimLeft(s, MarkBefore(ts, i)));
      assert s[a..][..b] == s[a..a + b];
      b := a + b;
    }
  }

  lemma TrimLeftIs(s: string, mode: Trim) returns (k: nat)
    ensures k <= |s| && TrimLeft(s, mode) == s[k..] && (forall j :: 0 <= j < k ==> Takes(mode, s[j]))
    ensures k < |s| ==> !Takes(mode, s[k])
  {
    k := 0;
    if mode in {HardTrim, LineTrim} {
      k := DropLeftIs(s, if mode == HardTrim then HARD_WS else LINE_WS);
      forall c: char { TrimBytes(c); }
    }
  }

  lemma TrimRightIs(s: string, mode: Trim) returns (k: nat)
    ensures k <= |s| && TrimRight(s, mode) == s[..k] && (forall j :: k <= j < |s| ==> Takes(mode, s[j]))
    ensures k > 0 ==> !Takes(mode, s[k - 1])
  {
    k := |s|;
    if mode in {HardTrim, LineTrim} {
      k := DropRightIs(s, if mode == HardTrim then HARD_WS else LINE_WS);
      forall c: char { TrimBytes(c); }
    }
  }

  // The string a look ahead skips is the literal the scan would take, but for embedded segments.
  lemma {:induction false} SkipStringIs(src: string, i: nat, quote: char)
    requires i <= |src| && quote in {'\'', '"', '`'} && forall k :: i <= k < |src| ==> !Two(src, k, '#', '{')
    ensures SkipString(src, i, quote) == if StringEnd(src, i, quote) <= |src| then StringEnd(src, i, quote) else |src|
    decreases |src| - i
  {
    if i < |src| && src[i] != quote {
      if quote != '`' && src[i] == '\\' && i + 1 < |src| {
        SkipStringIs(src, i + 2, quote);
      } else {
        assert !Two(src, i, '#', '{');
        SkipStringIs(src, i + 1, quote);
      }
    }
  }

  // An assignment follows after blanks, and is no equality.
  lemma AssignIs(src: string, i: nat)
    ensures AssignFollows(src, i) <==>
      exists j :: i <= j < |src| && (forall k :: i <= k < j ==> Horizontal(src[k])) && src[j] == '='
          && !Two(src, j, '=', '=')
  {
    HorizontalEnd(src, i);
  }

  lemma {:induction false} HorizontalEnd(src: string, i: nat)
    ensures var e := AfterHorizontal(src, i);
      && i <= e && (forall k :: i <= k < e && k < |src| ==> Horizontal(src[k])) && (e < |src| ==> !Horizontal(src[e]))
    ensures i <= |src| ==> AfterHorizontal(src, i) <= |src|
    decreases if i <= |src| then |src| - i else 0
  {
    if i < |src| && Horizontal(src[i]) { HorizontalEnd(src, i + 1); }
  }
}
