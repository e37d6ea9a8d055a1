/** The text side of the lexer: where a door opens in literal text, what the text reads as, and the
    escaping that keeps every door shut.  A byte is a char of the same code. */
module LexText {

  predicate Digit(c: char) { '0' <= c <= '9' }

  predicate HexDigit(c: char) { Digit(c) || 'a' <= c <= 'f' || 'A' <= c <= 'F' }

  predicate IdentStart(c: char) { c == '_' || 'a' <= c <= 'z' || 'A' <= c <= 'Z' || c >= '\U{80}' }

  predicate WordByte(c: char) { IdentStart(c) || Digit(c) }

  predicate Horizontal(c: char) { c == ' ' || c == '\t' }

  predicate CloseTrim(c: char) { c == '-' || c == '~' || c == '+' }

  const KEYWORDS: set<string> := {
    "extends", "block", "for", "if", "elseif", "else", "macro", "set", "include", "import", "from", "use",
    "embed", "with", "apply", "do", "flush", "deprecated", "guard", "types", "escape", "sandbox", "verbatim",
    "line", "cache", "capture", "log", "tab", "provide", "yield", "call" }

  // The longest run of word bytes s begins with.
  function Word(s: string): (w: string)
    ensures |w| <= |s| && w == s[..|w|] && (forall c :: c in w ==> WordByte(c)) && (|w| < |s| ==> !WordByte(s[|w|]))
  {
    if s != "" && WordByte(s[0]) then [s[0]] + Word(s[1..]) else ""
  }

  lemma {:induction false} WordIs(s: string, k: nat)
    requires k <= |s| && (forall j :: 0 <= j < k ==> WordByte(s[j])) && (k < |s| ==> !WordByte(s[k]))
    ensures Word(s) == s[..k]
    decreases k
  {
    if k > 0 { WordIs(s[1..], k - 1); }
  }

  // What follows the blanks s begins with.
  function SkipBlanks(s: string): string {
    if s != "" && (Horizontal(s[0]) || s[0] == '\r') then SkipBlanks(s[1..]) else s
  }

  // ----- doors -----

  datatype Door = NoDoor | InterpDoor | CommentDoor | StmtDoor | CloseDoor

  // An @-led statement keyword at a word boundary.
  predicate StatementAt(s: string) { s != "" && s[0] == '@' && Word(s[1..]) in KEYWORDS }

  predicate ContinuationAt(s: string) { Word(s) in {"elseif", "else"} }

  // A block close alone on its line but for a continuation keyword.
  predicate CloseAt(s: string) {
    && |s| >= 2 && s[0] == '@' && s[1] == '}'
    && var rest := SkipBlanks(if |s| > 2 && CloseTrim(s[2]) then s[3..] else s[2..]);
       rest == "" || rest[0] == '\n' || ContinuationAt(rest)
  }

  // The door that opens right here.
  function DoorAt(s: string, lineStart: bool): Door {
    if |s| >= 2 && s[0] == '{' && s[1] == '{' then InterpDoor
    else if |s| >= 2 && s[0] == '{' && s[1] == '#' then CommentDoor
    else if lineStart && StatementAt(s) then StmtDoor
    else if lineStart && CloseAt(s) then CloseDoor
    else NoDoor
  }

  predicate EscapeAt(s: string) { |s| >= 2 && s[0] == '\\' && s[1] in {'{', '}', '\\'} }

  // A newline begins a line; blanks keep where they are; any other literal byte leaves the start.
  function NextStart(c: char, lineStart: bool): bool {
    if c == '\n' then true else Horizontal(c) && lineStart
  }

  // The first door that opens in s; an escape keeps the line start.
  function FirstDoor(s: string, lineStart: bool): Door
    decreases |s|
  {
    if s == "" then NoDoor
    else if DoorAt(s, lineStart) != NoDoor then DoorAt(s, lineStart)
    else if EscapeAt(s) then FirstDoor(s[2..], lineStart)
    else FirstDoor(s[1..], NextStart(s[0], lineStart))
  }

  // What s reads as when no door opens in it.
  function TextOf(s: string): string
    decreases |s|
  {
    if s == "" then "" else if EscapeAt(s) then [s[1]] + TextOf(s[2..]) else [s[0]] + TextOf(s[1..])
  }

  // ----- escaping -----

  predicate Special(c: char) { c == '{' || c == '}' || c == '\\' }

  function Escape(s: string): string {
    if s == "" then "" else (if Special(s[0]) then ['\\', s[0]] else [s[0]]) + Escape(s[1..])
  }

  // A statement opens at a line start, or after nothing but blanks, braces and backslashes from one.
  predicate StatementLine(s: string, lineStart: bool) {
    s != ""
    && ((lineStart && StatementAt(s)) || StatementLine(s[1..], if Special(s[0]) then lineStart else NextStart(s[0],
        lineStart)))
  }

  lemma {:induction false} EscapedText(s: string)
    ensures TextOf(Escape(s)) == s
  {
    if s != "" {
      var e := Escape(s);
      EscapedText(s[1..]);
      if Special(s[0]) { assert e[2..] == Escape(s[1..]); } else { assert e[1..] == Escape(s[1..]); }
    }
  }

  lemma {:induction false} EscapedWord(s: string)
    ensures Word(Escape(s)) == Word(s)
  {
    if s != "" && WordByte(s[0]) {
      EscapedWord(s[1..]);
      assert Escape(s)[1..] == Escape(s[1..]);
    }
  }

  lemma EscapedHead(s: string)
    requires s != "" && !Special(s[0])
    ensures StatementAt(Escape(s)) == StatementAt(s) && !CloseAt(Escape(s)) && Escape(s)[0] == s[0]
    ensures Escape(s)[1..] == Escape(s[1..])
  {
    assert Escape(s)[1..] == Escape(s[1..]);
    EscapedWord(s[1..]);
    if s[1..] != "" { assert Escape(s)[1] == Escape(s[1..])[0] != '}';
  }
  }

  // The only door left in escaped text is a statement's.
  lemma {:induction false} EscapedDoor(s: string, lineStart: bool)
    ensures FirstDoor(Escape(s), lineStart) == if StatementLine(s, lineStart) then StmtDoor else NoDoor
  {
    if s != "" {
      var e := Escape(s);
      if Special(s[0]) {
        assert e[0] == '\\' && e[1] == s[0] && e[2..] == Escape(s[1..]);
        EscapedDoor(s[1..], lineStart);
      } else {
        EscapedHead(s);
        EscapedDoor(s[1..], NextStart(s[0], lineStart));
      }
    }
  }
}
