/** The lexer: a cursor over the input that alternates between literal text and code, appending tokens.
    Every input ends in exactly one EOF; a lexical fault is a single ERROR right before it. */
module Lexer {
  import opened LexText
  import opened Tokens
  import opened Tiling

  // ----- trims -----

  // Token j while the delimiters before i have been applied.
  function TrimmedBefore(ts: seq<Token>, i: nat, j: nat): Token
    requires j < |ts|
  {
    if j + 1 < i then Trimmed(ts, j) else if j <= i then LeftOf(ts, j) else ts[j]
  }

  method ApplyTrims(ts: seq<Token>) returns (r: seq<Token>)
    ensures |r| == |ts| && forall i :: 0 <= i < |ts| ==> r[i] == Trimmed(ts, i)
  {
    r := ts;
    for i := 0 to |ts|
      invariant |r| == |ts| && forall j :: 0 <= j < |ts| ==> r[j] == TrimmedBefore(ts, i, j)
    {
      ghost var was := r;
      var t := ts[i];
      if t.kind == OPEN_INTERP {
        if t.trimL != NoTrim && i > 0 && r[i - 1].kind == TEXT {
          r := r[i - 1 := r[i - 1].(text := TrimRight(r[i - 1].text, t.trimL))];
        }
      } else if Closing(t.kind) {
        if t.trimR != NoTrim && t.trimR != KeepTrim && i + 1 < |ts| && r[i + 1].kind == TEXT {
          r := r[i + 1 := r[i + 1].(text := TrimLeft(r[i + 1].text, t.trimR))];
        }
      }
      forall j | 0 <= j < |ts| ensures r[j] == TrimmedBefore(ts, i + 1, j) {
        assert was[j] == TrimmedBefore(ts, i, j);
        if j == i - 1 || j == i + 1 { TrimStep(ts, i, j, was[j], r[j]); }
      }
    }
  }

  // What one delimiter does to its neighbours.
  lemma TrimStep(ts: seq<Token>, i: nat, j: nat, was: Token, now: Token)
    requires i < |ts| && j < |ts| && (j + 1 == i || j == i + 1) && was == TrimmedBefore(ts, i, j)
    requires j + 1 == i ==>
      now == (if was.kind == TEXT
              && ts[i].kind == OPEN_INTERP then was.(text := TrimRight(was.text, ts[i].trimL)) else was)
    requires j == i + 1 ==>
      now == (if was.kind == TEXT && Closing(ts[i].kind) then was.(text := TrimLeft(was.text, ts[i].trimR)) else was)
    ensures now == TrimmedBefore(ts, i + 1, j)
  {
  }

  // ----- the lexer -----

  class Scanner {
    const input: string
    var pos: nat
    var line: nat
    var col: nat
    var out: seq<Token>
    var atLineStart: bool

    ghost predicate Valid()
      reads this
    {
      pos <= |input| && (line, col) == Place(input[..pos])
    }

    constructor (source: string)
      ensures Valid() && input == source && pos == 0 && out == [] && atLineStart
    {
      input, pos, line, col, out, atLineStart := source, 0, 1, 1, [], true;
      new;
      assert input[..0] == "";
    }

    function Rest(): string
      requires pos <= |input|
      reads this
    {
      input[pos..]
    }

    method Emit(kind: Kind, text: string, line: nat, col: nat, trimL: Trim, trimR: Trim)
      modifies this`out
      ensures out == old(out) + [Token(kind, text, line, col, trimL, trimR)]
    {
      out := out + [Token(kind, text, line, col, trimL, trimR)];
    }

    method Mark(kind: Kind, text: string, line: nat, col: nat)
      modifies this`out
      ensures out == old(out) + [Token(kind, text, line, col, NoTrim, NoTrim)]
    {
      Emit(kind, text, line, col, NoTrim, NoTrim);
    }

    method Advance()
      requires Valid()
      modifies this`pos, this`line, this`col
      ensures Valid() && pos == if old(pos) < |input| then old(pos) + 1 else old(pos)
    {
      if pos >= |input| { return; }
      assert input[..pos + 1][..pos] == input[..pos];
      if input[pos] == '\n' { line, col := line + 1, 1; } else { col := col + 1; }
      pos := pos + 1;
    }

    method AdvanceTo(target: nat)
      requires Valid() && pos <= target <= |input|
      modifies this`pos, this`line, this`col
      ensures Valid() && pos == target
    {
      while pos < target
        invariant Valid() && pos <= target
      {
        Advance();
      }
    }

    // The scan breaks off with a fault; what came before is tiled up to at.
    method Fault(line: nat, col: nat, text: string, ghost at: nat, ghost m: Mode)
      requires Clean(out) && Tiled(input, at, m, out)
      modifies this`out
      ensures Faulted(out) && Broken(input, out) && Appended(old(out), out)
    {
      Mark(ERROR, text, line, col);
      BreaksOff(input, at, m, old(out), Token(ERROR, text, line, col, NoTrim, NoTrim));
    }

    // In text, everything so far is tiled.
    ghost predicate Laid()
      reads this
    {
      Tiled(input, pos, InText(atLineStart), out)
    }

    // Between two runs of text, or at a fault.
    ghost predicate Settled()
      reads this
    {
      (Clean(out) && Laid()) || (Faulted(out) && Broken(input, out))
    }

    // In code, before a token of its own.
    ghost predicate Ready(m: Mode)
      reads this
    {
      && m.InCode? && pos < |input| && Tiled(input, pos, m, out) && Clean(out)
      && !(m.depth == 0 && StopsAt(input, pos, m.interp))
    }

    // ----- small pieces -----

    method TakeOpenTrim() returns (t: Trim)
      requires Valid()
      modifies this`pos, this`line, this`col
      ensures Valid() && pos == old(pos) + OpenTrimAt(input, old(pos)).0 && t == OpenTrimAt(input, old(pos)).1
    {
      t := NoTrim;
      if pos >= |input| { return; }
      if input[pos] == '-' { t := HardTrim; } else if input[pos] == '~' { t := LineTrim; } else { return; }
      Advance();
    }

    method TakeCloseTrim() returns (t: Trim)
      requires Valid()
      modifies this`pos, this`line, this`col
      ensures Valid() && pos == old(pos) + CloseTrimAt(input, old(pos)).0 && t == CloseTrimAt(input, old(pos)).1
    {
      t := NoTrim;
      if pos >= |input| { return; }
      if input[pos] == '-' { t := HardTrim; }
      else if input[pos] == '~' { t := LineTrim; }
      else if input[pos] == '+' { t := KeepTrim; }
      else { return; }
      Advance();
    }

    method EatOneNewline() returns (ate: bool)
      requires Valid()
      modifies this`pos, this`line, this`col
      ensures Valid() && pos == Eaten(input, old(pos)) && ate == (old(pos) < pos)
    {
      ate := pos < |input| && input[pos] == '\n';
      if ate { Advance(); }
    }

    // Drops the blanks up to the end of the line when there is nothing else on it.
    method SkipTrailingBlanks()
      requires Valid()
      modifies this`pos, this`line, this`col
      ensures Valid() && old(pos) <= pos
      ensures var e := LineEndAt(input, old(pos));
        if forall q :: old(pos) <= q < e ==> Horizontal(input[q]) || input[q] == '\r' then pos == e
        else pos == old(pos) && input[pos] != '\n'
    {
      var i := pos;
      while i < |input| && (Horizontal(input[i]) || input[i] == '\r')
        invariant pos <= i <= |input| && forall q :: pos <= q < i ==> Horizontal(input[q]) || input[q] == '\r'
      {
        i := i + 1;
      }
      if i == |input| || input[i] == '\n' {
        LineEndIs(input, pos, i);
        AdvanceTo(i);
      } else {
        LineEndBeyond(input, pos, i);
      }
    }

    // The blanks after a directive's closer, then one newline.
    method SkipLineEnd()
      requires Valid()
      modifies this`pos, this`line, this`col
      ensures Valid() && old(pos) <= pos && RestOfLine(input, old(pos), pos)
    {
      SkipTrailingBlanks();
      var _ := EatOneNewline();
    }

    // ----- peeking -----

    method PeekWord(from: nat) returns (word: string)
      requires pos <= from <= |input|
      ensures word == Word(input[from..])
    {
      var i := from;
      while i < |input| && WordByte(input[i])
        invariant from <= i <= |input| && forall j :: from <= j < i ==> WordByte(input[j])
      {
        i := i + 1;
      }
      word := input[from..i];
      WordIs(input[from..], i - from);
    }

    method PeekStatement() returns (kw: string, ok: bool)
      requires Valid() && pos < |input| && input[pos] == '@'
      ensures ok == StatementAt(Rest()) && kw == Word(input[pos + 1..]) && pos + 1 + |kw| <= |input|
    {
      assert Rest()[1..] == input[pos + 1..];
      kw := PeekWord(pos + 1);
      ok := kw in KEYWORDS;
    }

    // The place after the blanks from i on.
    method PeekBlanks(from: nat) returns (j: nat)
      requires from <= |input|
      ensures Blanks(input, from, j) && SkipBlanks(input[from..]) == input[j..]
    {
      j := from;
      while j < |input| && (Horizontal(input[j]) || input[j] == '\r')
        invariant Blanks(input, from, j) && SkipBlanks(input[from..]) == SkipBlanks(input[j..])
      {
        assert input[j..][1..] == input[j + 1..];
        j := j + 1;
      }
    }

    method PeekBlockClose() returns (ok: bool)
      requires Valid() && pos < |input| && input[pos] == '@'
      ensures ok == CloseAt(Rest()) && (ok ==> Two(input, pos, '@', '}'))
    {
      if pos + 1 >= |input| || input[pos + 1] != '}' { return false;
    }
      var i := pos + 2;
      if i < |input| && CloseTrim(input[i]) { i := i + 1; }
      assert input[i..] == if |Rest()| > 2 && CloseTrim(Rest()[2]) then Rest()[3..] else Rest()[2..];
      var j := PeekBlanks(i);
      if j >= |input| || input[j] == '\n' { return true; }
      var w := PeekWord(j);
      ok := w == "elseif" || w == "else";
    }

    // ----- code -----

    method AtStop(interp: bool) returns (stop: bool)
      requires Valid()
      ensures stop == StopsAt(input, pos, interp)
    {
      if interp {
        var i := pos;
        if i < |input| && CloseTrim(input[i]) { i := i + 1; }
        return i + 1 < |input| && input[i] == '}' && input[i + 1] == '}';
      }
      if pos >= |input| || input[pos] == '\n' { return true; }
      if input[pos] != '{' { return false; }
      var m := MapAhead();
      stop := !m;
    }

    method MapAhead() returns (m: bool)
      requires Valid() && pos < |input| && input[pos] == '{'
      ensures m == MapAt(input, pos)
    {
      var i := pos + 1;
      while i < |input| && Horizontal(input[i])
        invariant pos < i <= |input| && AfterHorizontal(input, i) == AfterHorizontal(input, pos + 1)
      {
        i := i + 1;
      }
      if i >= |input| { return false; }
      if input[i] == '}' { return true;
    }
      ghost var start := i;
      var depth := 1;
      while i < |input|
        invariant depth > 0 && MapFrom(input, i, depth) == MapFrom(input, start, 1)
        decreases |input| - i
      {
        var c := input[i];
        if c in {'{', '(', '['} {
          depth := depth + 1;
        } else if c in {'}', ')', ']'} {
          if depth == 1 { return AssignFollows(input, i + 1); }
          depth := depth - 1;
        } else if c in {'\'', '"', '`'} {
          SkipsOn(input, i + 1, c);
          i := SkipString(input, i + 1, c);
          continue;
        } else if c == ':' && depth == 1 {
          return true;
        } else if depth == 1 && Has(input[i..], "...") {
          return true;
        } else if c == '\n' {
          return false;
        }
        i := i + 1;
      }
      m := false;
    }

    // Code tokens until the region ends at bracket depth zero, or with the source.
    method ScanCode(interp: bool, openLine: nat, openCol: nat) returns (fault: bool, ghost left: nat)
      requires Valid() && Clean(out) && Tiled(input, pos, InCode(interp, 0), out)
      modifies this`pos, this`line, this`col, this`out
      ensures Valid() && old(pos) <= pos && Appended(old(out), out)
      ensures fault ==> Faulted(out) && Broken(input, out)
      ensures !fault ==> Clean(out) && Tiled(input, pos, InCode(interp, left), out) && StopsAt(input, pos, interp)
      ensures !fault ==> left == 0 || (!interp && pos == |input|)
    {
      var depth := 0;
      left := 0;
      while pos < |input|
        invariant Valid() && old(pos) <= pos && Appended(old(out), out) && Clean(out)
        invariant Tiled(input, pos, InCode(interp, depth), out)
        decreases |input| - pos
      {
        if depth == 0 {
          var stop := AtStop(interp);
          if stop { return false, 0; }
        }
        depth, fault := CodeStep(interp, depth);
        if fault { return; }
      }
      var stop := AtStop(interp);
      if !stop {
        Fault(openLine, openCol, "unterminated interpolation", pos, InCode(interp, depth));
        return true, 0;
      }
      fault, left := false, depth;
    }

    // One token, blank or comment.
    method CodeStep(interp: bool, depth: nat) returns (next: nat, fault: bool)
      requires Valid() && Ready(InCode(interp, depth))
      modifies this`pos, this`line, this`col, this`out
      ensures Valid() && old(pos) <= pos && Appended(old(out), out)
      ensures fault ==> Faulted(out) && Broken(input, out)
      ensures !fault ==> old(pos) < pos && Clean(out) && Tiled(input, pos, InCode(interp, next), out)
    {
      ghost var m := InCode(interp, depth);
      next, fault := depth, false;
      var c := input[pos];
      if Horizontal(c) || c == '\r' || c == '\n' || c == '#' {
        SkipCode(m);
      } else if c == '\'' || c == '"' || c == '`' {
        fault := ScanString(m);
      } else if Digit(c) {
        ScanNumber(m);
      } else if IdentStart(c) {
        ScanName(m);
      } else {
        next, fault := ScanOperator(interp, depth);
      }
    }

    method SkipCode(ghost m: Mode)
      requires Valid() && Ready(m) && input[pos] in {' ', '\t', '\r', '\n', '#'}
      modifies this`pos, this`line, this`col
      ensures Valid() && old(pos) < pos && Tiled(input, pos, m, out)
    {
      ghost var start := pos;
      if input[pos] == '#' { ScanLineComment(); } else { Advance(); }
      assert CodeSkip(input, start, pos);
      LaySkip(input, start, m, out, pos, m);
    }

    method ScanLineComment()
      requires Valid() && pos < |input| && input[pos] == '#'
      modifies this`pos, this`line, this`col
      ensures Valid() && old(pos) < pos && pos == LineEndAt(input, old(pos))
    {
      Advance();
      while pos < |input| && input[pos] != '\n'
        invariant Valid() && old(pos) < pos && forall k :: old(pos) <= k < pos ==> input[k] != '\n'
        decreases |input| - pos
      {
        Advance();
      }
      LineEndIs(input, old(pos), pos);
    }

    method ScanOperator(interp: bool, depth: nat) returns (next: nat, fault: bool)
      requires Valid() && Ready(InCode(interp, depth))
      modifies this`pos, this`line, this`col, this`out
      ensures Valid() && old(pos) <= pos && Appended(old(out), out)
      ensures fault ==> Faulted(out) && Broken(input, out)
      ensures !fault ==> old(pos) < pos && Clean(out) && Tiled(input, pos, InCode(interp, next), out)
    {
      var op, l, k := Operator(Rest()), line, col;
      OperatorSpells(Rest());
      next := depth;
      if op.NoOp? {
        Fault(l, k, "unexpected byte in code", pos, InCode(interp, depth));
        return depth, true;
      }
      if op.depth == 1 { next := depth + 1; } else if op.depth == -1 && depth > 0 { next := depth - 1; }
      OperatorKinds(op.kind);
      AdvanceTo(pos + op.len);
      Mark(op.kind, "", l, k);
      LayCode(input, old(pos), InCode(interp, depth), old(out), pos, Token(op.kind, "", l, k, NoTrim, NoTrim),
          InCode(interp, next));
      fault := false;
    }

    method ScanName(ghost m: Mode)
      requires Valid() && Ready(m) && IdentStart(input[pos])
      modifies this`pos, this`line, this`col, this`out
      ensures Valid() && old(pos) < pos && Appended(old(out), out) && Clean(out) && Tiled(input, pos, m, out)
    {
      var l, c, start := line, col, pos;
      Advance();
      while pos < |input| && WordByte(input[pos])
        invariant Valid() && start < pos && out == old(out) && forall k :: start <= k < pos ==> WordByte(input[k])
        decreases |input| - pos
      {
        Advance();
      }
      var word := input[start..pos];
      Mark(WordKind(word), word, l, c);
      LayCode(input, start, m, old(out), pos, Token(WordKind(word), word, l, c, NoTrim, NoTrim), m);
    }

    method ScanDigits()
      requires Valid()
      modifies this`pos, this`line, this`col
      ensures Valid() && DigitRun(input, old(pos), pos)
    {
      while pos < |input| && (Digit(input[pos]) || input[pos] == '_')
        invariant Valid() && old(pos) <= pos && forall k :: old(pos) <= k < pos ==> Digit(input[k]) || input[k] == '_'
        decreases |input| - pos
      {
        Advance();
      }
    }

    method ScanNumber(ghost m: Mode)
      requires Valid() && Ready(m) && Digit(input[pos])
      modifies this`pos, this`line, this`col, this`out
      ensures Valid() && old(pos) < pos && Appended(old(out), out) && Clean(out) && Tiled(input, pos, m, out)
    {
      var l, c, start, kind := line, col, pos, INT;
      if input[pos] == '0' && pos + 1 < |input| && input[pos + 1] in {'x', 'X', 'b', 'B', 'o', 'O'} {
        ScanBased();
      } else {
        kind := ScanDecimal();
      }
      EmitNumber(kind, start, l, c, m);
    }

    method EmitNumber(kind: Kind, start: nat, l: nat, c: nat, ghost m: Mode)
      requires Valid() && Clean(out) && start < pos && NumberAt(input, start, pos, kind)
          && (l, c) == Place(input[..start])
      requires m.InCode? && Tiled(input, start, m, out) && !(m.depth == 0 && StopsAt(input, start, m.interp))
      modifies this`out
      ensures Appended(old(out), out) && Clean(out) && Tiled(input, pos, m, out)
    {
      var text := Ungrouped(input[start..pos]);
      Mark(kind, text, l, c);
      LayCode(input, start, m, old(out), pos, Token(kind, text, l, c, NoTrim, NoTrim), m);
    }

    method ScanBased()
      requires Valid() && Based(input, pos)
      modifies this`pos, this`line, this`col
      ensures Valid() && old(pos) < pos && BasedAt(input, old(pos), pos)
    {
      AdvanceTo(pos + 2);
      while pos < |input| && (HexDigit(input[pos]) || input[pos] == '_')
        invariant Valid() && old(pos) + 2 <= pos
        invariant forall k :: old(pos) + 2 <= k < pos ==> HexDigit(input[k]) || input[k] == '_'
        decreases |input| - pos
      {
        Advance();
      }
    }

    // Digits, a fraction when a digit follows the point, an exponent when digits follow it.
    method ScanDecimal() returns (kind: Kind)
      requires Valid() && pos < |input| && Digit(input[pos]) && !Based(input, pos)
      modifies this`pos, this`line, this`col
      ensures Valid() && old(pos) < pos && NumberAt(input, old(pos), pos, kind)
    {
      kind := INT;
      ScanDigits();
      ghost var a := pos;
      if pos + 1 < |input| && input[pos] == '.' && Digit(input[pos + 1]) {
        kind := FLOAT;
        Advance();
        ScanDigits();
      }
      ghost var b := pos;
      if pos < |input| && (input[pos] == 'e' || input[pos] == 'E') {
        var j := pos + 1;
        if j < |input| && (input[j] == '+' || input[j] == '-') { j := j + 1; }
        if j < |input| && Digit(input[j]) {
          kind := FLOAT;
          AdvanceTo(j);
          ScanDigits();
        }
      }
      assert DigitRun(input, old(pos), a) && FractionAt(input, a, b) && ExponentAt(input, b, pos);
    }

    // A string literal, its text the raw source with the delimiters.
    method ScanString(ghost m: Mode) returns (fault: bool)
      requires Valid() && Ready(m) && input[pos] in {'\'', '"', '`'}
      modifies this`pos, this`line, this`col, this`out
      ensures Valid() && old(pos) < pos && Appended(old(out), out)
      ensures if fault then Faulted(out) && Broken(input, out) else Clean(out) && Tiled(input, pos, m, out)
    {
      var l, c, quote, start := line, col, input[pos], pos;
      Advance();
      while pos < |input|
        invariant Valid() && start < pos && out == old(out)
        invariant StringEnd(input, pos, quote) == StringEnd(input, start + 1, quote)
        decreases |input| - pos
      {
        if input[pos] == quote {
          Advance();
          Mark(STRING, input[start..pos], l, c);
          LayCode(input, start, m, old(out), pos, Token(STRING, input[start..pos], l, c, NoTrim, NoTrim), m);
          return false;
        } else if quote != '`' && input[pos] == '\\' && pos + 1 < |input| {
          AdvanceTo(pos + 2);
        } else if quote == '"' && input[pos] == '#' && pos + 1 < |input| && input[pos + 1] == '{' {
          SkipInterpolation();
        } else {
          Advance();
        }
      }
      Fault(l, c, "unterminated string", start, m);
      fault := true;
    }

    // An embedded expression, up to the brace that balances it.
    method SkipInterpolation()
      requires Valid() && pos + 2 <= |input|
      modifies this`pos, this`line, this`col
      ensures Valid() && old(pos) < pos && pos == BraceEnd(input, old(pos) + 2, 1)
    {
      AdvanceTo(pos + 2);
      var braces: nat := 1;
      while pos < |input| && braces > 0
        invariant Valid() && old(pos) < pos && BraceEnd(input, pos, braces) == BraceEnd(input, old(pos) + 2, 1)
        decreases |input| - pos
      {
        if input[pos] == '{' { braces := braces + 1; } else if input[pos] == '}' { braces := braces - 1; }
        Advance();
      }
    }

    // ----- doors -----

    method ScanInterp()
      requires Valid() && Clean(out) && Laid() && Two(input, pos, '{', '{')
      modifies this
      ensures Valid() && old(pos) < pos && Appended(old(out), out) && Settled()
    {
      var l, c := line, col;
      AdvanceTo(pos + 2);
      var tl := TakeOpenTrim();
      Emit(OPEN_INTERP, "", l, c, tl, NoTrim);
      LayInterp(input, old(pos), InText(atLineStart), old(out), pos, Token(OPEN_INTERP, "", l, c, tl, NoTrim),
          InCode(true, 0));
      var fault, _ := ScanCode(true, l, c);
      if !fault { CloseInterp(); }
    }

    method CloseInterp()
      requires Valid() && Clean(out) && Tiled(input, pos, InCode(true, 0), out) && StopsAt(input, pos, true)
      modifies this
      ensures Valid() && old(pos) <= pos && Appended(old(out), out) && Clean(out) && Laid()
    {
      var tr := TakeCloseTrim();
      var l, c := line, col;
      Advance();
      Advance();
      Emit(CLOSE_INTERP, "", l, c, NoTrim, tr);
      atLineStart := false;
      LayInterpEnd(input, old(pos), InCode(true, 0), old(out), pos, Token(CLOSE_INTERP, "", l, c, NoTrim, tr),
                   InText(false));
    }

    method ScanComment() returns (fault: bool)
      requires Valid() && Clean(out) && Laid() && Two(input, pos, '{', '#')
      modifies this
      ensures Valid() && old(pos) < pos && Appended(old(out), out)
      ensures if fault then Faulted(out) && Broken(input, out) else Clean(out) && Laid()
    {
      var l, c := line, col;
      AdvanceTo(pos + 2);
      while pos < |input|
        invariant Valid() && old(pos) + 2 <= pos && out == old(out) && atLineStart == old(atLineStart)
        invariant forall q :: old(pos) + 2 <= q < pos ==> !Two(input, q, '#', '}')
        decreases |input| - pos
      {
        if input[pos] == '#' && pos + 1 < |input| && input[pos + 1] == '}' {
          EndComment(old(pos), old(atLineStart));
          return false;
        }
        Advance();
      }
      Fault(l, c, "unterminated comment", old(pos), InText(old(atLineStart)));
      fault := true;
    }

    // A keep mark or one newline after a comment's closer.
    method EndComment(ghost from: nat, ghost atStart: bool)
      requires Valid() && Clean(out) && Tiled(input, from, InText(atStart), out)
      requires Two(input, from, '{', '#') && CommentEnds(input, from, pos)
      modifies this
      ensures Valid() && old(pos) < pos && out == old(out) && Laid()
    {
      AdvanceTo(pos + 2);
      if pos < |input| && input[pos] == '+' {
        Advance();
        atLineStart := false;
      } else {
        atLineStart := EatOneNewline();
      }
      assert AfterComment(input, old(pos), pos, InText(atLineStart));
      LaySkip(input, from, InText(atStart), out, pos, InText(atLineStart));
    }

    // The rest of a statement head whose keyword is laid: its code, then the block it opens or its end.
    method ScanHeadRest(l: nat, c: nat)
      requires Valid() && Clean(out) && Tiled(input, pos, InCode(false, 0), out)
      modifies this
      ensures Valid() && old(pos) <= pos && Appended(old(out), out) && Settled()
    {
      var fault, left := ScanCode(false, l, c);
      if !fault { EndHead(left); }
    }

    // The body the head opens, on this line or from the next, or the end of a line statement.
    method EndHead(ghost left: nat)
      requires Valid() && Clean(out) && Tiled(input, pos, InCode(false, left), out) && StopsAt(input, pos, false)
      requires left == 0 || pos == |input|
      modifies this
      ensures Valid() && old(pos) <= pos && Appended(old(out), out) && Clean(out) && Laid()
    {
      if pos < |input| && input[pos] == '{' {
        OpenBody();
      } else {
        var l, c := line, col;
        Mark(STMT_END, "", l, c);
        atLineStart := EatOneNewline();
        LayHeadEnd(input, old(pos), InCode(false, left), old(out), pos, Token(STMT_END, "", l, c, NoTrim, NoTrim),
            InText(atLineStart));
      }
    }

    method OpenBody()
      requires Valid() && Clean(out) && Tiled(input, pos, InCode(false, 0), out) && StopsAt(input, pos, false)
      requires pos < |input| && input[pos] == '{'
      modifies this
      ensures Valid() && old(pos) <= pos && Appended(old(out), out) && Clean(out) && Laid()
    {
      atLineStart := OpenBrace(InCode(false, 0));
    }

    // The brace, its trim, and the newline after it unless it is kept.
    method OpenBrace(ghost m: Mode) returns (ate: bool)
      requires Valid() && Clean(out) && pos < |input| && input[pos] == '{' && Tiled(input, pos, m, out)
      requires m == InVerbatim || (m == InCode(false, 0) && StopsAt(input, pos, false))
      modifies this`pos, this`line, this`col, this`out
      ensures Valid() && old(pos) < pos && Appended(old(out), out) && Clean(out)
      ensures Tiled(input, pos, if m == InVerbatim then InBraces else InText(ate), out)
    {
      var l, c := line, col;
      Advance();
      var tr := TakeCloseTrim();
      Emit(BLOCK_OPEN, "", l, c, NoTrim, tr);
      ate := false;
      if tr != KeepTrim { ate := EatOneNewline(); }
      LayBrace(input, old(pos), m, old(out), pos, l, c, tr, ate);
    }

    method ScanStatement(kw: string, ghost from: nat, ghost m: Mode)
      requires Valid() && Clean(out) && from <= pos && Tiled(input, from, m, out) && Leads(input, m, from, pos)
      requires pos < |input| && StatementAt(Rest()) && kw == Word(input[pos + 1..]) && kw != "verbatim"
      modifies this
      ensures Valid() && old(pos) < pos && Settled()
      ensures Appended(old(out), out) && Holds(out, |old(out)|, STMT)
    {
      var l, c := line, col;
      LayHeadAt(input, from, m, out, pos, kw, l, c);
      EmitHead(kw);
      ghost var head := out;
      ScanHeadRest(l, c);
      Grown(head, out, |old(out)|);
    }

    // The keyword of a statement, which is laid as it stands here.
    method EmitHead(kw: string)
      requires Valid() && Clean(out) && pos + 1 + |kw| <= |input|
      requires Tiled(input, pos + 1 + |kw|, HeadMode(kw), out + [Token(STMT, kw, line, col, NoTrim, NoTrim)])
      modifies this`pos, this`line, this`col, this`out
      ensures Valid() && old(pos) < pos && Clean(out) && Tiled(input, pos, HeadMode(kw), out)
      ensures Appended(old(out), out) && |out| == |old(out)| + 1 && out[|old(out)|].kind == STMT
    {
      var l, c := line, col;
      AdvanceTo(pos + 1 + |kw|);
      Mark(STMT, kw, l, c);
    }

    method ScanBlockClose(ghost from: nat, ghost m: Mode)
      requires Valid() && Clean(out) && from <= pos && Tiled(input, from, m, out) && Leads(input, m, from, pos)
      requires Two(input, pos, '@', '}') && CloseAt(Rest())
      modifies this
      ensures Valid() && old(pos) < pos && Appended(old(out), out) && Settled()
    {
      var tr, t := EmitClose();
      AfterClose(tr, from, m, old(pos), t, old(out));
    }

    // The close of a body and its trim.
    method EmitClose() returns (tr: Trim, ghost t: Token)
      requires Valid() && Clean(out) && Two(input, pos, '@', '}')
      modifies this`pos, this`line, this`col, this`out
      ensures Valid() && Clean(out) && out == old(out) + [t]
      ensures t == Token(BLOCK_CLOSE, "", old(line), old(col), NoTrim, tr)
      ensures tr == CloseTrimAt(input, old(pos) + 2).1 && pos == old(pos) + 2 + CloseTrimAt(input, old(pos) + 2).0
    {
      var l, c := line, col;
      AdvanceTo(pos + 2);
      tr := TakeCloseTrim();
      t := Token(BLOCK_CLOSE, "", old(line), old(col), NoTrim, tr);
      Emit(BLOCK_CLOSE, "", l, c, NoTrim, tr);
    }

    // A block close emitted but not laid: before it, what was tiled up to from; it stands at k.
    ghost predicate Closed(tr: Trim, from: nat, m: Mode, k: nat, t: Token, before: seq<Token>)
      reads this
    {
      && Clean(out) && from <= k && k + 2 <= |input| && Tiled(input, from, m, before) && out == before + [t]
      && t.kind == BLOCK_CLOSE && t.text == "" && t.trimL == NoTrim && t.trimR == tr && At(t, input, k)
      && Two(input, k, '@', '}')
      && (if m == InClose then from == k else Leads(input, m, from, k) && CloseAt(input[k..]))
      && tr == CloseTrimAt(input, k + 2).1 && pos == k + 2 + CloseTrimAt(input, k + 2).0
    }

    // A continuation keyword on the same line re-opens the construct; otherwise the line ends.
    method AfterClose(tr: Trim, ghost from: nat, ghost m: Mode, ghost k: nat, ghost t: Token, ghost before: seq<Token>)
      requires Valid() && Closed(tr, from, m, k, t, before) && m.InText?
      modifies this
      ensures Valid() && old(pos) <= pos && Appended(old(out), out) && Settled()
    {
      var j := PeekBlanks(pos);
      var kw := PeekWord(j);
      if kw == "elseif" || kw == "else" {
        assert ClosesAt(input, m, from, pos, t, Rejoining, k);
        LayClose(input, from, m, before, pos, t, Rejoining);
        Continue(kw, j);
      } else {
        EndClose(tr, from, m, k, t, before);
      }
    }

    method EndClose(tr: Trim, ghost from: nat, ghost m: Mode, ghost k: nat, ghost t: Token, ghost before: seq<Token>)
      requires Valid() && Closed(tr, from, m, k, t, before)
      requires m.InText? ==> !ContinuationAt(SkipBlanks(input[pos..]))
      modifies this
      ensures Valid() && old(pos) <= pos && out == old(out) && Laid()
    {
      if tr != KeepTrim { SkipLineEnd(); }
      atLineStart := true;
      assert ClosesAt(input, m, from, pos, t, InText(true), k);
      LayClose(input, from, m, before, pos, t, InText(true));
    }

    method Continue(kw: string, j: nat)
      requires Valid() && Clean(out) && Tiled(input, pos, Rejoining, out) && Blanks(input, pos, j)
      requires kw == Word(input[j..]) && kw in {"elseif", "else"}
      modifies this
      ensures Valid() && old(pos) <= pos && Appended(old(out), out) && Settled()
    {
      ghost var from := pos;
      AdvanceTo(j);
      var l, c := line, col;
      AdvanceTo(pos + |kw|);
      Mark(STMT, kw, l, c);
      LayContinuation(input, from, old(out), j, pos, Token(STMT, kw, l, c, NoTrim, NoTrim));
      ScanHeadRest(l, c);
    }

    method ScanVerbatim(ghost from: nat, ghost m: Mode) returns (fault: bool)
      requires Valid() && Clean(out) && from <= pos && Tiled(input, from, m, out) && Leads(input, m, from, pos)
      requires pos < |input| && StatementAt(Rest()) && Word(input[pos + 1..]) == "verbatim"
      modifies this
      ensures Valid() && old(pos) < pos && (if fault then Faulted(out) && Broken(input, out) else Clean(out) && Laid())
      ensures Appended(old(out), out) && Holds(out, |old(out)|, STMT)
    {
      var l, c := line, col;
      LayHeadAt(input, from, m, out, pos, "verbatim", l, c);
      EmitHead("verbatim");
      ghost var head := out;
      fault := ScanVerbatimBody(l, c);
      Grown(head, out, |old(out)|);
    }

    method ScanVerbatimBody(l: nat, c: nat) returns (fault: bool)
      requires Valid() && Clean(out) && Tiled(input, pos, InVerbatim, out)
      modifies this
      ensures Valid() && old(pos) <= pos && Appended(old(out), out)
      ensures if fault then Faulted(out) && Broken(input, out) else Clean(out) && Laid()
    {
      SkipHorizontal();
      if pos < |input| && input[pos] == '{' { fault := ScanVerbatimBraced(); }
      else { fault := ScanVerbatimFenced(l, c); }
    }

    method SkipHorizontal()
      requires Valid() && Tiled(input, pos, InVerbatim, out)
      modifies this`pos, this`line, this`col
      ensures Valid() && old(pos) <= pos && Tiled(input, pos, InVerbatim, out)
    {
      while pos < |input| && Horizontal(input[pos])
        invariant Valid() && old(pos) <= pos && Tiled(input, pos, InVerbatim, out)
        decreases |input| - pos
      {
        ghost var from := pos;
        Advance();
        LaySkip(input, from, InVerbatim, out, pos, InVerbatim);
      }
    }

    method ScanVerbatimBraced() returns (fault: bool)
      requires Valid() && Clean(out) && pos < |input| && input[pos] == '{' && Tiled(input, pos, InVerbatim, out)
      modifies this
      ensures Valid() && old(pos) < pos && Appended(old(out), out)
      ensures if fault then Faulted(out) && Broken(input, out) else Clean(out) && Laid()
    {
      var l, c := line, col;
      var _ := OpenBrace(InVerbatim);
      ghost var body, head := pos, out;
      var l2, c2 := line, col;
      var text, closed := ReadBraced();
      if closed {
        CloseVerbatim(text, l2, c2, body);
        return false;
      }
      Fault(l, c, "unterminated verbatim", body, InBraces);
      fault := true;
    }

    // The body up to the @} that balances its brace.
    method ReadBraced() returns (text: string, closed: bool)
      requires Valid()
      modifies this`pos, this`line, this`col
      ensures Valid() && old(pos) <= pos && text == input[old(pos)..pos]
      ensures closed ==> pos == BodyEnd(input, old(pos), 1) && Two(input, pos, '@', '}')
    {
      var depth: int := 1;
      text := "";
      while pos < |input|
        invariant Valid() && old(pos) <= pos && text == input[old(pos)..pos]
        invariant BodyEnd(input, pos, depth) == BodyEnd(input, old(pos), 1)
        decreases |input| - pos
      {
        if depth == 1 && input[pos] == '@' && pos + 1 < |input| && input[pos + 1] == '}' { return text, true;
      }
        if input[pos] == '{' { depth := depth + 1; } else if input[pos] == '}' { depth := depth - 1; }
        text := text + [input[pos]];
        Advance();
      }
      closed := false;
    }

    method CloseVerbatim(text: string, l: nat, c: nat, ghost body: nat)
      requires Valid() && Clean(out) && Two(input, pos, '@', '}') && body <= pos && Tiled(input, body, InBraces, out)
      requires text == input[body..pos] && pos == BodyEnd(input, body, 1) && (l, c) == Place(input[..body])
      modifies this
      ensures Valid() && old(pos) < pos && Appended(old(out), out) && Clean(out) && Laid()
    {
      Mark(VERBATIM, text, l, c);
      LayCopy(input, body, InBraces, old(out), pos, Token(VERBATIM, text, l, c, NoTrim, NoTrim), InClose);
      CloseBraces();
    }

    method CloseBraces()
      requires Valid() && Clean(out) && Two(input, pos, '@', '}') && Tiled(input, pos, InClose, out)
      modifies this
      ensures Valid() && old(pos) < pos && Appended(old(out), out) && Clean(out) && Laid()
    {
      var tr, t := EmitClose();
      EndClose(tr, old(pos), InClose, old(pos), t, old(out));
    }

    method ScanLine()
      requires Valid()
      modifies this`pos, this`line, this`col
      ensures Valid() && old(pos) <= pos && pos == LineEndAt(input, old(pos))
    {
      while pos < |input| && input[pos] != '\n'
        invariant Valid() && old(pos) <= pos && forall k :: old(pos) <= k < pos ==> input[k] != '\n'
        decreases |input| - pos
      {
        Advance();
      }
      LineEndIs(input, old(pos), pos);
    }

    method ScanVerbatimFenced(openLine: nat, openCol: nat) returns (fault: bool)
      requires Valid() && Clean(out) && Tiled(input, pos, InVerbatim, out)
      modifies this
      ensures Valid() && old(pos) <= pos && Appended(old(out), out)
      ensures if fault then Faulted(out) && Broken(input, out) else Clean(out) && Laid()
    {
      var fenceStart := pos;
      ScanLine();
      var fence := DropRight(input[fenceStart..pos], {' ', '\t', '\r'});
      if fence == "" {
        Fault(openLine, openCol, "verbatim requires a brace body or a fence token", fenceStart, InVerbatim);
        return true;
      }
      var _ := EatOneNewline();
      fault := ScanFenced(fence, openLine, openCol, fenceStart);
    }

    // The lines of a fenced body, then the one that reads as its fence.
    method ScanFenced(fence: string, openLine: nat, openCol: nat, ghost from: nat) returns (fault: bool)
      requires Valid() && Clean(out) && from <= pos && Tiled(input, from, InVerbatim, out) && fence != ""
      requires fence == DropRight(input[from..LineEndAt(input, from)], FENCE_WS)
      requires pos == Eaten(input, LineEndAt(input, from))
      modifies this
      ensures Valid() && old(pos) <= pos && Appended(old(out), out)
      ensures if fault then Faulted(out) && Broken(input, out) else Clean(out) && Laid()
    {
      var l, c := line, col;
      var text, closed := ReadFenced(fence);
      if closed {
        ghost var end := pos;
        var _ := EatOneNewline();
        Mark(VERBATIM, text, l, c);
        atLineStart := true;
        LayCopy(input, from, InVerbatim, old(out), pos, Token(VERBATIM, text, l, c, NoTrim, NoTrim), InText(true));
        return false;
      }
      Fault(openLine, openCol, "unterminated fenced verbatim", from, InVerbatim);
      fault := true;
    }

    method ReadFenced(fence: string) returns (text: string, closed: bool)
      requires Valid()
      modifies this`pos, this`line, this`col
      ensures Valid() && old(pos) <= pos
      ensures closed ==> var c := FenceLine(input, old(pos), fence);
        old(pos) <= c <= |input| && text == input[old(pos)..c] && pos == LineEndAt(input, c)
    {
      text := "";
      while pos < |input|
        invariant Valid() && old(pos) <= pos && text == input[old(pos)..pos]
        invariant FenceLine(input, pos, fence) == FenceLine(input, old(pos), fence)
        decreases |input| - pos
      {
        var lineStart := pos;
        ScanLine();
        var raw := input[lineStart..pos];
        if DropRight(raw, {' ', '\t', '\r'}) == fence { return text, true; }
        Slices(input, old(pos), lineStart, pos);
        text := text + raw;
        if pos < |input| {
          Slices(input, old(pos), pos, pos + 1);
          assert input[pos..pos + 1] == "\n";
          text := text + "\n";
          Advance();
        }
      }
      closed := false;
    }

    // ----- text -----

    // Text read since from and not emitted yet: up to mark, the start of its last line, and from there on.
    ghost predicate Pending(text: string, lineMark: nat, l: nat, c: nat, from: nat, mark: nat, f: bool, g: bool)
      reads this
    {
      && Tiled(input, from, InText(f), out) && from <= mark <= pos <= |input| && (l, c) == Place(input[..from])
      && lineMark <= |text|
      && Passage(input, from, mark, f) == Reads(text[..lineMark], g)
      && Passage(input, mark, pos, g) == Reads(text[lineMark..], atLineStart) && '\n' !in input[mark..pos]
    }

    // One run of text up to the next door, then that door.
    method ScanText() returns (stop: bool)
      requires Valid() && Clean(out) && Laid() && pos < |input|
      modifies this
      ensures Valid() && old(pos) < pos && Appended(old(out), out) && Settled() && (stop ==> Faulted(out))
      ensures var d := FirstDoor(old(Rest()), old(atLineStart)); var text := TextOf(old(Rest()));
        && (d == NoDoor ==> !stop && pos == |input| && out == old(out) + TextTokens(text, old(line), old(col)))
        && (d == StmtDoor ==> Holds(out, |old(out)|, STMT))
    {
      var l, c, text, lineMark: nat := line, col, "", 0;
      ghost var all, door := TextOf(Rest()), FirstDoor(Rest(), atLineStart);
      ghost var from, mark, f, g := pos, pos, atLineStart, atLineStart;
      while pos < |input|
        invariant Valid() && old(pos) <= pos && out == old(out) && lineMark <= |text|
        invariant FirstDoor(Rest(), atLineStart) == door && text + TextOf(Rest()) == all
        invariant pos == old(pos) ==> atLineStart == old(atLineStart) && text == ""
        invariant Pending(text, lineMark, l, c, from, mark, f, g)
        decreases |input| - pos
      {
        var hit;
        hit, stop := TryDoor(text, lineMark, l, c, from, mark, f, g);
        if hit { return; }
        var newline;
        text, newline := TakeMore(text, lineMark, l, c, from, mark, f, g);
        if newline { lineMark, mark, g := |text|, pos, atLineStart; }
      }
      assert Rest() == "" && text + "" == text;
      PassageOn(input, from, mark, pos, Reads(text[..lineMark], g), Reads(text[lineMark..], atLineStart), f);
      assert text[..lineMark] + text[lineMark..] == text;
      Flush(text, l, c, from, pos, f);
      stop := false;
    }

    // One literal byte or escape more; after a newline the text is all of earlier lines.
    method TakeMore(text: string, lineMark: nat, l: nat, c: nat, ghost from: nat, ghost mark: nat, ghost f: bool,
                    ghost g: bool) returns (more: string, newline: bool)
      requires Valid() && pos < |input| && DoorAt(Rest(), atLineStart) == NoDoor
      requires Pending(text, lineMark, l, c, from, mark, f, g)
      modifies this`pos, this`line, this`col, this`atLineStart
      ensures Valid() && old(pos) < pos && |text| <= |more|
      ensures FirstDoor(Rest(), atLineStart) == FirstDoor(old(Rest()), old(atLineStart))
      ensures more + TextOf(Rest()) == text + TextOf(old(Rest()))
      ensures if newline then Pending(more, |more|, l, c, from, pos, f, atLineStart)
              else Pending(more, lineMark, l, c, from, mark, f, g)
    {
      ghost var at := pos;
      more, newline := TakeText(text);
      RunMore(input, from, mark, at, pos, f, Reads(text[..lineMark], g), Reads(text[lineMark..], old(atLineStart)),
              Reads(more[|text|..], atLineStart));
      Extended(text, more, lineMark);
    }

    // The text as a token, if there is any.
    method Flush(text: string, l: nat, c: nat, ghost from: nat, ghost to: nat, ghost f: bool)
      requires Clean(out) && from <= to <= |input| && (l, c) == Place(input[..from])
          && Tiled(input, from, InText(f), out)
      requires Passage(input, from, to, f).Reads? && Passage(input, from, to, f).text == text
      modifies this`out
      ensures Clean(out) && out == old(out) + TextTokens(text, l, c)
      ensures Tiled(input, to, InText(Passage(input, from, to, f).atStart), out)
    {
      if text != "" {
        Mark(TEXT, text, l, c);
        LayText(input, from, InText(f), old(out), to, Token(TEXT, text, l, c, NoTrim, NoTrim),
            InText(Passage(input, from, to, f).atStart));
      } else {
        EmptyRun(input, from, to, f);
        assert out + [] == out;
      }
    }

    // The door here, if one opens: the text so far is flushed before it, without the indentation of a
    // statement or block close.
    method TryDoor(text: string, lineMark: nat, l: nat, c: nat, ghost from: nat, ghost mark: nat, ghost f: bool,
                   ghost g: bool) returns (hit: bool, stop: bool)
      requires Valid() && Clean(out) && pos < |input| && lineMark <= |text|
      requires Pending(text, lineMark, l, c, from, mark, f, g)
      modifies this
      ensures Valid() && hit == (DoorAt(old(Rest()), old(atLineStart)) != NoDoor)
      ensures !hit ==> pos == old(pos) && line == old(line) && col == old(col)
      ensures !hit ==> out == old(out) && atLineStart == old(atLineStart)
      ensures hit ==> old(pos) < pos && Appended(old(out), out) && Settled() && (stop ==> Faulted(out))
      ensures DoorAt(old(Rest()), old(atLineStart)) == StmtDoor ==> Holds(out, |old(out)|, STMT)
    {
      hit, stop := false, false;
      assert Rest()[0] == input[pos] && (pos + 1 < |input| ==> Rest()[1] == input[pos + 1]);
      if input[pos] == '{' && pos + 1 < |input| && (input[pos + 1] == '{' || input[pos + 1] == '#') {
        PassageOn(input, from, mark, pos, Reads(text[..lineMark], g), Reads(text[lineMark..], atLineStart), f);
        assert text[..lineMark] + text[lineMark..] == text;
        stop := OpenSigil(text, l, c, from, f);
        return true, stop;
      }
      if !atLineStart || input[pos] != '@' { return; }
      var kw, ok := PeekStatement();
      if ok {
        stop := OpenStatement(kw, text[..lineMark], l, c, from, mark, f);
        return true, stop;
      }
      ok := PeekBlockClose();
      if ok {
        OpenClose(text[..lineMark], l, c, from, mark, f);
        return true, false;
      }
    }

    method OpenSigil(text: string, l: nat, c: nat, ghost from: nat, ghost f: bool) returns (stop: bool)
      requires Valid() && Clean(out) && (Two(input, pos, '{', '{') || Two(input, pos, '{', '#'))
      requires from <= pos && (l, c) == Place(input[..from]) && Tiled(input, from, InText(f), out)
      requires Passage(input, from, pos, f) == Reads(text, atLineStart)
      modifies this
      ensures Valid() && old(pos) < pos && Appended(old(out), out) && Settled() && (stop ==> Faulted(out))
    {
      Flush(text, l, c, from, pos, f);
      if input[pos + 1] == '{' {
        ScanInterp();
        stop := false;
      } else {
        stop := ScanComment();
      }
    }

    method OpenClose(before: string, l: nat, c: nat, ghost from: nat, ghost mark: nat, ghost f: bool)
      requires Valid() && Clean(out) && Two(input, pos, '@', '}') && CloseAt(Rest())
      requires from <= mark <= pos && (l, c) == Place(input[..from]) && Tiled(input, from, InText(f), out)
      requires Passage(input, from, mark, f).Reads? && Passage(input, from, mark, f).text == before
      requires Leads(input, InText(Passage(input, from, mark, f).atStart), mark, pos)
      modifies this
      ensures Valid() && old(pos) < pos && Appended(old(out), out) && Settled()
    {
      Flush(before, l, c, from, mark, f);
      ScanBlockClose(mark, InText(Passage(input, from, mark, f).atStart));
    }

    // One literal byte or one escape, which leaves the line start alone; newline tells of one.
    method TakeText(text: string) returns (more: string, newline: bool)
      requires Valid() && pos < |input| && DoorAt(Rest(), atLineStart) == NoDoor
      modifies this`pos, this`line, this`col, this`atLineStart
      ensures Valid() && old(pos) < pos
      ensures FirstDoor(Rest(), atLineStart) == FirstDoor(old(Rest()), old(atLineStart))
      ensures more + TextOf(Rest()) == text + TextOf(old(Rest())) && |text| <= |more| && more[..|text|] == text
      ensures Passage(input, old(pos), pos, old(atLineStart)) == Reads(more[|text|..], atLineStart)
      ensures !newline ==> '\n' !in input[old(pos)..pos]
    {
      var ch := input[pos];
      RunByte(input, pos, atLineStart);
      assert Rest()[0] == ch && Rest()[1..] == input[pos + 1..];
      if ch == '\\' && pos + 1 < |input| && Special(input[pos + 1]) {
        assert EscapeAt(Rest()) && Rest()[2..] == input[pos + 2..];
        more, newline := text + [input[pos + 1]], false;
        AdvanceTo(pos + 2);
        assert text + ([input[pos - 1]] + TextOf(Rest())) == more + TextOf(Rest());
        assert input[old(pos)..pos] == [ch, input[pos - 1]];
        return;
      }
      more, newline := text + [ch], ch == '\n';
      Advance();
      if newline { atLineStart := true; } else if !Horizontal(ch) { atLineStart := false; }
      assert text + ([ch] + TextOf(Rest())) == more + TextOf(Rest());
      assert input[old(pos)..pos] == [ch];
    }

    // The text before a statement's line, its indentation dropped, then the statement.
    method OpenStatement(kw: string, before: string, l: nat, c: nat, ghost from: nat, ghost mark: nat, ghost f: bool)
      returns (stop: bool)
      requires Valid() && Clean(out) && pos < |input| && StatementAt(Rest()) && kw == Word(input[pos + 1..])
      requires from <= mark <= pos && (l, c) == Place(input[..from]) && Tiled(input, from, InText(f), out)
      requires Passage(input, from, mark, f).Reads? && Passage(input, from, mark, f).text == before
      requires Leads(input, InText(Passage(input, from, mark, f).atStart), mark, pos)
      modifies this
      ensures Valid() && old(pos) < pos && Appended(old(out), out) && Holds(out, |old(out)|, STMT)
      ensures Settled() && (stop ==> Faulted(out))
    {
      Flush(before, l, c, from, mark, f);
      ghost var head := out;
      stop := StartStatement(kw, mark, InText(Passage(input, from, mark, f).atStart));
      HoldsLater(old(out), head, out);
    }

    method StartStatement(kw: string, ghost from: nat, ghost m: Mode) returns (stop: bool)
      requires Valid() && Clean(out) && from <= pos && Tiled(input, from, m, out) && Leads(input, m, from, pos)
      requires pos < |input| && StatementAt(Rest()) && kw == Word(input[pos + 1..])
      modifies this
      ensures Valid() && old(pos) < pos && Appended(old(out), out) && Holds(out, |old(out)|, STMT)
      ensures Settled() && (stop ==> Faulted(out))
    {
      if kw == "verbatim" {
        stop := ScanVerbatim(from, m);
      } else {
        ScanStatement(kw, from, m);
        stop := false;
      }
    }

    // Text and doors until the end of the input or the first fault.
    method RunText()
      requires Valid() && pos == 0 && out == [] && atLineStart
      modifies this
      ensures Valid() && Settled() && (Clean(out) ==> pos == |input|)
      ensures FirstDoor(input, true) == NoDoor ==> out == TextTokens(TextOf(input), 1, 1)
      ensures FirstDoor(input, true) == StmtDoor ==> Holds(out, 0, STMT)
    {
      assert Rest() == input;
      NoneTiled(input);
      ghost var door, k := FirstDoor(input, true), 0;
      while pos < |input|
        invariant Valid() && Settled() && (pos < |input| ==> Clean(out))
        invariant pos == 0 ==> out == [] && atLineStart
        invariant 0 < pos && door == NoDoor ==> pos == |input| && out == TextTokens(TextOf(input), 1, 1)
        invariant 0 < pos && door == StmtDoor ==> k < |out| && out[k].kind == STMT
        decreases |input| - pos
      {
        ghost var start := pos;
        if pos == 0 { assert Rest() == input; }
        var stop := ScanText();
        if door == StmtDoor && start == 0 { k :| 0 <= k < |out| && out[k].kind == STMT; }
        if stop || (out != [] && out[|out| - 1].kind == ERROR) { break; }
      }
      if |input| == 0 { assert input == ""; }
    }

    // The whole input, then EOF.
    method Run()
      requires Valid() && pos == 0 && out == [] && atLineStart
      modifies this
      ensures Terminated(out) && Scanned(input, out)
      ensures FirstDoor(input, true) == NoDoor ==> out == TextTokens(TextOf(input), 1, 1) + [out[|out| - 1]]
      ensures FirstDoor(input, true) == StmtDoor ==> Holds(out, 0, STMT)
    {
      RunText();
      ghost var before := out;
      Mark(EOF, "", line, col);
      Ending(before, out[|before|]);
      assert out[..|out| - 1] == before;
      if Clean(before) { assert Finished(input, before); }
    }
  }

  // Exactly one EOF, at the end, and at most one ERROR, right before it.
  predicate Terminated(ts: seq<Token>) {
    && ts != [] && ts[|ts| - 1].kind == EOF
    && (forall i :: 0 <= i < |ts| - 1 ==> ts[i].kind != EOF && (ts[i].kind == ERROR ==> i == |ts| - 2))
  }

  lemma {:induction false} SkipsOn(s: string, i: nat, quote: char)
    ensures SkipString(s, i, quote) >= i
    decreases |s| - i
  {
    if i < |s| {
      if quote != '`' && s[i] == '\\' && i + 1 < |s| { SkipsOn(s, i + 2, quote); }
      else if s[i] != quote { SkipsOn(s, i + 1, quote); }
    }
  }

  // A text that goes on, from a place in it and from its end.
  lemma Extended(a: string, b: string, k: nat)
    requires k <= |a| <= |b| && b[..|a|] == a
    ensures b[..k] == a[..k] && b[k..] == a[k..] + b[|a|..] && b == a[..k] + (a[k..] + b[|a|..])
    ensures b[..|b|] == b && b[|b|..] == ""
  {
  }

  lemma Slices(s: string, a: nat, b: nat, c: nat)
    requires a <= b <= c <= |s|
    ensures s[a..b] + s[b..c] == s[a..c]
  {
  }

  lemma HoldsLater(a: seq<Token>, b: seq<Token>, c: seq<Token>)
    requires Appended(a, b) && Appended(b, c) && Holds(c, |b|, STMT)
    ensures Appended(a, c) && Holds(c, |a|, STMT)
  {
    forall i | 0 <= i < |a| ensures c[i] == a[i] { assert b[i] == a[i]; }
  }

  lemma Grown(a: seq<Token>, b: seq<Token>, i: nat)
    requires Appended(a, b) && i < |a|
    ensures b[i] == a[i]
  {
  }

  // ----- the stream -----

  // A single text token that reads s, and the end.
  predicate OnlyText(ts: seq<Token>, s: string) {
    |ts| == 2 && ts[0].kind == TEXT && ts[0].text == s && ts[1].kind == EOF
  }

  // A scan's tokens, closed by the final one.
  lemma Ending(ts: seq<Token>, end: Token)
    requires (Clean(ts) || Faulted(ts)) && end.kind == EOF
    ensures Terminated(ts + [end]) && (Holds(ts, 0, STMT) ==> Holds(ts + [end], 0, STMT))
  {
    if Holds(ts, 0, STMT) {
      var k :| 0 <= k < |ts| && ts[k].kind == STMT;
      assert (ts + [end])[k].kind == STMT;
    }
  }

  lemma TrimmedEnding(raw: seq<Token>, ts: seq<Token>)
    requires Terminated(raw) && |ts| == |raw| && forall i :: 0 <= i < |raw| ==> ts[i] == Trimmed(raw, i)
    ensures Terminated(ts)
  {
  }

  // What trimming leaves of the scan of an escaped text.
  lemma EscapedStream(s: string, raw: seq<Token>, ts: seq<Token>)
    requires s != "" && raw != [] && |ts| == |raw| && (forall i :: 0 <= i < |raw| ==> ts[i] == Trimmed(raw, i))
    requires raw[|raw| - 1].kind == EOF
    requires !StatementLine(s, true) ==> raw == TextTokens(s, 1, 1) + [raw[|raw| - 1]]
    requires StatementLine(s, true) ==> Holds(raw, 0, STMT)
    ensures OnlyText(ts, s) <==> !StatementLine(s, true)
  {
    if StatementLine(s, true) {
      var i :| 0 <= i < |raw| && raw[i].kind == STMT;
      assert ts[i].kind == STMT;
    } else {
      assert ts[0] == Trimmed(raw, 0) && ts[1] == Trimmed(raw, 1);
    }
  }

  // The stream is what trimming makes of a scan that tiles the source.
  ghost predicate TrimsScan(source: string, ts: seq<Token>) {
    exists raw :: Scanned(source, raw) && |ts| == |raw| && forall i :: 0 <= i < |ts| ==> ts[i] == Trimmed(raw, i)
  }

  // Every input lexes to a terminated stream that tiles it; and escaping a non-empty text brings it back as
  // one text token exactly when no statement opens in it at a line start, or behind only blanks, braces and
  // backslashes from one.
  method Lex(source: string) returns (ts: seq<Token>)
    ensures Terminated(ts) && TrimsScan(source, ts)
    ensures forall s: string :: s != "" && source == Escape(s) ==> (OnlyText(ts, s) <==> !StatementLine(s, true))
  {
    var l := new Scanner(source);
    l.Run();
    ts := ApplyTrims(l.out);
    ghost var raw := l.out;
    TrimmedEnding(raw, ts);
    assert Scanned(source, raw);
    forall s: string | s != "" && source == Escape(s)
      ensures OnlyText(ts, s) <==> !StatementLine(s, true)
    {
      EscapedDoor(s, true);
      EscapedText(s);
      EscapedStream(s, raw, ts);
    }
  }
}
