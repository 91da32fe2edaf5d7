/**
 * The lexer: a cursor over the source text that skips whitespace and emits
 * one token per operator, punctuation character, number literal or
 * identifier, failing at the first offset where none of these starts.
 *
 * `Scan` is the specification of the token list; the `Lexer` class runs the
 * same rules with a moving cursor.
 */
module Lexing {
  import opened Wrappers
  import opened Tokens

  datatype LexError =
    | UnknownCharacter(pos: int, ch: char)
    | NumberParsingFailed(pos: int)

  // ---------------------------------------------------------------------
  // Character classes
  // ---------------------------------------------------------------------

  /**
   * Java's `Character.isWhitespace` as Java 9 and later define it: the
   * Unicode space, line and paragraph separators other than the no-break
   * spaces, plus the ASCII controls U+0009..U+000D and U+001C..U+001F.
   */
  predicate IsWhitespace(c: char) {
    c == ' ' || ('\t' <= c <= '\r') || ('\U{1C}' <= c <= '\U{1F}')
    || c == '\U{1680}' || ('\U{2000}' <= c <= '\U{2006}') || ('\U{2008}' <= c <= '\U{200A}')
    || c == '\U{2028}' || c == '\U{2029}' || c == '\U{205F}' || c == '\U{3000}'
  }

  predicate IsDigit(c: char) {
    '0' <= c <= '9'
  }

  predicate IsLetter(c: char) {
    ('A' <= c <= 'Z') || ('a' <= c <= 'z')
  }

  predicate IsWordChar(c: char) {
    IsDigit(c) || IsLetter(c) || c == '_'
  }

  predicate IsOperatorChar(c: char) {
    c == '-' || c == '+' || c == '*' || c == '/' || c == '%' || c == '^'
  }

  predicate IsPunctuation(c: char) {
    c == ',' || c == '(' || c == ')'
  }

  // ---------------------------------------------------------------------
  // Longest runs
  // ---------------------------------------------------------------------

  /** The first offset at or after `i` that is not whitespace. */
  function WhitespaceEnd(s: string, i: nat): (j: nat)
    requires i <= |s|
    ensures i <= j <= |s|
    ensures forall k :: i <= k < j ==> IsWhitespace(s[k])
    ensures j < |s| ==> !IsWhitespace(s[j])
    decreases |s| - i
  {
    if i < |s| && IsWhitespace(s[i]) then WhitespaceEnd(s, i + 1) else i
  }

  /** The end of the longest run of digits starting at `i`. */
  function DigitsEnd(s: string, i: nat): (j: nat)
    requires i <= |s|
    ensures i <= j <= |s|
    ensures forall k :: i <= k < j ==> IsDigit(s[k])
    ensures j < |s| ==> !IsDigit(s[j])
    decreases |s| - i
  {
    if i < |s| && IsDigit(s[i]) then DigitsEnd(s, i + 1) else i
  }

  /** The end of the longest run of letters, digits and underscores starting at `i`. */
  function WordEnd(s: string, i: nat): (j: nat)
    requires i <= |s|
    ensures i <= j <= |s|
    ensures forall k :: i <= k < j ==> IsWordChar(s[k])
    ensures j < |s| ==> !IsWordChar(s[j])
    decreases |s| - i
  {
    if i < |s| && IsWordChar(s[i]) then WordEnd(s, i + 1) else i
  }

  // ---------------------------------------------------------------------
  // Number literals: [0-9]*(\.[0-9]+)?([eE][+-]?[0-9]+)?
  // ---------------------------------------------------------------------

  /** The end of an optional `.digits` part starting at `i`. */
  function FractionEnd(s: string, i: nat): (j: nat)
    requires i <= |s|
    ensures i <= j <= |s|
  {
    if i + 1 < |s| && s[i] == '.' && IsDigit(s[i + 1]) then DigitsEnd(s, i + 1) else i
  }

  /** The end of an optional `[eE][+-]?digits` part starting at `i`. */
  function ExponentEnd(s: string, i: nat): (j: nat)
    requires i <= |s|
    ensures i <= j <= |s|
  {
    if i < |s| && (s[i] == 'e' || s[i] == 'E') then
      var d := if i + 1 < |s| && (s[i + 1] == '+' || s[i + 1] == '-') then i + 2 else i + 1;
      if d < |s| && IsDigit(s[d]) then DigitsEnd(s, d) else i
    else i
  }

  /** The end of the longest number-literal match starting at `i` (possibly empty). */
  function NumberEnd(s: string, i: nat): (j: nat)
    requires i <= |s|
    ensures i <= j <= |s|
  {
    ExponentEnd(s, FractionEnd(s, DigitsEnd(s, i)))
  }

  predicate AllDigits(t: string) {
    forall k :: 0 <= k < |t| ==> IsDigit(t[k])
  }

  predicate IsFractionText(t: string) {
    |t| >= 2 && t[0] == '.' && AllDigits(t[1..])
  }

  predicate IsExponentText(t: string) {
    |t| >= 2 && (t[0] == 'e' || t[0] == 'E') &&
    (AllDigits(t[1..]) || (|t| >= 3 && (t[1] == '+' || t[1] == '-') && AllDigits(t[2..])))
  }

  /** The language of the number pattern, stated independently of the scanner. */
  ghost predicate IsNumberText(t: string) {
    exists a, b :: NumberSplit(t, a, b)
  }

  /** `t[..a]` is the digit run, `t[a..b]` the optional fraction, `t[b..]` the optional exponent. */
  predicate NumberSplit(t: string, a: int, b: int) {
    0 <= a <= b <= |t| && AllDigits(t[..a]) &&
    (a == b || IsFractionText(t[a..b])) && (b == |t| || IsExponentText(t[b..]))
  }

  /** The identifier pattern `[A-Za-z][0-9A-Za-z_]*`. */
  predicate IsIdentifierText(t: string) {
    |t| >= 1 && IsLetter(t[0]) && forall k :: 1 <= k < |t| ==> IsWordChar(t[k])
  }

  /** The number scanner finds the longest prefix in the number language. */
  lemma NumberEndIsLongestMatch(s: string, i: nat)
    requires i <= |s|
    ensures IsNumberText(s[i..NumberEnd(s, i)])
    ensures forall k :: NumberEnd(s, i) < k <= |s| ==> !IsNumberText(s[i..k])
  {
    NumberEndMatches(s, i);
    forall k | NumberEnd(s, i) < k <= |s| ensures !IsNumberText(s[i..k]) {
      NumberNotLonger(s, i, k);
    }
  }

  lemma NumberEndMatches(s: string, i: nat)
    requires i <= |s|
    ensures NumberSplit(s[i..NumberEnd(s, i)], DigitsEnd(s, i) - i, FractionEnd(s, DigitsEnd(s, i)) - i)
  {
    var d := DigitsEnd(s, i);
    var f := FractionEnd(s, d);
    var e := ExponentEnd(s, f);
    var t := s[i..e];
    assert t[..d - i] == s[i..d];
    SliceOfSlice(s, i, e, d - i, f - i);
    assert t[f - i..] == s[f..e];
    DigitsMatched(s, i);
    FractionMatched(s, d);
    ExponentMatched(s, f);
  }

  lemma DigitsMatched(s: string, i: nat)
    requires i <= |s|
    ensures AllDigits(s[i..DigitsEnd(s, i)])
  {
  }

  lemma SliceOfSlice(s: string, i: nat, e: nat, a: nat, b: nat)
    requires i <= e <= |s| && a <= b <= e - i
    ensures s[i..e][a..b] == s[i + a..i + b]
  {
    assert forall k :: 0 <= k < b - a ==> s[i..e][a..b][k] == s[i + a + k];
  }

  lemma FractionMatched(s: string, d: nat)
    requires d <= |s|
    ensures FractionEnd(s, d) == d || IsFractionText(s[d..FractionEnd(s, d)])
  {
    var f := FractionEnd(s, d);
    if f > d {
      assert s[d..f][1..] == s[d + 1..f];
    }
  }

  lemma ExponentMatched(s: string, f: nat)
    requires f <= |s|
    ensures ExponentEnd(s, f) == f || IsExponentText(s[f..ExponentEnd(s, f)])
  {
    var e := ExponentEnd(s, f);
    if e > f {
      if s[f + 1] == '+' || s[f + 1] == '-' {
        assert s[f..e][2..] == s[f + 2..e];
      } else {
        assert s[f..e][1..] == s[f + 1..e];
      }
    }
  }

  lemma NumberNotLonger(s: string, i: nat, k: nat)
    requires i <= |s| && NumberEnd(s, i) < k <= |s|
    ensures !IsNumberText(s[i..k])
  {
    forall a, b ensures !NumberSplit(s[i..k], a, b) {
      NoLongerSplit(s, i, k, a, b);
    }
  }

  /** No way of splitting a text longer than the scanner's match fits the pattern. */
  lemma NoLongerSplit(s: string, i: nat, k: nat, a: int, b: int)
    requires i <= |s| && NumberEnd(s, i) < k <= |s|
    ensures !NumberSplit(s[i..k], a, b)
  {
    var t := s[i..k];
    var d := DigitsEnd(s, i);
    var f := FractionEnd(s, d);
    if !(0 <= a <= b <= |t|) {
    } else if a < d - i {
      // the digit run stops early, so a digit follows it
      assert IsDigit(t[a]);
      if a < b {
        assert t[a..b][0] == t[a];
      } else {
        assert t[b..][0] == t[a];
      }
    } else if a > d - i {
      // the digit run takes in the scanner's first non-digit
      assert t[..a][d - i] == s[d];
    } else if f > d && b == a {
      assert t[b..][0] == s[d];
    } else if f > d && b > f - i {
      assert t[a..b][1..][f - i - a - 1] == s[f];
    } else if f > d && b < f - i {
      assert t[b..][0] == s[i + b];
    } else if f == d && b > a {
      assert t[a..b][0] == s[d];
      if b > a + 1 {
        assert t[a..b][1..][0] == s[d + 1];
      }
    } else {
      assert b == f - i;
      assert t[b..] == s[f..k];
      ExponentCannotExtend(s, f, k);
    }
  }

  /** No exponent text extends past the scanner's exponent. */
  lemma ExponentCannotExtend(s: string, f: nat, k: nat)
    requires f <= |s| && ExponentEnd(s, f) < k <= |s|
    ensures !IsExponentText(s[f..k])
  {
    var x := s[f..k];
    var e := ExponentEnd(s, f);
    assert x[0] == s[f];
    if (s[f] == 'e' || s[f] == 'E') && k >= f + 2 {
      var signed := s[f + 1] == '+' || s[f + 1] == '-';
      var g := if signed then f + 2 else f + 1;
      assert x[1] == s[f + 1];
      if g < |s| && IsDigit(s[g]) {
        assert e == DigitsEnd(s, g);
        assert x[1..][e - f - 1] == s[e];
        if signed {
          assert x[2..][e - f - 2] == s[e];
        }
      } else {
        assert x[1..][0] == s[f + 1];
        if signed && k >= f + 3 {
          assert x[2..][0] == s[g];
        }
      }
    }
  }

  /** The identifier scanner finds the longest prefix in the identifier language. */
  lemma IdentifierIsLongestMatch(s: string, i: nat)
    requires i < |s| && IsLetter(s[i])
    ensures IsIdentifierText(s[i..WordEnd(s, i + 1)])
    ensures forall k :: WordEnd(s, i + 1) < k <= |s| ==> !IsIdentifierText(s[i..k])
  {
    var w := WordEnd(s, i + 1);
    forall k | w < k <= |s| ensures !IsIdentifierText(s[i..k]) {
      assert s[i..k][w - i] == s[w];
    }
  }

  // ---------------------------------------------------------------------
  // Number values (Double.parseDouble on a matched literal)
  // ---------------------------------------------------------------------

  function DigitsValue(t: string): nat
    requires AllDigits(t)
  {
    if |t| == 0 then 0
    else DigitsValue(t[..|t| - 1]) * 10 + (t[|t| - 1] as int - '0' as int)
  }

  function Pow10(n: nat): (r: nat)
    ensures r >= 1
  {
    if n == 0 then 1 else 10 * Pow10(n - 1)
  }

  /**
   * The value of the number literal matched at `i`: the exact decimal value
   * of mantissa and exponent. Parsing fails exactly when the mantissa holds
   * no digit, which for a non-empty match means the match is a bare exponent.
   */
  function ParseNumber(s: string, i: nat): Option<real>
    requires i <= |s|
  {
    var d := DigitsEnd(s, i);
    var f := FractionEnd(s, d);
    var e := ExponentEnd(s, f);
    if f == i then None
    else
      var fraction := if f > d then s[d + 1..f] else "";
      var mantissa := DigitsValue(s[i..d] + fraction);
      var exponent := if e > f then ExponentValue(s, f) else 0;
      var scale := exponent - |fraction|;
      Some(if scale >= 0 then (mantissa * Pow10(scale)) as real
           else mantissa as real / Pow10(-scale) as real)
  }

  /** The signed value of the exponent part starting at `f`. */
  function ExponentValue(s: string, f: nat): int
    requires f <= |s| && ExponentEnd(s, f) > f
  {
    var signed := s[f + 1] == '+' || s[f + 1] == '-';
    var start := if signed then f + 2 else f + 1;
    var magnitude: int := DigitsValue(s[start..ExponentEnd(s, f)]);
    if s[f + 1] == '-' then -magnitude else magnitude
  }

  /** A non-empty number match fails to parse exactly when it is a bare exponent such as `e5`. */
  lemma ParseFailsOnBareExponent(s: string, i: nat)
    requires i <= |s| && NumberEnd(s, i) > i
    ensures ParseNumber(s, i).None? <==> IsExponentText(s[i..NumberEnd(s, i)])
  {
    var d := DigitsEnd(s, i);
    var f := FractionEnd(s, d);
    var t := s[i..NumberEnd(s, i)];
    if f == i {
      var e := ExponentEnd(s, f);
      assert t == s[f..e];
      if s[f + 1] == '+' || s[f + 1] == '-' {
        assert t[2..] == s[f + 2..e];
      } else {
        assert t[1..] == s[f + 1..e];
      }
    } else {
      assert t[0] == s[i];
    }
  }

  // ---------------------------------------------------------------------
  // The specification of tokenize
  // ---------------------------------------------------------------------

  datatype Step = Emit(token: Token, next: nat) | Stop(error: LexError)

  /** What one pass of the lexer's loop does at a non-whitespace offset `i`. */
  function Rule(s: string, i: nat): (r: Step)
    requires i < |s|
    ensures r.Emit? ==> i < r.next <= |s| && r.token.pos == i
    ensures r.Stop? ==> r.error.pos == i
  {
    var ch := s[i];
    if IsOperatorChar(ch) then Emit(OperatorToken(i, ch), i + 1)
    else if IsPunctuation(ch) then Emit(CharacterToken(i, ch), i + 1)
    else if NumberEnd(s, i) > i then
      match ParseNumber(s, i)
      case None => Stop(NumberParsingFailed(i))
      case Some(v) => Emit(NumberToken(i, v), NumberEnd(s, i))
    else if IsLetter(ch) then
      var w := WordEnd(s, i + 1);
      Emit(IdentifierToken(i, s[i..w]), w)
    else Stop(UnknownCharacter(i, ch))
  }

  /** The token list of `s` from offset `i`, or the first lexical error. */
  function Scan(s: string, i: nat): Result<seq<Token>, LexError>
    requires i <= |s|
    decreases |s| - i
  {
    var j := WhitespaceEnd(s, i);
    if j == |s| then Success([])
    else match Rule(s, j)
      case Stop(err) => Failure(err)
      case Emit(t, k) =>
        var rest :- Scan(s, k);
        Success([t] + rest)
  }

  function Prepend(tokens: seq<Token>, r: Result<seq<Token>, LexError>): Result<seq<Token>, LexError> {
    match r
    case Success(ts) => Success(tokens + ts)
    case Failure(err) => Failure(err)
  }

  lemma PrependNothing(r: Result<seq<Token>, LexError>)
    ensures Prepend([], r) == r
  {
    if r.Success? {
      assert [] + r.value == r.value;
    }
  }

  lemma PrependTwice(tokens: seq<Token>, t: Token, r: Result<seq<Token>, LexError>)
    ensures Prepend(tokens, Prepend([t], r)) == Prepend(tokens + [t], r)
  {
    if r.Success? {
      assert tokens + ([t] + r.value) == (tokens + [t]) + r.value;
    }
  }

  lemma ScanSkipsWhitespace(s: string, i: nat)
    requires i <= |s|
    ensures Scan(s, WhitespaceEnd(s, i)) == Scan(s, i)
  {
    var j := WhitespaceEnd(s, i);
    assert WhitespaceEnd(s, j) == j;
  }

  // ---------------------------------------------------------------------
  // Properties of the token list
  // ---------------------------------------------------------------------

  /**
   * Each token is what the rules emit at its own offset; offsets are strictly
   * increasing and lie inside the text; the text between one token's end and
   * the next token's start (and before the first token) is whitespace.
   */
  lemma {:induction false} TokensCoverText(s: string, i: nat)
    requires i <= |s| && Scan(s, i).Success?
    ensures var ts := Scan(s, i).value;
      (forall k :: 0 <= k < |ts| ==>
        i <= ts[k].pos < |s| && !IsWhitespace(s[ts[k].pos]) &&
        Rule(s, ts[k].pos).Emit? && Rule(s, ts[k].pos).token == ts[k]) &&
      (forall k :: 0 <= k < |ts| - 1 ==> ts[k].pos < ts[k + 1].pos) &&
      (forall k :: 0 <= k < |ts| - 1 ==> ts[k + 1].pos == WhitespaceEnd(s, Rule(s, ts[k].pos).next)) &&
      (|ts| > 0 ==> ts[0].pos == WhitespaceEnd(s, i))
    decreases |s| - i
  {
    var j := WhitespaceEnd(s, i);
    if j < |s| {
      var k := Rule(s, j).next;
      TokensCoverText(s, k);
      var rest := Scan(s, k).value;
      assert Scan(s, i).value == [Rule(s, j).token] + rest;
    }
  }

  /** The text yields no token exactly when it is all whitespace. */
  lemma BlankIffNoTokens(s: string)
    ensures Scan(s, 0) == Success([]) <==> forall k :: 0 <= k < |s| ==> IsWhitespace(s[k])
  {
    var j := WhitespaceEnd(s, 0);
    if forall k :: 0 <= k < |s| ==> IsWhitespace(s[k]) {
      assert j == |s|;
    }
    if Scan(s, 0) == Success([]) {
      assert j == |s|;
    }
  }

  /**
   * A lexical error is reported at an offset inside the text: either a
   * bare-exponent number match, or a character that starts no rule.
   */
  lemma {:induction false} ErrorPosition(s: string, i: nat)
    requires i <= |s| && Scan(s, i).Failure?
    ensures var err := Scan(s, i).error;
      i <= err.pos < |s| && !IsWhitespace(s[err.pos]) &&
      (err.NumberParsingFailed? ==>
        NumberEnd(s, err.pos) > err.pos && ParseNumber(s, err.pos).None? &&
        !IsOperatorChar(s[err.pos]) && !IsPunctuation(s[err.pos])) &&
      (err.UnknownCharacter? ==>
        err.ch == s[err.pos] && !IsOperatorChar(err.ch) && !IsPunctuation(err.ch) &&
        !IsLetter(err.ch) && NumberEnd(s, err.pos) == err.pos)
    decreases |s| - i
  {
    var j := WhitespaceEnd(s, i);
    if Rule(s, j).Emit? {
      ErrorPosition(s, Rule(s, j).next);
    }
  }

  /** `e5` is a (bare exponent) number match, so it fails rather than lexing as an identifier. */
  lemma BareExponentFails()
    ensures Scan("e5", 0) == Failure(NumberParsingFailed(0))
  {
    assert DigitsEnd("e5", 0) == 0;
    assert FractionEnd("e5", 0) == 0;
    assert DigitsEnd("e5", 1) == 2;
    assert NumberEnd("e5", 0) == 2;
  }

  /** A `.` not followed by a digit starts no rule. */
  lemma LoneDotFails()
    ensures Scan("5.", 0) == Failure(UnknownCharacter(1, '.'))
  {
    assert DigitsEnd("5.", 0) == 1;
    assert FractionEnd("5.", 1) == 1;
    assert NumberEnd("5.", 0) == 1;
    assert "5."[0..1] + "" == "5";
    assert DigitsValue("5") == 5 by { assert "5"[..0] == ""; }
    assert Rule("5.", 0) == Emit(NumberToken(0, 5.0), 1);
    assert NumberEnd("5.", 1) == 1;
  }

  // ---------------------------------------------------------------------
  // The lexer's cursor
  // ---------------------------------------------------------------------

  class Lexer {
    const expression: string
    var position: nat

    constructor (expression: string)
      ensures this.expression == expression && position == 0
    {
      this.expression := expression;
      position := 0;
    }

    function Peek(): char
      reads this
      requires position < |expression|
    {
      expression[position]
    }

    method SkipWhitespace()
      requires position <= |expression|
      modifies this
      ensures position == WhitespaceEnd(expression, old(position))
    {
      while position < |expression| && IsWhitespace(Peek())
        invariant old(position) <= position <= |expression|
        invariant WhitespaceEnd(expression, position) == WhitespaceEnd(expression, old(position))
        decreases |expression| - position
      {
        position := position + 1;
      }
    }

    /**
     * One pass of the loop body once whitespace is skipped: emit the token
     * starting at the cursor and move past it, or report why none starts there.
     */
    method NextToken() returns (step: Step)
      requires position < |expression|
      modifies this
      ensures step == Rule(expression, old(position))
      ensures position == if step.Emit? then step.next else old(position)
    {
      var ch := Peek();
      if IsOperatorChar(ch) {
        step := Emit(OperatorToken(position, ch), position + 1);
      } else if IsPunctuation(ch) {
        step := Emit(CharacterToken(position, ch), position + 1);
      } else {
        var numberEnd := NumberEnd(expression, position);
        if numberEnd > position {
          var value := ParseNumber(expression, position);
          if value.None? {
            return Stop(NumberParsingFailed(position));
          }
          step := Emit(NumberToken(position, value.value), numberEnd);
        } else if IsLetter(ch) {
          var wordEnd := WordEnd(expression, position + 1);
          step := Emit(IdentifierToken(position, expression[position..wordEnd]), wordEnd);
        } else {
          return Stop(UnknownCharacter(position, ch));
        }
      }
      position := step.next;
    }

    /** The token list from the cursor on: the loop runs `Rule` until the text ends or a rule fails. */
    method Tokenize() returns (r: Result<seq<Token>, LexError>)
      requires position <= |expression|
      modifies this
      ensures r == Scan(expression, old(position))
    {
      var tokens: seq<Token> := [];
      PrependNothing(Scan(expression, position));
      while true
        invariant position <= |expression|
        invariant Scan(expression, old(position)) == Prepend(tokens, Scan(expression, position))
        decreases |expression| - position
      {
        ScanSkipsWhitespace(expression, position);
        SkipWhitespace();
        if position >= |expression| {
          break;
        }
        ghost var start := position;
        assert WhitespaceEnd(expression, start) == start;
        var step := NextToken();
        if step.Stop? {
          return Failure(step.error);
        }
        PrependTwice(tokens, step.token, Scan(expression, position));
        tokens := tokens + [step.token];
        if position >= |expression| {
          break;
        }
      }
      assert Scan(expression, position) == Success([]);
      assert tokens + [] == tokens;
      return Success(tokens);
    }
  }

  /** `Lexer.tokenize(expression)`: run a fresh lexer over the whole text. */
  method TokenizeText(expression: string) returns (r: Result<seq<Token>, LexError>)
    ensures r == Scan(expression, 0)
  {
    var lexer := new Lexer(expression);
    r := lexer.Tokenize();
  }
}
