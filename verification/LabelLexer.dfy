/** The label-selector lexer: a functional account of the tokens of a string, and the lexer
  * object (a position that is read and unread byte by byte) proved to produce exactly those. */
module LabelLexer {
  import opened Wrappers
  import opened LabelStrings

  datatype Token =
    | ErrorToken | EndOfStringToken | ClosedParToken | CommaToken | DoesNotExistToken
    | DoubleEqualsToken | EqualsToken | GreaterThanToken | IdentifierToken | InToken
    | LessThanToken | NotEqualsToken | NotInToken | OpenParToken

  datatype ScannedItem = ScannedItem(tok: Token, literal: string)

  /** The rows of the literal table that hold one symbol. */
  function SymbolToken(c: char): Option<Token> {
    match c
    case ')' => Some(ClosedParToken)
    case ',' => Some(CommaToken)
    case '!' => Some(DoesNotExistToken)
    case '=' => Some(EqualsToken)
    case '>' => Some(GreaterThanToken)
    case '<' => Some(LessThanToken)
    case '(' => Some(OpenParToken)
    case _ => None
  }

  /** The table from literals to tokens. */
  function StringToToken(s: string): (t: Option<Token>)
    ensures t != Some(ErrorToken) && t != Some(EndOfStringToken) && t != Some(IdentifierToken)
  {
    if |s| == 1 then SymbolToken(s[0])
    else if |s| == 2 && s[0] == '=' && s[1] == '=' then Some(DoubleEqualsToken)
    else if |s| == 2 && s[0] == '!' && s[1] == '=' then Some(NotEqualsToken)
    else if |s| == 2 && s[0] == 'i' && s[1] == 'n' then Some(InToken)
    else if |s| == 5 && s[0] == 'n' && s[1] == 'o' && s[2] == 't' && s[3] == 'i' && s[4] == 'n' then Some(NotInToken)
    else None
  }

  /** The item for an identifier or keyword. */
  function WordItem(w: string): ScannedItem {
    match StringToToken(w)
    case Some(t) => ScannedItem(t, w)
    case None => ScannedItem(IdentifierToken, w)
  }

  // ---- what one call of Lex does to the unread suffix of the input ----

  function SkipBlanks(s: string): (r: string)
    ensures |r| <= |s|
    ensures r == "" || !IsWhitespace(r[0])
  {
    if s != "" && IsWhitespace(s[0]) then SkipBlanks(s[1..]) else s
  }

  /** The length of the longest identifier at the front of `s`. */
  function WordLength(s: string): (n: nat)
    ensures n <= |s| && AllPlain(s[..n])
    ensures n < |s| ==> !IsPlain(s[n])
  {
    if s != "" && IsPlain(s[0]) then
      var n := WordLength(s[1..]);
      assert s[..1 + n] == [s[0]] + s[1..][..n];
      1 + n
    else 0
  }

  /** The length of the longest operator at the front of `s`. */
  function SymbolLength(s: string): (n: nat)
    requires s != "" && IsSpecialSymbol(s[0])
    ensures 1 <= n <= |s| && StringToToken(s[..n]).Some?
  {
    if |s| >= 2 && s[1] == '=' && (s[0] == '=' || s[0] == '!') then 2 else 1
  }

  lemma SymbolLengthIsLongest(s: string, m: nat)
    requires s != "" && IsSpecialSymbol(s[0])
    requires SymbolLength(s) < m <= |s|
    ensures StringToToken(s[..m]).None?
  {}

  /** A NUL that ends a token is swallowed with it. */
  function DropNul(s: string): string {
    if s != "" && s[0] == NUL then s[1..] else s
  }

  datatype Lexeme = Lexeme(item: ScannedItem, rest: string)

  function LexOne(s: string): (r: Lexeme)
    ensures |r.rest| <= |s|
    ensures r.item.tok != EndOfStringToken ==> |r.rest| < |s|
    ensures r.item.tok != ErrorToken
  {
    var t := SkipBlanks(s);
    if t == "" || t[0] == NUL then Lexeme(ScannedItem(EndOfStringToken, ""), DropNul(t))
    else if IsSpecialSymbol(t[0]) then
      var n := SymbolLength(t);
      Lexeme(ScannedItem(StringToToken(t[..n]).value, t[..n]), DropNul(t[n..]))
    else
      var n := WordLength(t);
      Lexeme(WordItem(t[..n]), DropNul(t[n..]))
  }

  /** The parser's input: the last item, and no other, marks the end of the string. */
  predicate IsStream(items: seq<ScannedItem>) {
    && 0 < |items|
    && items[|items| - 1].tok == EndOfStringToken
    && forall i :: 0 <= i < |items| - 1 ==> items[i].tok != EndOfStringToken
  }

  /** All items of `s`: total on every string, never an error token, one end marker. */
  function Scan(s: string): (items: seq<ScannedItem>)
    ensures IsStream(items)
    ensures forall i :: 0 <= i < |items| ==> items[i].tok != ErrorToken
    ensures |items| <= |s| + 1
    decreases |s|
  {
    var l := LexOne(s);
    if l.item.tok == EndOfStringToken then [l.item] else [l.item] + Scan(l.rest)
  }

  // ---- the lexer object ----

  class Lexer {
    const s: string
    var pos: nat

    ghost predicate Valid()
      reads this
    {
      pos <= |s|
    }

    ghost function Rest(): string
      reads this
      requires Valid()
    {
      s[pos..]
    }

    constructor (input: string)
      ensures Valid() && s == input && Rest() == input
    {
      s := input;
      pos := 0;
    }

    method Read() returns (b: char)
      requires Valid()
      modifies this
      ensures Valid()
      ensures if old(pos) == |s| then b == NUL && pos == old(pos) else b == s[old(pos)] && pos == old(pos) + 1
    {
      b := NUL;
      if pos < |s| {
        b := s[pos];
        pos := pos + 1;
      }
    }

    method Unread()
      requires Valid() && pos > 0
      modifies this
      ensures Valid() && pos == old(pos) - 1
    {
      pos := pos - 1;
    }

    method ScanIdOrKeyword() returns (tok: Token, lit: string)
      requires Valid() && Rest() != "" && IsPlain(Rest()[0])
      modifies this
      ensures Valid()
      ensures var n := WordLength(old(Rest()));
              ScannedItem(tok, lit) == WordItem(old(Rest())[..n]) && Rest() == DropNul(old(Rest())[n..])
    {
      var buffer := "";
      ghost var start := pos;
      var done := false;
      while !done
        invariant Valid() && start + |buffer| <= |s|
        invariant buffer == s[start..][..|buffer|] && AllPlain(buffer)
        invariant !done ==> pos == start + |buffer|
        invariant done ==> Rest() == DropNul(s[start + |buffer|..])
        invariant done ==> start + |buffer| == |s| || !IsPlain(s[start + |buffer|])
        decreases |s| - start - |buffer|, !done
      {
        var ch := Read();
        if ch == NUL {
          done := true;
        } else if IsSpecialSymbol(ch) || IsWhitespace(ch) {
          Unread();
          done := true;
        } else {
          buffer := buffer + [ch];
        }
      }
      WordLengthUnique(s[start..], |buffer|);
      assert s[start..][|buffer|..] == s[start + |buffer|..];
      match StringToToken(buffer) {
        case Some(val) => tok, lit := val, buffer;
        case None => tok, lit := IdentifierToken, buffer;
      }
    }

    method ScanSpecialSymbol() returns (tok: Token, lit: string)
      requires Valid() && Rest() != "" && IsSpecialSymbol(Rest()[0])
      modifies this
      ensures Valid()
      ensures var n := SymbolLength(old(Rest()));
              && StringToToken(old(Rest())[..n]) == Some(tok) && lit == old(Rest())[..n]
              && Rest() == DropNul(old(Rest())[n..])
    {
      hide StringToToken, SymbolLength;
      var last := ScannedItem(ErrorToken, "");
      var buffer := "";
      ghost var start, input := pos, Rest();
      var done := false;
      while !done
        invariant Valid() && |buffer| <= |input| && buffer == input[..|buffer|]
        invariant forall i :: 0 <= i < |buffer| ==> IsSpecialSymbol(input[i])
        invariant !done ==> pos == start + |buffer|
        invariant !done && |buffer| == 0 ==> last.tok == ErrorToken
        invariant !done && |buffer| > 0 ==> last.literal == buffer && StringToToken(buffer) == Some(last.tok)
        invariant done ==> last.literal == input[..SymbolLength(input)] && StringToToken(last.literal) == Some(last.tok)
        invariant done ==> Rest() == DropNul(input[SymbolLength(input)..])
        decreases |input| - |buffer|, !done
      {
        assert input[|buffer|..] == s[start + |buffer|..];
        var ch := Read();
        if ch == NUL {
          SymbolLengthUnique(input, |buffer|);
          done := true;
        } else if IsSpecialSymbol(ch) {
          assert input[..|buffer| + 1] == buffer + [ch];
          SymbolTable(buffer + [ch]);
          buffer := buffer + [ch];
          match StringToToken(buffer) {
            case Some(token) =>
              last := ScannedItem(token, buffer);
            case None =>
              if last.tok != ErrorToken {
                assert buffer[..|buffer| - 1] == last.literal;
                SymbolLengthUnique(input, |buffer| - 1);
                Unread();
                done := true;
              }
          }
        } else {
          SymbolLengthUnique(input, |buffer|);
          Unread();
          done := true;
        }
      }
      tok, lit := last.tok, last.literal;
    }

    /** `ch` is what Read returned, and this lexer what it left, on an input with `unread` to come. */
    ghost predicate HasRead(ch: char, unread: string)
      reads this
    {
      Valid() && if unread == "" then ch == NUL && pos == |s| else pos > 0 && unread == s[pos - 1..] && ch == s[pos - 1]
    }

    method SkipWhiteSpaces(first: char, ghost unread: string) returns (ch: char)
      requires HasRead(first, unread)
      modifies this
      ensures HasRead(ch, SkipBlanks(unread))
    {
      ch := first;
      ghost var u := unread;
      while IsWhitespace(ch)
        invariant HasRead(ch, u) && SkipBlanks(u) == SkipBlanks(unread)
        decreases |u|
      {
        u := u[1..];
        ch := Read();
      }
    }

    method Lex() returns (tok: Token, lit: string)
      requires Valid()
      modifies this
      ensures Valid()
      ensures Lexeme(ScannedItem(tok, lit), Rest()) == LexOne(old(Rest()))
    {
      var ch := Read();
      ch := SkipWhiteSpaces(ch, old(Rest()));
      if ch == NUL {
        tok, lit := EndOfStringToken, "";
      } else if IsSpecialSymbol(ch) {
        Unread();
        tok, lit := ScanSpecialSymbol();
      } else {
        Unread();
        tok, lit := ScanIdOrKeyword();
      }
    }
  }

  lemma {:induction false} WordLengthUnique(s: string, n: nat)
    requires n <= |s| && AllPlain(s[..n]) && (n == |s| || !IsPlain(s[n]))
    ensures WordLength(s) == n
  {}

  /** Every single symbol is an operator, and only "==" and "!=" are longer. */
  lemma SymbolTable(s: string)
    requires s != "" && forall i :: 0 <= i < |s| ==> IsSpecialSymbol(s[i])
    ensures StringToToken(s).Some? <==> |s| == 1 || (|s| == 2 && s[1] == '=' && (s[0] == '=' || s[0] == '!'))
    ensures StringToToken(s) != Some(ErrorToken)
  {}

  lemma SymbolLengthUnique(s: string, n: nat)
    requires 1 <= n <= |s|
    requires forall i :: 0 <= i < n ==> IsSpecialSymbol(s[i])
    requires StringToToken(s[..n]).Some?
    requires n == |s| || !IsSpecialSymbol(s[n]) || StringToToken(s[..n + 1]).None?
    ensures SymbolLength(s) == n
  {}

  // ---- no byte is lost, and every item is what the table says of its literal ----

  function Literals(items: seq<ScannedItem>): string {
    if items == [] then "" else items[0].literal + Literals(items[1..])
  }

  function WithoutBlanks(s: string): string {
    if s == "" then "" else (if IsWhitespace(s[0]) then "" else [s[0]]) + WithoutBlanks(s[1..])
  }

  predicate Classified(i: ScannedItem) {
    if i.tok == EndOfStringToken then i.literal == ""
    else if i.tok == IdentifierToken then i.literal != "" && AllPlain(i.literal) && StringToToken(i.literal).None?
    else StringToToken(i.literal) == Some(i.tok)
  }

  lemma {:induction false} WithoutBlanksSplit(a: string, b: string)
    ensures WithoutBlanks(a + b) == WithoutBlanks(a) + WithoutBlanks(b)
  {
    if a == "" {
      assert a + b == b;
    } else {
      assert (a + b)[1..] == a[1..] + b;
      WithoutBlanksSplit(a[1..], b);
    }
  }

  lemma {:induction false} NoBlanks(s: string)
    requires forall i :: 0 <= i < |s| ==> !IsWhitespace(s[i])
    ensures WithoutBlanks(s) == s
  {
    if s != "" { NoBlanks(s[1..]); }
  }

  lemma {:induction false} BlanksSkipped(s: string)
    ensures WithoutBlanks(SkipBlanks(s)) == WithoutBlanks(s)
    ensures NUL !in s ==> NUL !in SkipBlanks(s)
  {
    if s != "" && IsWhitespace(s[0]) { BlanksSkipped(s[1..]); }
  }

  /** One item stands for the bytes between the blanks and what is left. */
  lemma LexOneSplits(s: string)
    requires NUL !in SkipBlanks(s)
    ensures var l := LexOne(s);
      && SkipBlanks(s) == l.item.literal + l.rest && Classified(l.item)
      && forall i :: 0 <= i < |l.item.literal| ==> !IsWhitespace(l.item.literal[i])
  {
    hide SkipBlanks;
    var t := SkipBlanks(s);
    if t != "" && !IsSpecialSymbol(t[0]) { hide StringToToken; }
  }

  lemma LexOneKeepsBytes(s: string)
    requires NUL !in s
    ensures var l := LexOne(s); Classified(l.item) && WithoutBlanks(s) == l.item.literal + WithoutBlanks(l.rest)
    ensures NUL !in LexOne(s).rest
  {
    hide WithoutBlanks, StringToToken, LexOne, SkipBlanks, Classified;
    BlanksSkipped(s);
    LexOneSplits(s);
    var l := LexOne(s);
    NoBlanks(l.item.literal);
    WithoutBlanksSplit(l.item.literal, l.rest);
    assert forall c :: c in l.rest ==> c in l.item.literal + l.rest;
  }

  /** In a string without NUL, the literals of the items are all bytes that are not blank, in order. */
  lemma {:induction false} ScanKeepsBytes(s: string)
    requires NUL !in s
    ensures Literals(Scan(s)) == WithoutBlanks(s)
    ensures forall i :: 0 <= i < |Scan(s)| ==> Classified(Scan(s)[i])
    decreases |s|
  {
    hide LexOne, Classified, WithoutBlanks;
    LexOneKeepsBytes(s);
    var l := LexOne(s);
    if l.item.tok == EndOfStringToken {
      EndOfBytes(s);
    } else {
      ScanKeepsBytes(l.rest);
    }
  }

  lemma EndOfBytes(s: string)
    requires NUL !in s && LexOne(s).item.tok == EndOfStringToken
    ensures WithoutBlanks(s) == "" && LexOne(s).item.literal == ""
  {
    BlanksSkipped(s);
  }

  /** Blanks in front of an item, of any of the four kinds, do not matter. */
  lemma BlanksDoNotMatter(c: char, s: string)
    requires c == ' ' || c == '\t' || c == '\r' || c == '\n'
    ensures Scan([c] + s) == Scan(s)
  {
    assert ([c] + s)[1..] == s;
  }

  /** A NUL where an item could begin ends the string; one behind a word only separates it from what
    * follows. */
  lemma NulEnds(w: string, s: string)
    requires w != "" && AllPlain(w)
    ensures Scan([NUL] + s) == [ScannedItem(EndOfStringToken, "")]
    ensures Scan(w + ([NUL] + s)) == [WordItem(w)] + Scan(s)
  {
    hide StringToToken;
    var t := w + ([NUL] + s);
    assert t[..|w|] == w && t[|w|..] == [NUL] + s && t[0] == w[0];
    WordLengthUnique(t, |w|);
    assert ([NUL] + s)[1..] == s;
    assert LexOne(t) == Lexeme(WordItem(w), s);
  }
}
