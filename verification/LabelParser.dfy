/** The label-selector parser: what it makes of a stream of items, and the parser object (scanned
  * items and a position) proved to compute exactly that without ever indexing past the items. */
module LabelParser {
  import opened Wrappers
  import opened LabelStrings
  import opened LabelLexer
  import opened LabelSelector

  datatype ParseError =
    | ExpectedIdentifier(found: string) | ExpectedIdentifierAfterComma(found: string)
    | ExpectedCommaOrEnd(found: string) | ExpectedRequirement(found: string) | ExpectedOperator(found: string)
    | ExpectedOpenPar(found: string) | ExpectedList(found: string)
    | ExpectedCommaOrClosedPar(found: string) | ExpectedCommaOrIdentifier(found: string)
    | BadRequirement(reason: RequirementError)

  /** A value and the items left, or an error. */
  datatype Parsed<+T> = Got(value: T, rest: seq<ScannedItem>) | Failed(error: ParseError)

  datatype ParserContext = KeyAndOperator | Values

  /** `in` and `notin` are identifiers wherever a key or a value may stand. */
  function InContext(tok: Token, context: ParserContext): Token {
    if context == Values && (tok == InToken || tok == NotInToken) then IdentifierToken else tok
  }

  function TokenAt(ts: seq<ScannedItem>): Token
    requires ts != []
  {
    InContext(ts[0].tok, Values)
  }

  // ---- what is parsed, on the items still to come ----

  function IdentifiersList(ts: seq<ScannedItem>, s: set<string>): (r: Parsed<set<string>>)
    requires IsStream(ts)
    ensures r.Got? ==> IsStream(r.rest) && TokenAt(r.rest) == ClosedParToken && |r.rest| < |ts|
    decreases |ts|
  {
    var tok, rest := TokenAt(ts), ts[1..];
    if tok == IdentifierToken then
      var s1 := s + {ts[0].literal};
      if TokenAt(rest) == CommaToken then IdentifiersList(rest, s1)
      else if TokenAt(rest) == ClosedParToken then Got(s1, rest)
      else Failed(ExpectedCommaOrClosedPar(rest[0].literal))
    else if tok == CommaToken then
      var s1 := if s == {} then {""} else s;
      if TokenAt(rest) == ClosedParToken then Got(s1 + {""}, rest)
      else if TokenAt(rest) == CommaToken then IdentifiersList(rest[1..], s1 + {""})
      else IdentifiersList(rest, s1)
    else Failed(ExpectedCommaOrIdentifier(ts[0].literal))
  }

  function ValueSet(ts: seq<ScannedItem>): (r: Parsed<set<string>>)
    requires IsStream(ts)
    ensures r.Got? ==> IsStream(r.rest) && |r.rest| < |ts|
  {
    if TokenAt(ts) != OpenParToken then Failed(ExpectedOpenPar(ts[0].literal)) else
    var rest := ts[1..];
    if TokenAt(rest) == IdentifierToken || TokenAt(rest) == CommaToken then
      (match IdentifiersList(rest, {})
       case Got(s, rest1) => Got(s, rest1[1..])
       case Failed(e) => Failed(e))
    else if TokenAt(rest) == ClosedParToken then Got({""}, rest[1..])
    else Failed(ExpectedList(rest[0].literal))
  }

  function ExactValue(ts: seq<ScannedItem>): (r: Parsed<set<string>>)
    requires IsStream(ts)
    ensures r.Got? ==> IsStream(r.rest)
  {
    if TokenAt(ts) == EndOfStringToken || TokenAt(ts) == CommaToken then Got({""}, ts)
    else if TokenAt(ts) == IdentifierToken then Got({ts[0].literal}, ts[1..])
    else Failed(ExpectedIdentifier(ts[0].literal))
  }

  function BinaryOperator(tok: Token): Option<Operator> {
    match tok
    case InToken => Some(In)
    case EqualsToken => Some(Equals)
    case DoubleEqualsToken => Some(DoubleEquals)
    case GreaterThanToken => Some(GreaterThan)
    case LessThanToken => Some(LessThan)
    case NotInToken => Some(NotIn)
    case NotEqualsToken => Some(NotEquals)
    case _ => None
  }

  /** A key and, when it is already clear, one of the operators that take no value. */
  function KeyAndInferredOperator(ts: seq<ScannedItem>): (r: Parsed<(string, Option<Operator>)>)
    requires IsStream(ts) && ts[0].tok != EndOfStringToken
    ensures r.Got? ==> IsStream(r.rest) && |r.rest| < |ts|
    ensures r.Got? && r.value.1.None? ==> r.rest[0].tok != EndOfStringToken
  {
    var negated := TokenAt(ts) == DoesNotExistToken;
    var keyed := if negated then ts[1..] else ts;
    if TokenAt(keyed) != IdentifierToken then Failed(ExpectedIdentifier(keyed[0].literal))
    else if !ValidLabelKey(keyed[0].literal) then Failed(BadRequirement(InvalidKey(keyed[0].literal)))
    else
      var rest := keyed[1..];
      var op := if negated then Some(DoesNotExist)
                else if TokenAt(rest) == EndOfStringToken || TokenAt(rest) == CommaToken then Some(Exists)
                else None;
      Got((keyed[0].literal, op), rest)
  }

  ghost function Construct(key: string, op: Operator, s: set<string>, rest: seq<ScannedItem>): (r: Parsed<Requirement>)
    ensures r.Got? ==> r.rest == rest
  {
    match NewRequirement(key, op, List(s))
    case Ok(req) => Got(req, rest)
    case Err(e) => Failed(BadRequirement(e))
  }

  /** The operator and values that follow a key. */
  ghost function Restriction(key: string, ts: seq<ScannedItem>): (r: Parsed<Requirement>)
    requires IsStream(ts) && ts[0].tok != EndOfStringToken
    ensures r.Got? ==> IsStream(r.rest) && |r.rest| < |ts|
  {
    match BinaryOperator(ts[0].tok)
    case None => Failed(ExpectedOperator(ts[0].literal))
    case Some(op) =>
      match (if SetBased(op) then ValueSet(ts[1..]) else ExactValue(ts[1..]))
      case Failed(e) => Failed(e)
      case Got(s, rest) => Construct(key, op, s, rest)
  }

  ghost function OneRequirement(ts: seq<ScannedItem>): (r: Parsed<Requirement>)
    requires IsStream(ts) && ts[0].tok != EndOfStringToken
    ensures r.Got? ==> IsStream(r.rest) && |r.rest| < |ts|
  {
    match KeyAndInferredOperator(ts)
    case Failed(e) => Failed(e)
    case Got((key, Some(op)), rest) => Construct(key, op, {}, rest)
    case Got((key, None), rest) => Restriction(key, rest)
  }

  function Prepend(a: seq<Requirement>, r: Result<seq<Requirement>, ParseError>): Result<seq<Requirement>, ParseError> {
    match r
    case Ok(more) => Ok(a + more)
    case Err(e) => Err(e)
  }

  predicate StartsRequirement(tok: Token) {
    tok == IdentifierToken || tok == DoesNotExistToken
  }

  /** All requirements of a stream, in the order written. */
  ghost function Requirements(ts: seq<ScannedItem>): Result<seq<Requirement>, ParseError>
    requires IsStream(ts)
    decreases |ts|
  {
    hide OneRequirement;
    if ts[0].tok == EndOfStringToken then Ok([])
    else if !StartsRequirement(TokenAt(ts)) then Err(ExpectedRequirement(ts[0].literal))
    else
      match OneRequirement(ts)
      case Failed(e) => Err(e)
      case Got(r, rest) =>
        if rest[0].tok == EndOfStringToken then Ok([r])
        else if rest[0].tok != CommaToken then Err(ExpectedCommaOrEnd(rest[0].literal))
        else if !StartsRequirement(TokenAt(rest[1..])) then Err(ExpectedIdentifierAfterComma(rest[1].literal))
        else Prepend([r], Requirements(rest[1..]))
  }

  // ---- the parser object ----

  class Parser {
    const l: Lexer
    var scannedItems: seq<ScannedItem>
    var position: nat

    /** There is an item to look at. */
    ghost predicate Ready()
      reads this
      ensures Ready() ==> position < |scannedItems| && IsStream(Rest())
    {
      IsStream(scannedItems) && position < |scannedItems|
    }

    /** The items still to come; none after the end marker has been consumed. */
    ghost function Rest(): seq<ScannedItem>
      reads this
      requires position <= |scannedItems|
    {
      scannedItems[position..]
    }

    constructor (selector: string)
      ensures fresh(l) && l.Valid() && l.Rest() == selector && scannedItems == [] && position == 0
    {
      l := new Lexer(selector);
      scannedItems := [];
      position := 0;
    }

    method Lookahead(context: ParserContext) returns (tok: Token, lit: string)
      requires Ready()
      ensures tok == InContext(Rest()[0].tok, context) && lit == Rest()[0].literal
    {
      tok, lit := scannedItems[position].tok, scannedItems[position].literal;
      if context == Values && (tok == InToken || tok == NotInToken) {
        tok := IdentifierToken;
      }
    }

    method Consume(context: ParserContext) returns (tok: Token, lit: string)
      requires Ready()
      modifies this`position
      ensures position == old(position) + 1
      ensures tok == InContext(old(Rest())[0].tok, context) && lit == old(Rest())[0].literal
      ensures position <= |scannedItems| && Rest() == old(Rest())[1..]
      ensures tok != EndOfStringToken ==> Ready() && IsStream(Rest())
    {
      assert Rest()[0] == scannedItems[position];
      position := position + 1;
      tok, lit := scannedItems[position - 1].tok, scannedItems[position - 1].literal;
      if context == Values && (tok == InToken || tok == NotInToken) {
        tok := IdentifierToken;
      }
    }

    method RunScan()
      requires l.Valid() && scannedItems == []
      modifies this`scannedItems, l
      ensures scannedItems == Scan(old(l.Rest()))
    {
      ghost var input := l.Rest();
      var done := false;
      while !done
        invariant l.Valid()
        invariant if done then scannedItems == Scan(input) else scannedItems + Scan(l.Rest()) == Scan(input)
        decreases |l.Rest()|, !done
      {
        ghost var unread, before := l.Rest(), scannedItems;
        var token, literal := l.Lex();
        scannedItems := scannedItems + [ScannedItem(token, literal)];
        done := token == EndOfStringToken;
        ScanStep(unread, before);
      }
    }

    method ParseIdentifiersList() returns (r: Result<set<string>, ParseError>)
      requires Ready() && (TokenAt(Rest()) == IdentifierToken || TokenAt(Rest()) == CommaToken)
      modifies this`position
      ensures position <= |scannedItems|
      ensures match IdentifiersList(old(Rest()), {})
              case Got(s, rest) => r == Ok(s) && Ready() && Rest() == rest
              case Failed(e) => r == Err(e)
    {
      var s: set<string> := {};
      while true
        invariant Ready() && IsStream(Rest())
        invariant IdentifiersList(Rest(), s) == IdentifiersList(old(Rest()), {})
        decreases |scannedItems| - position
      {
        var tok, lit := Consume(Values);
        if tok == IdentifierToken {
          s := s + {lit};
          var tok2, lit2 := Lookahead(Values);
          if tok2 == CommaToken {
            continue;
          } else if tok2 == ClosedParToken {
            return Ok(s);
          } else {
            return Err(ExpectedCommaOrClosedPar(lit2));
          }
        } else if tok == CommaToken {
          if s == {} {
            s := {""};
          }
          var tok2, _ := Lookahead(Values);
          if tok2 == ClosedParToken {
            s := s + {""};
            return Ok(s);
          }
          if tok2 == CommaToken {
            var _, _ := Consume(Values);
            s := s + {""};
          }
        } else {
          return Err(ExpectedCommaOrIdentifier(lit));
        }
      }
    }

    method ParseValues() returns (r: Result<set<string>, ParseError>)
      requires Ready()
      modifies this`position
      ensures position <= |scannedItems|
      ensures match ValueSet(old(Rest()))
              case Got(s, rest) => r == Ok(s) && Ready() && Rest() == rest
              case Failed(e) => r == Err(e)
    {
      hide IdentifiersList;
      var tok, lit := Consume(Values);
      if tok != OpenParToken {
        return Err(ExpectedOpenPar(lit));
      }
      tok, lit := Lookahead(Values);
      if tok == IdentifierToken || tok == CommaToken {
        r := ParseIdentifiersList();
        if r.Err? {
          return;
        }
        var closing, _ := Consume(Values);
        // the error branch for a missing ')' is dead: the list ends only in front of one
        assert closing == ClosedParToken;
      } else if tok == ClosedParToken {
        var _, _ := Consume(Values);
        return Ok({""});
      } else {
        return Err(ExpectedList(lit));
      }
    }

    method ParseExactValue() returns (r: Result<set<string>, ParseError>)
      requires Ready()
      modifies this`position
      ensures position <= |scannedItems|
      ensures match ExactValue(old(Rest()))
              case Got(s, rest) => r == Ok(s) && Ready() && Rest() == rest
              case Failed(e) => r == Err(e)
    {
      var tok, lit := Lookahead(Values);
      if tok == EndOfStringToken || tok == CommaToken {
        return Ok({""});
      }
      tok, lit := Consume(Values);
      if tok == IdentifierToken {
        return Ok({lit});
      }
      return Err(ExpectedIdentifier(lit));
    }

    method ParseOperator() returns (r: Result<Operator, ParseError>)
      requires Ready() && Rest()[0].tok != EndOfStringToken
      modifies this`position
      ensures position == old(position) + 1 && Ready() && Rest() == old(Rest())[1..]
      ensures match BinaryOperator(old(Rest())[0].tok)
              case Some(op) => r == Ok(op)
              case None => r == Err(ExpectedOperator(old(Rest())[0].literal))
    {
      var tok, lit := Consume(KeyAndOperator);
      match BinaryOperator(tok) {
        case Some(op) => r := Ok(op);
        case None => r := Err(ExpectedOperator(lit));
      }
    }

    method ParseKeyAndInferOperator() returns (r: Result<(string, Option<Operator>), ParseError>)
      requires Ready() && Rest()[0].tok != EndOfStringToken
      modifies this`position
      ensures position <= |scannedItems|
      ensures match KeyAndInferredOperator(old(Rest()))
              case Got(v, rest) => r == Ok(v) && Ready() && Rest() == rest
              case Failed(e) => r == Err(e)
    {
      var operator: Option<Operator> := None;
      var tok, literal := Consume(Values);
      if tok == DoesNotExistToken {
        operator := Some(DoesNotExist);
        tok, literal := Consume(Values);
      }
      if tok != IdentifierToken {
        return Err(ExpectedIdentifier(literal));
      }
      if !ValidLabelKey(literal) {
        return Err(BadRequirement(InvalidKey(literal)));
      }
      var t, _ := Lookahead(Values);
      if t == EndOfStringToken || t == CommaToken {
        if operator != Some(DoesNotExist) {
          operator := Some(Exists);
        }
      }
      return Ok((literal, operator));
    }

    method ParseRestriction(key: string) returns (r: Result<Requirement, ParseError>)
      requires Ready() && Rest()[0].tok != EndOfStringToken
      modifies this`position
      ensures position <= |scannedItems|
      ensures match Restriction(key, old(Rest()))
              case Got(req, rest) => r == Ok(req) && Ready() && Rest() == rest
              case Failed(e) => r == Err(e)
    {
      var op := ParseOperator();
      if op.Err? {
        return Err(op.error);
      }
      var values;
      if SetBased(op.value) {
        values := ParseValues();
      } else {
        values := ParseExactValue();
      }
      if values.Err? {
        return Err(values.error);
      }
      r := Build(key, op.value, values.value, Rest());
    }

    method ParseRequirement() returns (r: Result<Requirement, ParseError>)
      requires Ready() && Rest()[0].tok != EndOfStringToken
      modifies this`position
      ensures position <= |scannedItems|
      ensures match OneRequirement(old(Rest()))
              case Got(req, rest) => r == Ok(req) && Ready() && Rest() == rest
              case Failed(e) => r == Err(e)
    {
      var keyed := ParseKeyAndInferOperator();
      if keyed.Err? {
        return Err(keyed.error);
      }
      if keyed.value.1.Some? {
        r := Build(keyed.value.0, keyed.value.1.value, {}, Rest());
      } else {
        r := ParseRestriction(keyed.value.0);
      }
    }

    static method Build(key: string, op: Operator, s: set<string>, ghost rest: seq<ScannedItem>)
    returns (r: Result<Requirement, ParseError>)
      ensures match Construct(key, op, s, rest)
              case Got(req, _) => r == Ok(req)
              case Failed(e) => r == Err(e)
    {
      var vals := SortedList(s);
      match NewRequirement(key, op, vals) {
        case Ok(req) => r := Ok(req);
        case Err(e) => r := Err(BadRequirement(e));
      }
    }

    /** One turn of the parser's main loop. */
    method ParseNext() returns (step: Step)
      requires Ready()
      modifies this`position
      ensures match step
              case More(r) => Ready() && Requirements(old(Rest())) == Prepend([r], Requirements(Rest()))
              case Last(reqs) => Requirements(old(Rest())) == Ok(reqs)
              case Stop(e) => Requirements(old(Rest())) == Err(e)
      ensures step.More? ==> position > old(position)
    {
      hide OneRequirement, IsStream;
      var tok, lit := Lookahead(Values);
      if tok == IdentifierToken || tok == DoesNotExistToken {
        var req := ParseRequirement();
        if req.Err? {
          return Stop(req.error);
        }
        var t, lit1 := Consume(Values);
        if t == EndOfStringToken {
          return Last([req.value]);
        } else if t == CommaToken {
          var t2, lit2 := Lookahead(Values);
          if t2 != IdentifierToken && t2 != DoesNotExistToken {
            return Stop(ExpectedIdentifierAfterComma(lit2));
          }
          return More(req.value);
        } else {
          return Stop(ExpectedCommaOrEnd(lit1));
        }
      } else if tok == EndOfStringToken {
        return Last([]);
      } else {
        return Stop(ExpectedRequirement(lit));
      }
    }

    method Parse() returns (r: Result<seq<Requirement>, ParseError>)
      requires l.Valid() && scannedItems == [] && position == 0
      modifies this, l
      ensures r == Requirements(Scan(old(l.Rest())))
    {
      hide OneRequirement, Requirements, Scan;
      RunScan();
      ghost var ts := scannedItems;
      assert scannedItems[0..] == ts;
      var requirements: seq<Requirement> := [];
      PrependNothing(Requirements(ts));
      while true
        invariant Ready()
        invariant Requirements(ts) == Prepend(requirements, Requirements(Rest()))
        decreases |scannedItems| - position
      {
        var step := ParseNext();
        match step {
          case More(req) =>
            PrependTwice(requirements, [req], Requirements(Rest()));
            requirements := requirements + [req];
          case Last(reqs) => return Ok(requirements + reqs);
          case Stop(e) => return Err(e);
        }
      }
    }
  }

  datatype Step = More(req: Requirement) | Last(reqs: seq<Requirement>) | Stop(error: ParseError)

  lemma PrependNothing(r: Result<seq<Requirement>, ParseError>)
    ensures Prepend([], r) == r
  {
    if r.Ok? { assert [] + r.value == r.value; }
  }

  lemma PrependTwice(a: seq<Requirement>, b: seq<Requirement>, r: Result<seq<Requirement>, ParseError>)
    ensures Prepend(a, Prepend(b, r)) == Prepend(a + b, r)
  {
    if r.Ok? { assert a + (b + r.value) == a + b + r.value; }
  }

  lemma ScanStep(s: string, before: seq<ScannedItem>)
    ensures var l := LexOne(s);
      before + Scan(s) == before + [l.item] + if l.item.tok == EndOfStringToken then [] else Scan(l.rest)
  {}

  method SortedList(s: set<string>) returns (l: seq<string>)
    ensures l == List(s)
  {
    hide Leq, List, Insert;
    var todo := s;
    l := [];
    while todo != {}
      invariant todo <= s
      invariant Sorted(l) && multiset(l) == multiset(s - todo)
    {
      var x :| x in todo;
      l := Insert(x, l);
      todo := todo - {x};
      assert s - todo == (s - todo - {x}) + {x};
    }
    assert s - todo == s;
    SortedListIsList(l, s);
  }

  lemma SortedListIsList(l: seq<string>, s: set<string>)
    requires Sorted(l) && multiset(l) == multiset(s)
    ensures l == List(s)
  {
    hide Leq, List;
    assert forall x :: x in l <==> x in multiset(l);
    DistinctByCount(l);
    SortedUnique(l, List(s));
  }

  lemma CountOfTwo(l: seq<string>, i: nat, j: nat)
    requires i < j < |l| && l[i] == l[j]
    ensures multiset(l)[l[i]] >= 2
  {
    assert l == l[..i] + [l[i]] + l[i + 1..j] + [l[j]] + l[j + 1..];
  }

  lemma DistinctByCount(l: seq<string>)
    requires forall x :: x in l ==> multiset(l)[x] == 1
    ensures NoDuplicates(l)
  {
    forall i, j | 0 <= i < j < |l| ensures l[i] != l[j] {
      if l[i] == l[j] { CountOfTwo(l, i, j); }
    }
  }

  predicate SortedByKey(sel: seq<Requirement>) {
    forall i, j :: 0 <= i < j < |sel| ==> Leq(sel[i].key, sel[j].key)
  }

  /** sort.Sort(ByKey(...)): not a stable sort, so nothing is promised about equal keys. */
  method SortByKey(sel: seq<Requirement>) returns (r: seq<Requirement>)
    ensures SortedByKey(r) && multiset(r) == multiset(sel)
  {
    r := [];
    for i := 0 to |sel|
      invariant SortedByKey(r) && multiset(r) == multiset(sel[..i])
    {
      assert sel[..i + 1] == sel[..i] + [sel[i]];
      r := InsertByKey(r, sel[i]);
    }
    assert sel[..|sel|] == sel;
  }

  method InsertByKey(l: seq<Requirement>, x: Requirement) returns (r: seq<Requirement>)
    requires SortedByKey(l)
    ensures SortedByKey(r) && multiset(r) == multiset(l) + multiset{x}
  {
    hide Leq;
    var k := 0;
    while k < |l| && Leq(l[k].key, x.key)
      invariant 0 <= k <= |l|
      invariant forall j :: 0 <= j < k ==> Leq(l[j].key, x.key)
    {
      k := k + 1;
    }
    InsertKeepsOrder(l, k, x);
    r := l[..k] + [x] + l[k..];
    assert l == l[..k] + l[k..];
  }

  lemma InsertKeepsOrder(r: seq<Requirement>, k: nat, x: Requirement)
    requires SortedByKey(r) && k <= |r|
    requires forall j :: 0 <= j < k ==> Leq(r[j].key, x.key)
    requires k < |r| ==> !Leq(r[k].key, x.key)
    ensures SortedByKey(r[..k] + [x] + r[k..])
  {
    forall j | k <= j < |r| ensures Leq(x.key, r[j].key) {
      LeqTotal(x.key, r[k].key);
      if k < j { LeqTransitive(x.key, r[k].key, r[j].key); }
    }
  }

  /** Parse: the requirements of the string, ordered by key. */
  method Parse(selector: string) returns (r: Result<seq<Requirement>, ParseError>)
    ensures match Requirements(Scan(selector))
            case Ok(reqs) => r.Ok? && multiset(r.value) == multiset(reqs) && SortedByKey(r.value)
            case Err(e) => r == Err(e)
  {
    var p := new Parser(selector);
    r := p.Parse();
    if r.Ok? {
      var sorted := SortByKey(r.value);
      r := Ok(sorted);
    }
  }
}
