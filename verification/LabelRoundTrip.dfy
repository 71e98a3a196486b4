/** Printing a selector and parsing the result.
  * The items of a printed text are described in front of the items `ts` that follow it. */
module LabelRoundTrip {
  import opened Wrappers
  import opened Decimals
  import opened LabelStrings
  import opened LabelLexer
  import opened LabelSelector
  import opened LabelParser

  const END: ScannedItem := ScannedItem(EndOfStringToken, "")
  const COMMA: ScannedItem := ScannedItem(CommaToken, ",")
  const OPEN: ScannedItem := ScannedItem(OpenParToken, "(")
  const CLOSE: ScannedItem := ScannedItem(ClosedParToken, ")")
  const NOT: ScannedItem := ScannedItem(DoesNotExistToken, "!")

  type Items = seq<ScannedItem>

  function ValueThen(v: string, ts: Items): Items {
    if v == "" then ts else [WordItem(v)] + ts
  }

  function ListThen(vs: seq<string>, ts: Items): Items {
    if vs == [] then ts
    else if |vs| == 1 then ValueThen(vs[0], ts)
    else ValueThen(vs[0], [COMMA] + ListThen(vs[1..], ts))
  }

  function OperatorItem(op: Operator): ScannedItem
    requires !Unary(op)
  {
    match op
    case Equals => ScannedItem(EqualsToken, "=")
    case DoubleEquals => ScannedItem(DoubleEqualsToken, "==")
    case NotEquals => ScannedItem(NotEqualsToken, "!=")
    case In => ScannedItem(InToken, "in")
    case NotIn => ScannedItem(NotInToken, "notin")
    case GreaterThan => ScannedItem(GreaterThanToken, ">")
    case LessThan => ScannedItem(LessThanToken, "<")
  }

  function ValuesThen(r: Requirement, ts: Items): Items {
    if SetBased(r.operator) then [OPEN] + ListThen(r.values, [CLOSE] + ts) else ListThen(r.values, ts)
  }

  function RequirementThen(r: Requirement, ts: Items): Items {
    if r.operator == DoesNotExist then [NOT] + ([WordItem(r.key)] + ts)
    else if r.operator == Exists then [WordItem(r.key)] + ts
    else [WordItem(r.key)] + ([OperatorItem(r.operator)] + ValuesThen(r, ts))
  }

  function SelectorItems(sel: seq<Requirement>): Items {
    if sel == [] then [END]
    else RequirementThen(sel[0], if |sel| == 1 then [END] else [COMMA] + SelectorItems(sel[1..]))
  }

  // ---- scanning the printed text gives these items ----

  lemma Assoc(a: string, b: string, c: string)
    ensures a + b + c == a + (b + c)
  {}

  lemma StartOf(a: string, b: string)
    requires a != ""
    ensures a + b != "" && (a + b)[0] == a[0]
  {}

  /** No identifier goes on into `rest`, and no NUL starts it. */
  predicate EndsWord(rest: string) {
    rest == "" || (!IsPlain(rest[0]) && rest[0] != NUL)
  }

  /** What may follow a value. */
  predicate EndsValue(rest: string) {
    EndsWord(rest) && (rest != "" ==> rest[0] != '=')
  }

  /** What may follow a requirement. */
  predicate EndsRequirement(rest: string) {
    rest == "" || rest[0] == ','
  }

  lemma ScanWord(w: string, rest: string)
    requires w != "" && AllPlain(w) && EndsWord(rest)
    ensures Scan(w + rest) == [WordItem(w)] + Scan(rest)
  {
    hide StringToToken;
    var s := w + rest;
    assert s[..|w|] == w && s[|w|..] == rest;
    assert s[0] == w[0];
    WordLengthUnique(s, |w|);
    assert LexOne(s) == Lexeme(WordItem(w), rest);
  }

  lemma ScanSymbol(c: char, rest: string)
    requires IsSpecialSymbol(c)
    requires rest != "" ==> rest[0] != NUL && !(rest[0] == '=' && (c == '=' || c == '!'))
    ensures Scan([c] + rest) == [ScannedItem(SymbolToken(c).value, [c])] + Scan(rest)
  {}

  lemma ScanDoubleSymbol(c: char, rest: string)
    requires c == '=' || c == '!'
    requires rest != "" ==> rest[0] != NUL
    ensures Scan([c, '='] + rest)
      == [ScannedItem(if c == '=' then DoubleEqualsToken else NotEqualsToken, [c, '='])] + Scan(rest)
  {
    var s := [c, '='] + rest;
    assert s[..2] == [c, '='] && s[2..] == rest;
    assert SkipBlanks(s) == s && SymbolLength(s) == 2;
    assert StringToToken([c, '=']) == Some(if c == '=' then DoubleEqualsToken else NotEqualsToken);
    hide StringToToken, WordLength, SkipBlanks, SymbolLength;
    assert LexOne(s).rest == rest && LexOne(s).item.literal == [c, '='];
  }

  lemma ScanValue(v: string, rest: string)
    requires AllPlain(v) && EndsWord(rest)
    ensures Scan(v + rest) == ValueThen(v, Scan(rest))
  {
    hide Scan, WordItem;
    if v == "" { assert v + rest == rest; } else { ScanWord(v, rest); }
  }

  predicate PlainValues(vs: seq<string>) {
    forall i :: 0 <= i < |vs| ==> AllPlain(vs[i])
  }

  /** A joined list starts with a plain byte or a comma, so a symbol in front of it stands alone. */
  lemma JoinStart(vs: seq<string>, rest: string)
    requires PlainValues(vs) && EndsValue(rest)
    ensures var s := Join(vs) + rest; s != "" ==> s[0] != NUL && s[0] != '='
  {}

  lemma {:induction false} ScanList(vs: seq<string>, rest: string)
    requires PlainValues(vs) && EndsValue(rest)
    ensures Scan(Join(vs) + rest) == ListThen(vs, Scan(rest))
  {
    hide Scan, AllPlain, WordItem, ValueThen;
    if vs == [] {
      assert Join(vs) + rest == rest;
    } else if |vs| == 1 {
      ScanValue(vs[0], rest);
    } else {
      var more := Join(vs[1..]) + rest;
      Assoc(vs[0] + ",", Join(vs[1..]), rest);
      Assoc(vs[0], ",", more);
      StartOf(",", more);
      JoinStart(vs[1..], rest);
      ScanValue(vs[0], "," + more);
      ScanSymbol(',', more);
      ScanList(vs[1..], rest);
    }
  }

  lemma ScanOperator(op: Operator, tail: string)
    requires !Unary(op) && !SetBased(op)
    requires tail != "" ==> tail[0] != NUL && tail[0] != '='
    ensures Scan(OperatorString(op) + tail) == [OperatorItem(op)] + Scan(tail)
    ensures EndsWord(OperatorString(op) + tail)
  {
    hide Scan;
    StartOf(OperatorString(op), tail);
    match op {
      case Equals => ScanSymbol('=', tail);
      case DoubleEquals => ScanDoubleSymbol('=', tail);
      case NotEquals => ScanDoubleSymbol('!', tail);
      case GreaterThan => ScanSymbol('>', tail);
      case LessThan => ScanSymbol('<', tail);
    }
  }

  lemma Keywords()
    ensures AllPlain("in") && OperatorString(In) == " " + "in" + " " && WordItem("in") == OperatorItem(In)
    ensures AllPlain("notin") && OperatorString(NotIn) == " " + "notin" + " "
      && WordItem("notin") == OperatorItem(NotIn)
  {}

  lemma ScanKeyword(op: Operator, tail: string)
    requires SetBased(op)
    requires tail != "" && tail[0] == '('
    ensures Scan(OperatorString(op) + tail) == [OperatorItem(op)] + Scan(tail)
    ensures EndsWord(OperatorString(op) + tail)
  {
    hide Scan, WordItem, OperatorItem, OperatorString, AllPlain;
    var word := if op == In then "in" else "notin";
    Keywords();
    StartOf(" ", word);
    StartOf(" " + word, " ");
    StartOf(OperatorString(op), tail);
    Assoc(" " + word, " ", tail);
    Assoc(" ", word, " " + tail);
    BlanksDoNotMatter(' ', word + (" " + tail));
    StartOf(" ", tail);
    ScanWord(word, " " + tail);
    BlanksDoNotMatter(' ', tail);
  }

  lemma ScanExact(r: Requirement, rest: string)
    requires r.key != "" && AllPlain(r.key) && !Unary(r.operator) && !SetBased(r.operator)
    requires PlainValues(r.values) && EndsRequirement(rest)
    ensures Scan(RequirementString(r) + rest) == RequirementThen(r, Scan(rest))
  {
    hide Scan, AllPlain, WordItem, Join, ListThen, OperatorItem, OperatorString;
    var tail := Join(r.values) + rest;
    Assoc(r.key + OperatorString(r.operator), Join(r.values), rest);
    Assoc(r.key, OperatorString(r.operator), tail);
    JoinStart(r.values, rest);
    ScanOperator(r.operator, tail);
    ScanWord(r.key, OperatorString(r.operator) + tail);
    ScanList(r.values, rest);
  }

  lemma ScanSetBased(r: Requirement, rest: string)
    requires r.key != "" && AllPlain(r.key) && SetBased(r.operator)
    requires PlainValues(r.values) && EndsRequirement(rest)
    ensures Scan(RequirementString(r) + rest) == RequirementThen(r, Scan(rest))
  {
    hide Scan, AllPlain, WordItem, Join, ListThen, OperatorItem, OperatorString;
    var close := ")" + rest;
    var list := Join(r.values) + close;
    var open := "(" + list;
    SetBasedString(r, rest);
    hide RequirementString;
    StartOf("(", list);
    StartOf(")", rest);
    JoinStart(r.values, close);
    ScanKeyword(r.operator, open);
    ScanWord(r.key, OperatorString(r.operator) + open);
    ScanSymbol('(', list);
    ScanList(r.values, close);
    ScanSymbol(')', rest);
  }

  lemma SetBasedString(r: Requirement, rest: string)
    requires SetBased(r.operator)
    ensures RequirementString(r) + rest
      == r.key + (OperatorString(r.operator) + ("(" + (Join(r.values) + (")" + rest))))
  {}

  lemma ScanRequirement(r: Requirement, rest: string)
    requires ValidRequirement(r) && EndsRequirement(rest)
    ensures Scan(RequirementString(r) + rest) == RequirementThen(r, Scan(rest))
    ensures RequirementString(r) != "" && RequirementString(r)[0] != NUL && RequirementString(r)[0] != '='
  {
    hide Scan, AllPlain, WordItem, Join, ListThen, OperatorItem, ValidLabelKey, ValidRequirement, OperatorString;
    ValidRequirementMeans(r);
    ValidNamesArePlain(r.key);
    forall i | 0 <= i < |r.values| ensures AllPlain(r.values[i]) { ValidNamesArePlain(r.values[i]); }
    PlainStart(r.key, rest);
    RequirementStart(r);
    if r.operator == DoesNotExist {
      Assoc("!", r.key, rest);
      ScanSymbol('!', r.key + rest);
      ScanWord(r.key, rest);
    } else if r.operator == Exists {
      ScanWord(r.key, rest);
    } else if SetBased(r.operator) {
      ScanSetBased(r, rest);
    } else {
      ScanExact(r, rest);
    }
  }

  lemma PlainStart(w: string, rest: string)
    requires w != "" && AllPlain(w)
    ensures (w + rest)[0] == w[0] && IsPlain(w[0])
  {}

  lemma RequirementStart(r: Requirement)
    requires r.key != ""
    ensures RequirementString(r) != ""
      && RequirementString(r)[0] == if r.operator == DoesNotExist then '!' else r.key[0]
  {}

  lemma SelectorStringStep(sel: seq<Requirement>)
    ensures SelectorString([]) == ""
    ensures |sel| == 1 ==> SelectorString(sel) == RequirementString(sel[0]) + ""
    ensures |sel| > 1 ==> SelectorString(sel) == RequirementString(sel[0]) + ("," + SelectorString(sel[1..]))
  {}

  lemma {:induction false} ScanSelector(sel: seq<Requirement>)
    requires ValidSelector(sel)
    ensures Scan(SelectorString(sel)) == SelectorItems(sel)
    ensures sel != [] ==> SelectorString(sel) != "" && SelectorString(sel)[0] != NUL && SelectorString(sel)[0] != '='
  {
    assert Scan("") == [END];
    SelectorStringStep(sel);
    hide RequirementString, RequirementThen, ValidRequirement, Scan, SelectorString;
    if |sel| == 1 {
      ScanRequirement(sel[0], "");
    } else if |sel| > 1 {
      var more := SelectorString(sel[1..]);
      ScanRequirement(sel[0], "," + more);
      ScanSelector(sel[1..]);
      ScanSymbol(',', more);
      StartOf(RequirementString(sel[0]), "," + more);
    }
  }

  // ---- parsing these items ----

  lemma WordIsIdentifier(v: string)
    requires AllPlain(v)
    ensures InContext(WordItem(v).tok, Values) == IdentifierToken && WordItem(v).literal == v
  {}

  lemma StreamCons(t: ScannedItem, ts: Items)
    requires IsStream(ts) && t.tok != EndOfStringToken
    ensures IsStream([t] + ts) && TokenAt([t] + ts) == InContext(t.tok, Values) && ([t] + ts)[1..] == ts
  {}

  predicate Words(vs: seq<string>) {
    forall i :: 0 <= i < |vs| ==> vs[i] != "" && AllPlain(vs[i])
  }

  function CommasThen(n: nat, ts: Items): Items {
    if n == 0 then ts else [COMMA] + CommasThen(n - 1, ts)
  }

  lemma {:induction false} CommasStream(n: nat, ts: Items)
    requires IsStream(ts)
    ensures IsStream(CommasThen(n, ts))
  {
    if n > 0 {
      CommasStream(n - 1, ts);
      StreamCons(COMMA, CommasThen(n - 1, ts));
    }
  }

  // one turn of the list loop

  lemma WordStep(w: ScannedItem, ts: Items, s: set<string>)
    requires IsStream(ts) && InContext(w.tok, Values) == IdentifierToken
    ensures IsStream([w] + ts) && TokenAt([w] + ts) == IdentifierToken
    ensures TokenAt(ts) == CommaToken ==> IdentifiersList([w] + ts, s) == IdentifiersList(ts, s + {w.literal})
    ensures TokenAt(ts) == ClosedParToken ==> IdentifiersList([w] + ts, s) == Got(s + {w.literal}, ts)
  {}

  lemma CommaStep(ts: Items, s: set<string>)
    requires IsStream(ts)
    ensures IsStream([COMMA] + ts) && TokenAt([COMMA] + ts) == CommaToken
    ensures TokenAt(ts) == ClosedParToken ==> IdentifiersList([COMMA] + ts, s) == Got(s + {""}, ts)
    ensures TokenAt(ts) == IdentifierToken ==>
      IdentifiersList([COMMA] + ts, s) == IdentifiersList(ts, if s == {} then {""} else s)
  {
    StreamCons(COMMA, ts);
    assert (if s == {} then {""} else s) + {""} == s + {""};
  }

  lemma TwoCommasStep(ts: Items, s: set<string>)
    requires IsStream(ts)
    ensures IsStream([COMMA] + ([COMMA] + ts))
    ensures IdentifiersList([COMMA] + ([COMMA] + ts), s) == IdentifiersList(ts, s + {""})
  {
    StreamCons(COMMA, ts);
    StreamCons(COMMA, [COMMA] + ts);
    assert (if s == {} then {""} else s) + {""} == s + {""};
  }

  /** A list of words is parsed to the set of its words. */
  lemma {:induction false} ParseWords(vs: seq<string>, s: set<string>, ts: Items)
    requires vs != [] && Words(vs) && IsStream(ts) && ts[0] == CLOSE
    ensures IsStream(ListThen(vs, ts)) && TokenAt(ListThen(vs, ts)) == IdentifierToken
    ensures IdentifiersList(ListThen(vs, ts), s) == Got(s + Elements(vs), ts)
  {
    hide AllPlain, WordItem, IdentifiersList, IsStream;
    WordIsIdentifier(vs[0]);
    var w := WordItem(vs[0]);
    if |vs| == 1 {
      assert Elements(vs) == {vs[0]};
      WordStep(w, ts, s);
    } else {
      var more := ListThen(vs[1..], ts);
      ParseWords(vs[1..], s + {vs[0]}, ts);
      CommaStep(more, s + {vs[0]});
      WordStep(w, [COMMA] + more, s);
      assert s + {vs[0]} + Elements(vs[1..]) == s + Elements(vs);
    }
  }

  /** Leading commas stand for the empty value. */
  lemma {:induction false} ParseCommasThenWords(n: nat, vs: seq<string>, s: set<string>, ts: Items)
    requires vs != [] && Words(vs) && IsStream(ts) && ts[0] == CLOSE
    requires (s == {} && n > 0) || "" in s
    ensures var items := CommasThen(n, ListThen(vs, ts));
      IsStream(items) && IdentifiersList(items, s) == Got(s + {""} + Elements(vs), ts)
  {
    hide ListThen, Words, IdentifiersList, IsStream;
    var list := ListThen(vs, ts);
    ParseWords(vs, s + {""}, ts);
    if n == 0 {
      assert s + {""} == s;
    } else if n == 1 {
      CommaStep(list, s);
      assert s + {""} == if s == {} then {""} else s;
    } else {
      CommasStream(n - 2, list);
      TwoCommasStep(CommasThen(n - 2, list), s);
      ParseCommasThenWords(n - 2, vs, s + {""}, ts);
      assert s + {""} + {""} + Elements(vs) == s + {""} + Elements(vs);
    }
  }

  /** Commas alone are eaten in pairs, so an even number of them runs into the parenthesis. */
  lemma {:induction false} ParseCommasOnly(n: nat, s: set<string>, ts: Items)
    requires IsStream(ts) && ts[0] == CLOSE
    ensures IsStream(CommasThen(n, ts))
    ensures IdentifiersList(CommasThen(n, ts), s) == if n % 2 == 1 then Got(s + {""}, ts)
      else Failed(ExpectedCommaOrIdentifier(")"))
  {
    hide IdentifiersList, IsStream;
    if n == 0 {
      CloseStep(ts, s);
    } else if n == 1 {
      CommaStep(ts, s);
    } else {
      ParseCommasOnly(n - 2, s + {""}, ts);
      TwoCommasStep(CommasThen(n - 2, ts), s);
      assert s + {""} + {""} == s + {""};
    }
  }

  lemma CloseStep(ts: Items, s: set<string>)
    requires IsStream(ts) && ts[0] == CLOSE
    ensures TokenAt(ts) == ClosedParToken
    ensures IdentifiersList(ts, s) == Failed(ExpectedCommaOrIdentifier(")"))
  {}

  // ---- which value lists survive ----

  function LeadingEmpties(vs: seq<string>): (k: nat)
    ensures k <= |vs|
  {
    if vs != [] && vs[0] == "" then 1 + LeadingEmpties(vs[1..]) else 0
  }

  /** In a sorted list the empty values come first; each is printed as a comma alone. */
  lemma {:induction false} SortedEmpties(vs: seq<string>, ts: Items)
    requires Sorted(vs)
    ensures var k := LeadingEmpties(vs);
      (forall i :: 0 <= i < k ==> vs[i] == "") && (forall i :: k <= i < |vs| ==> vs[i] != "")
    ensures var k := LeadingEmpties(vs);
      ListThen(vs, ts) == if 0 < k == |vs| then CommasThen(k - 1, ts) else CommasThen(k, ListThen(vs[k..], ts))
  {
    if vs != [] && vs[0] == "" {
      SortedEmpties(vs[1..], ts);
      var k := LeadingEmpties(vs[1..]);
      assert vs[1..][k..] == vs[k + 1..];
      assert vs == [vs[0]] + vs[1..];
    } else {
      assert vs[0..] == vs;
      forall i | 0 <= i < |vs| ensures vs[i] != "" {
        assert i > 0 ==> Leq(vs[0], vs[i]);
      }
    }
  }

  /** The value lists whose printed form the parser rejects: three, five, seven... empty values. */
  predicate Unparsable(vs: seq<string>) {
    |vs| >= 3 && |vs| % 2 == 1 && forall i :: 0 <= i < |vs| ==> vs[i] == ""
  }

  lemma ParseList(vs: seq<string>, ts: Items)
    requires vs != [] && vs != [""] && Sorted(vs) && PlainValues(vs) && IsStream(ts) && ts[0] == CLOSE
    ensures var list := ListThen(vs, ts);
      && IsStream(list) && (TokenAt(list) == CommaToken || TokenAt(list) == IdentifierToken)
      && IdentifiersList(list, {}) == if Unparsable(vs) then Failed(ExpectedCommaOrIdentifier(")"))
        else Got(Elements(vs), ts)
  {
    hide AllPlain, WordItem, IdentifiersList, Leq, ListThen, IsStream, Elements;
    var k := LeadingEmpties(vs);
    SortedEmpties(vs, ts);
    if k == |vs| {
      Singleton(vs);
      ElementsSplit(vs, k);
      NoElements(vs[k..]);
      assert {} + {""} == Elements(vs);
      assert (k - 1) % 2 == 1 <==> k % 2 == 0;
      ParseCommasOnly(k - 1, {}, ts);
      CommasStream(k - 2, ts);
      CommaStep(CommasThen(k - 2, ts), {});
    } else {
      ParseWordsAfterEmpties(vs, k, ts);
    }
  }

  lemma ParseWordsAfterEmpties(vs: seq<string>, k: nat, ts: Items)
    requires k < |vs| && PlainValues(vs) && IsStream(ts) && ts[0] == CLOSE
    requires (forall i :: 0 <= i < k ==> vs[i] == "") && (forall i :: k <= i < |vs| ==> vs[i] != "")
    ensures !Unparsable(vs)
    ensures var list := CommasThen(k, ListThen(vs[k..], ts));
      && IsStream(list) && (TokenAt(list) == CommaToken || TokenAt(list) == IdentifierToken)
      && IdentifiersList(list, {}) == Got(Elements(vs), ts)
  {
    hide AllPlain, WordItem, IdentifiersList, ListThen, IsStream;
    assert vs[k] != "";
    assert Words(vs[k..]);
    ParseWords(vs[k..], {}, ts);
    if k == 0 {
      assert vs[0..] == vs && {} + Elements(vs) == Elements(vs);
    } else {
      ParseCommasThenWords(k, vs[k..], {}, ts);
      CommasStream(k - 1, ListThen(vs[k..], ts));
      CommaStep(CommasThen(k - 1, ListThen(vs[k..], ts)), {});
      ElementsSplit(vs, k);
    }
  }

  lemma Singleton(vs: seq<string>)
    ensures |vs| == 1 ==> vs == [vs[0]]
  {}

  lemma ElementsSplit(vs: seq<string>, k: nat)
    requires 0 < k <= |vs| && forall i :: 0 <= i < k ==> vs[i] == ""
    ensures Elements(vs) == {} + {""} + Elements(vs[k..])
  {
    assert vs == vs[..k] + vs[k..];
    assert vs[0] in vs;
  }

  lemma ValueSetStep(list: Items)
    requires IsStream(list)
    ensures IsStream([OPEN] + list)
    ensures list[0] == CLOSE ==> ValueSet([OPEN] + list) == Got({""}, list[1..])
    ensures TokenAt(list) == CommaToken || TokenAt(list) == IdentifierToken ==>
      ValueSet([OPEN] + list) == match IdentifiersList(list, {})
                                 case Got(s, rest) => Got(s, rest[1..])
                                 case Failed(e) => Failed(e)
  {}

  lemma ParseValueList(vs: seq<string>, ts: Items)
    requires vs != [] && Sorted(vs) && PlainValues(vs) && IsStream(ts)
    ensures var items := [OPEN] + ListThen(vs, [CLOSE] + ts);
      IsStream(items) && ValueSet(items) == if Unparsable(vs) then Failed(ExpectedCommaOrIdentifier(")"))
        else Got(Elements(vs), ts)
  {
    hide AllPlain, IdentifiersList, Leq, IsStream, ValueSet;
    var close := [CLOSE] + ts;
    StreamCons(CLOSE, ts);
    if vs == [""] {
      assert ListThen(vs, close) == close;
      assert Elements(vs) == {""};
    } else {
      hide ListThen;
      ParseList(vs, close);
    }
    ValueSetStep(ListThen(vs, close));
  }

  /** The requirement with its values listed once each. */
  ghost function Canonical(r: Requirement): Requirement {
    r.(values := List(Elements(r.values)))
  }

  predicate Parsable(r: Requirement) {
    SetBased(r.operator) ==> !Unparsable(r.values)
  }

  lemma CanonicalIsBuilt(r: Requirement)
    requires ValidRequirement(r)
    ensures NewRequirement(r.key, r.operator, List(Elements(r.values))) == Ok(Canonical(r))
    ensures NoDuplicates(r.values) ==> Canonical(r) == r
  {
    hide ValidLabelKey, ValidLabelValue, Leq, List, ParseInt;
    ValidRequirementMeans(r);
    var vs := List(Elements(r.values));
    assert forall v :: v in vs <==> v in Elements(vs);
    if NoDuplicates(r.values) { SortedUnique(vs, r.values); }
    if r.values != [] { assert r.values[0] in vs; }
    ValidRequirementMeans(Canonical(r));
  }

  /** What follows a requirement in a stream. */
  predicate AfterRequirement(ts: Items) {
    IsStream(ts) && (ts[0].tok == EndOfStringToken || ts[0].tok == CommaToken)
  }

  lemma ParseKey(r: Requirement, ts: Items)
    requires ValidLabelKey(r.key) && IsStream(ts)
    requires Unary(r.operator) ==> AfterRequirement(ts)
    requires !Unary(r.operator) ==> ts[0].tok != EndOfStringToken && ts[0].tok != CommaToken
    ensures var items :=
      (if r.operator == DoesNotExist then [NOT] + ([WordItem(r.key)] + ts) else [WordItem(r.key)] + ts);
      && IsStream(items) && StartsRequirement(TokenAt(items))
      && KeyAndInferredOperator(items) == Got((r.key, if Unary(r.operator) then Some(r.operator) else None), ts)
  {
    hide ValidLabelKey, IsStream, AllPlain, WordItem;
    ValidNamesArePlain(r.key);
    WordIsIdentifier(r.key);
    var w := WordItem(r.key);
    StreamCons(w, ts);
    StreamCons(NOT, [w] + ts);
  }

  lemma ParseRestrictionItems(r: Requirement, ts: Items)
    requires ValidRequirement(r) && !Unary(r.operator) && AfterRequirement(ts)
    ensures var items := [OperatorItem(r.operator)] + ValuesThen(r, ts);
      && IsStream(items) && items[0].tok != EndOfStringToken && items[0].tok != CommaToken
      && if Parsable(r) then Restriction(r.key, items) == Got(Canonical(r), ts) else Restriction(r.key, items).Failed?
  {
    hide ValidRequirement, IsStream, ListThen, ValueSet, ExactValue, Construct, Canonical, Unparsable, ValidLabelKey,
         ValidLabelValue, AllPlain, Leq;
    ValidRequirementMeans(r);
    var values := ValuesThen(r, ts);
    forall i | 0 <= i < |r.values| ensures AllPlain(r.values[i]) { ValidNamesArePlain(r.values[i]); }
    if SetBased(r.operator) {
      ParseValueList(r.values, ts);
    } else {
      ParseOneValue(r.values[0], ts);
      assert r.values == [r.values[0]];
    }
    ConstructCanonical(r, ts);
    StreamCons(OperatorItem(r.operator), values);
  }

  lemma ConstructCanonical(r: Requirement, ts: Items)
    requires ValidRequirement(r)
    ensures Construct(r.key, r.operator, Elements(r.values), ts) == Got(Canonical(r), ts)
  {
    hide ValidRequirement, NewRequirement;
    CanonicalIsBuilt(r);
  }

  lemma ParseOneValue(v: string, ts: Items)
    requires AllPlain(v) && AfterRequirement(ts)
    ensures IsStream(ListThen([v], ts)) && ExactValue(ListThen([v], ts)) == Got(Elements([v]), ts)
  {
    hide AllPlain, WordItem;
    assert Elements([v]) == {v};
    if v != "" {
      WordIsIdentifier(v);
      StreamCons(WordItem(v), ts);
    }
  }

  /** One printed requirement is parsed back, unless it is one of the unparsable ones. */
  lemma ParseRequirementItems(r: Requirement, ts: Items)
    requires ValidRequirement(r) && AfterRequirement(ts)
    ensures var items := RequirementThen(r, ts);
      && IsStream(items) && items[0].tok != EndOfStringToken && StartsRequirement(TokenAt(items))
      && if Parsable(r) then OneRequirement(items) == Got(Canonical(r), ts) else OneRequirement(items).Failed?
  {
    hide ValidRequirement, IsStream, ValidLabelKey, KeyAndInferredOperator, Restriction, Construct, ValuesThen,
         Canonical, WordItem, OperatorItem;
    ValidRequirementMeans(r);
    if Unary(r.operator) {
      ParseKey(r, ts);
      ConstructCanonical(r, ts);
      NoElements(r.values);
    } else {
      ParseRestrictionItems(r, ts);
      ParseKey(r, [OperatorItem(r.operator)] + ValuesThen(r, ts));
    }
  }

  // ---- the theorems ----

  ghost function CanonicalAll(sel: seq<Requirement>): (r: seq<Requirement>)
    ensures |r| == |sel| && forall i :: 0 <= i < |sel| ==> r[i] == Canonical(sel[i])
  {
    hide Canonical;
    if sel == [] then [] else [Canonical(sel[0])] + CanonicalAll(sel[1..])
  }

  predicate AllParsable(sel: seq<Requirement>) {
    forall i :: 0 <= i < |sel| ==> Parsable(sel[i])
  }

  lemma {:induction false} ParseSelectorItems(sel: seq<Requirement>)
    requires ValidSelector(sel)
    ensures var items := SelectorItems(sel);
      && IsStream(items) && (sel != [] ==> StartsRequirement(TokenAt(items)))
      && if AllParsable(sel) then Requirements(items) == Ok(CanonicalAll(sel)) else Requirements(items).Err?
  {
    hide ValidRequirement, RequirementThen, OneRequirement, Parsable, Canonical, StartsRequirement;
    if sel != [] {
      var last := |sel| == 1;
      var tail := if last then [END] else [COMMA] + SelectorItems(sel[1..]);
      if !last {
        ParseSelectorItems(sel[1..]);
        StreamCons(COMMA, SelectorItems(sel[1..]));
      }
      ParseRequirementItems(sel[0], tail);
      assert AllParsable(sel) <==> Parsable(sel[0]) && (forall i :: 0 <= i < |sel[1..]| ==> Parsable(sel[1..][i])) by {
        assert sel == [sel[0]] + sel[1..];
      }
      RequirementsStep(RequirementThen(sel[0], tail));
      assert last ==> CanonicalAll(sel) == [Canonical(sel[0])] && CanonicalAll(sel[1..]) == [];
    }
  }

  /** The parser's main loop, one turn at a time. */
  lemma RequirementsStep(ts: Items)
    requires IsStream(ts) && ts[0].tok != EndOfStringToken && StartsRequirement(TokenAt(ts))
    ensures OneRequirement(ts).Failed? ==> Requirements(ts).Err?
    ensures OneRequirement(ts).Got? ==> var r, rest := OneRequirement(ts).value, OneRequirement(ts).rest;
      && (rest[0].tok == EndOfStringToken ==> Requirements(ts) == Ok([r]))
      && (rest[0].tok == CommaToken && StartsRequirement(TokenAt(rest[1..])) ==>
          Requirements(ts) == Prepend([r], Requirements(rest[1..])))
  {}

  /** Parsing a printed selector succeeds exactly when no set-based requirement holds an odd number,
    * three or more, of empty values and nothing else; it then yields every requirement with its
    * values listed once each. */
  lemma RoundTrip(sel: seq<Requirement>)
    requires ValidSelector(sel)
    ensures var parsed := Requirements(Scan(SelectorString(sel)));
      if AllParsable(sel) then parsed == Ok(CanonicalAll(sel)) else parsed.Err?
  {
    hide ValidSelector, Scan, SelectorString, SelectorItems, Requirements, CanonicalAll;
    ScanSelector(sel);
    ParseSelectorItems(sel);
  }

  predicate DuplicateFree(sel: seq<Requirement>) {
    forall i :: 0 <= i < |sel| ==> NoDuplicates(sel[i].values)
  }

  /** Without duplicate values the very same requirements come back. */
  lemma RoundTripExact(sel: seq<Requirement>)
    requires ValidSelector(sel) && DuplicateFree(sel)
    ensures Requirements(Scan(SelectorString(sel))) == Ok(sel)
  {
    hide ValidRequirement, Scan, SelectorString, Requirements, Canonical, NoDuplicates;
    forall i | 0 <= i < |sel| ensures Parsable(sel[i]) && Canonical(sel[i]) == sel[i] {
      CanonicalIsBuilt(sel[i]);
      NoDuplicatesIsParsable(sel[i].values);
    }
    RoundTrip(sel);
    assert CanonicalAll(sel) == sel;
  }

  lemma NoDuplicatesIsParsable(vs: seq<string>)
    requires NoDuplicates(vs)
    ensures !Unparsable(vs)
  {
    assert |vs| >= 2 ==> vs[0] != vs[1];
  }

  /** The case that does not come back. */
  lemma ThreeEmptyValuesAreRejected()
    ensures var r := Requirement("x", In, ["", "", ""]);
      ValidRequirement(r) && Requirements(Scan(SelectorString([r]))).Err?
  {
    hide Scan, SelectorString, Requirements;
    var r := Requirement("x", In, ["", "", ""]);
    ValidRequirementMeans(r);
    hide ValidRequirement;
    assert !AllParsable([r]) by { assert !Parsable([r][0]); }
    RoundTrip([r]);
  }

  /** Whatever order the parser's sort leaves, the parsed selector matches the same label sets. */
  lemma RoundTripMatches(sel: seq<Requirement>, parsed: seq<Requirement>, ls: LabelSet)
    requires ValidSelector(sel) && AllParsable(sel)
    requires Requirements(Scan(SelectorString(sel))).Ok?
    requires multiset(parsed) == multiset(Requirements(Scan(SelectorString(sel))).value)
    ensures SelectorMatches(parsed, ls) == SelectorMatches(sel, ls)
  {
    hide Scan, SelectorString, Requirements, ValidRequirement, Matches, Parsable, Canonical;
    RoundTrip(sel);
    var canonical := CanonicalAll(sel);
    MatchesIgnoresOrder(parsed, canonical, ls);
    forall i | 0 <= i < |sel| ensures Matches(canonical[i], ls) == Matches(sel[i], ls) {
      CanonicalMatches(sel[i], ls);
    }
  }

  lemma CanonicalMatches(r: Requirement, ls: LabelSet)
    requires ValidRequirement(r)
    ensures Matches(Canonical(r), ls) == Matches(r, ls)
  {
    hide ValidRequirement, List, Leq, ParseInt, ValidLabelKey, ValidLabelValue;
    ValidRequirementMeans(r);
    var vs := List(Elements(r.values));
    assert forall v :: v in vs <==> v in Elements(vs);
    if |r.values| == 1 { SortedUnique(vs, r.values); }
  }

  /** What the parser returns is valid and free of duplicates... */
  lemma {:induction false} ParsedIsValid(ts: Items)
    requires IsStream(ts)
    ensures Requirements(ts).Ok? ==> ValidSelector(Requirements(ts).value) && DuplicateFree(Requirements(ts).value)
    decreases |ts|
  {
    hide ValidRequirement, OneRequirement, NoDuplicates;
    if ts[0].tok != EndOfStringToken && StartsRequirement(TokenAt(ts)) {
      ParsedRequirementIsValid(ts);
      var one := OneRequirement(ts);
      if one.Got? && one.rest[0].tok == CommaToken { ParsedIsValid(one.rest[1..]); }
    }
  }

  lemma ParsedRequirementIsValid(ts: Items)
    requires IsStream(ts) && ts[0].tok != EndOfStringToken
    ensures OneRequirement(ts).Got? ==>
      ValidRequirement(OneRequirement(ts).value) && NoDuplicates(OneRequirement(ts).value.values)
  {
    hide ValidRequirement, NoDuplicates, Construct, ValueSet, ExactValue, KeyAndInferredOperator, BinaryOperator;
    forall key, op, s, rest
      ensures var r := Construct(key, op, s, rest);
        r.Got? ==> ValidRequirement(r.value) && NoDuplicates(r.value.values)
    {
      ConstructedIsValid(key, op, s, rest);
    }
  }

  lemma ConstructedIsValid(key: string, op: Operator, s: set<string>, rest: Items)
    ensures var r := Construct(key, op, s, rest); r.Got? ==> ValidRequirement(r.value) && NoDuplicates(r.value.values)
  {
    hide List, NewRequirement;
    NewRequirementKeepsOrder(key, op, List(s));
  }

  lemma NewRequirementKeepsOrder(key: string, op: Operator, vals: seq<string>)
    requires Sorted(vals)
    ensures NewRequirement(key, op, vals).Ok? ==> NewRequirement(key, op, vals).value == Requirement(key, op, vals)
  {
    hide Sort, Leq, ValidLabelKey, ParseInt, FirstInvalid;
    SortOfSorted(vals);
  }

  /** ... so printing the result of a parse and parsing it again changes nothing. */
  lemma ParsePrintParse(selector: string, sel: seq<Requirement>)
    requires Requirements(Scan(selector)).Ok? && multiset(sel) == multiset(Requirements(Scan(selector)).value)
    ensures Requirements(Scan(SelectorString(sel))) == Ok(sel)
  {
    hide Requirements, Scan, SelectorString, ValidRequirement, NoDuplicates;
    var first := Requirements(Scan(selector)).value;
    ParsedIsValid(Scan(selector));
    forall i | 0 <= i < |sel| ensures ValidRequirement(sel[i]) && NoDuplicates(sel[i].values) {
      assert sel[i] in multiset(sel);
      assert sel[i] in first;
    }
    RoundTripExact(sel);
  }
}
