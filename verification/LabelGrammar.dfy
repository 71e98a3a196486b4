/** The grammar of label selectors, stated on phrases of items without reference to the parser, and
  * the proof that the parser accepts exactly the streams that the grammar derives. */
module LabelGrammar {
  import opened Wrappers
  import opened Decimals
  import opened LabelStrings
  import opened LabelLexer
  import opened LabelSelector
  import opened LabelParser

  type Phrase = seq<ScannedItem>

  // ---- the grammar ----

  /** A key or a value: an identifier, or a keyword where no operator can stand. */
  predicate IsWord(i: ScannedItem) {
    i.tok == IdentifierToken || i.tok == InToken || i.tok == NotInToken
  }

  predicate IsComma(i: ScannedItem) {
    i.tok == CommaToken
  }

  function TrailingCommas(l: Phrase): (n: nat)
    ensures n <= |l|
  {
    if l == [] || !IsComma(l[|l| - 1]) then 0 else 1 + TrailingCommas(l[..|l| - 1])
  }

  predicate WordsAndCommas(l: Phrase) {
    forall i :: 0 <= i < |l| ==> IsWord(l[i]) || IsComma(l[i])
  }

  /** Two words meet, or two commas do, behind position `i`. */
  predicate Meet(l: Phrase, i: nat, what: ScannedItem -> bool) {
    i + 1 < |l| && what(l[i]) && what(l[i + 1])
  }

  predicate Separated(l: Phrase) {
    forall i: nat :: i < |l| ==> !Meet(l, i, IsWord)
  }

  /** What may stand between parentheses: values separated by commas, where a value may be empty.
    * Only lists that end in a positive even number of commas are left out. */
  predicate IsList(l: Phrase) {
    WordsAndCommas(l) && Separated(l) && (TrailingCommas(l) == 0 || TrailingCommas(l) % 2 == 1)
  }

  predicate AdjacentCommas(l: Phrase) {
    exists i: nat :: i < |l| && Meet(l, i, IsComma)
  }

  predicate EndsInComma(l: Phrase) {
    l != [] && IsComma(l[|l| - 1])
  }

  /** Some field between the commas holds no word. */
  predicate HasEmptyField(l: Phrase) {
    l == [] || IsComma(l[0]) || EndsInComma(l) || AdjacentCommas(l)
  }

  function Words(l: Phrase): set<string> {
    set i | 0 <= i < |l| && IsWord(l[i]) :: l[i].literal
  }

  /** The values that a list names. */
  function Fields(l: Phrase): set<string> {
    if HasEmptyField(l) then Words(l) + {""} else Words(l)
  }

  function OperatorToken(op: Operator): Token
    requires !Unary(op)
  {
    match op
    case In => InToken
    case NotIn => NotInToken
    case Equals => EqualsToken
    case DoubleEquals => DoubleEqualsToken
    case NotEquals => NotEqualsToken
    case GreaterThan => GreaterThanToken
    case LessThan => LessThanToken
  }

  /** The values after an operator: a list in parentheses, or one value that may be left out. */
  predicate ValuesPhrase(p: Phrase, op: Operator, values: set<string>) {
    if SetBased(op) then
      && 2 <= |p| && p[0].tok == OpenParToken && p[|p| - 1].tok == ClosedParToken
      && IsList(p[1..|p| - 1]) && values == Fields(p[1..|p| - 1])
    else
      (p == [] && values == {""}) || (|p| == 1 && IsWord(p[0]) && values == {p[0].literal})
  }

  /** `!key`, `key`, or a key with an operator and values. */
  predicate RequirementPhrase(p: Phrase, key: string, op: Operator, values: set<string>) {
    match op
    case DoesNotExist =>
      |p| == 2 && p[0].tok == DoesNotExistToken && IsWord(p[1]) && p[1].literal == key && values == {}
    case Exists =>
      |p| == 1 && IsWord(p[0]) && p[0].literal == key && values == {}
    case _ =>
      && 2 <= |p| && IsWord(p[0]) && p[0].literal == key
      && p[1].tok == OperatorToken(op) && ValuesPhrase(p[2..], op, values)
  }

  /** The phrase `p` says the requirement `r`. */
  predicate Means(p: Phrase, r: Requirement) {
    ValidRequirement(r) && NoDuplicates(r.values) && RequirementPhrase(p, r.key, r.operator, Elements(r.values))
  }

  predicate IsEnd(ts: Phrase) {
    |ts| == 1 && ts[0].tok == EndOfStringToken
  }

  /** The first `n` items say the first requirement; then comes the end, or a comma and the rest. */
  predicate DerivesAt(ts: Phrase, n: nat, sel: seq<Requirement>)
    decreases |ts|, 0
  {
    && n < |ts| && sel != [] && Means(ts[..n], sel[0])
    && ((IsEnd(ts[n..]) && |sel| == 1) || (IsComma(ts[n]) && |sel| > 1 && Derives(ts[n + 1..], sel[1..])))
  }

  /** A stream is empty, or requirements separated by commas. */
  predicate Derives(ts: Phrase, sel: seq<Requirement>)
    decreases |ts|, 1
  {
    (IsEnd(ts) && sel == []) || exists n: nat :: n < |ts| && DerivesAt(ts, n, sel)
  }

  // ---- lists of values ----

  /** The list at the front of a stream. */
  function ListLength(ts: Phrase): (n: nat)
    requires IsStream(ts)
    ensures n < |ts| && WordsAndCommas(ts[..n]) && !IsWord(ts[n]) && !IsComma(ts[n])
  {
    if IsWord(ts[0]) || IsComma(ts[0]) then
      var n := ListLength(ts[1..]);
      assert ts[..1 + n] == [ts[0]] + ts[1..][..n];
      1 + n
    else 0
  }

  lemma ListLengthUnique(ts: Phrase, n: nat)
    requires IsStream(ts) && n < |ts| && WordsAndCommas(ts[..n]) && !IsWord(ts[n]) && !IsComma(ts[n])
    ensures ListLength(ts) == n
  {}

  lemma {:induction false} TrailingSplit(a: Phrase, b: Phrase)
    ensures TrailingCommas(a + b) == if TrailingCommas(b) == |b| then TrailingCommas(a) + |b| else TrailingCommas(b)
  {
    if b == [] {
      assert a + b == a;
    } else {
      assert (a + b)[..|a + b| - 1] == a + b[..|b| - 1];
      TrailingSplit(a, b[..|b| - 1]);
    }
  }

  lemma ConsMeets(x: ScannedItem, l: Phrase)
    ensures Separated([x] + l) <==> Separated(l) && !(l != [] && IsWord(x) && IsWord(l[0]))
    ensures AdjacentCommas([x] + l) <==> AdjacentCommas(l) || (l != [] && IsComma(x) && IsComma(l[0]))
  {
    var c := [x] + l;
    forall i: nat, what | i < |l| ensures Meet(c, i + 1, what) == Meet(l, i, what) {}
    assert l != [] ==> Meet(c, 0, IsWord) == (IsWord(x) && IsWord(l[0]));
    assert l != [] ==> Meet(c, 0, IsComma) == (IsComma(x) && IsComma(l[0]));
    if Separated(c) {
      forall i: nat | i < |l| ensures !Meet(l, i, IsWord) { assert !Meet(c, i + 1, IsWord); }
    }
    if Separated(l) && !Meet(c, 0, IsWord) {
      forall i: nat | i < |c| ensures !Meet(c, i, IsWord) { assert i > 0 ==> !Meet(l, i - 1, IsWord); }
    }
    if AdjacentCommas(c) {
      var i: nat :| i < |c| && Meet(c, i, IsComma);
      assert i > 0 ==> Meet(l, i - 1, IsComma);
    }
    if AdjacentCommas(l) {
      var i: nat :| i < |l| && Meet(l, i, IsComma);
      assert Meet(c, i + 1, IsComma);
    }
  }

  lemma ConsWords(x: ScannedItem, l: Phrase)
    ensures Words([x] + l) == Words(l) + if IsWord(x) then {x.literal} else {}
  {
    var c := [x] + l;
    forall w | w in Words(l) ensures w in Words(c) {
      var i :| 0 <= i < |l| && IsWord(l[i]) && l[i].literal == w;
      assert c[i + 1] == l[i];
    }
    assert c[0] == x;
  }

  lemma ConsCommas(x: ScannedItem, l: Phrase)
    ensures EndsInComma([x] + l) == if l == [] then IsComma(x) else EndsInComma(l)
    ensures TrailingCommas([x] + l) == TrailingCommas(l) + if IsComma(x) && TrailingCommas(l) == |l| then 1 else 0
  {
    TrailingSplit([x], l);
    assert [x][..0] == [];
  }

  /** What a list is, when one more item stands in front of it. */
  lemma ConsList(x: ScannedItem, l: Phrase)
    requires WordsAndCommas([x] + l)
    ensures IsWord(x) && l == [] ==> IsList([x] + l)
    ensures IsWord(x) && l != [] ==> (IsList([x] + l) <==> IsList(l) && IsComma(l[0]))
    ensures IsComma(x) && l == [] ==> IsList([x] + l)
    ensures IsComma(x) && l != [] && IsWord(l[0]) ==> (IsList([x] + l) <==> IsList(l))
  {
    hide Separated, AdjacentCommas, TrailingCommas, EndsInComma;
    var c := [x] + l;
    assert c[0] == x && forall i :: 0 <= i < |l| ==> l[i] == c[i + 1];
    ConsMeets(x, l);
    ConsCommas(x, l);
    SomeWord(l);
    NoItems();
  }

  lemma NoItems()
    ensures Separated([]) && TrailingCommas([]) == 0 && !AdjacentCommas([]) && Words([]) == {}
  {}

  lemma {:induction false} SomeWord(l: Phrase)
    ensures l != [] && !IsComma(l[0]) ==> TrailingCommas(l) < |l|
  {
    if l != [] && EndsInComma(l) && |l| > 1 { SomeWord(l[..|l| - 1]); }
  }

  lemma ConsTwoCommas(x: ScannedItem, y: ScannedItem, l: Phrase)
    requires IsComma(x) && IsComma(y) && WordsAndCommas(l)
    ensures IsList([x] + ([y] + l)) <==> l != [] && IsList(l)
  {
    hide Separated, AdjacentCommas, TrailingCommas, EndsInComma;
    var c := [x] + ([y] + l);
    assert c[0] == x && c[1] == y && forall i :: 0 <= i < |l| ==> l[i] == c[i + 2];
    ConsMeets(y, l);
    ConsMeets(x, [y] + l);
    ConsCommas(y, l);
    ConsCommas(x, [y] + l);
    NoItems();
  }

  /** The list names the empty value, given that `s` was collected before it. */
  predicate NamesEmpty(l: Phrase, s: set<string>)
    requires l != []
  {
    (s == {} && IsComma(l[0])) || EndsInComma(l) || AdjacentCommas(l)
  }

  function Collected(l: Phrase, s: set<string>): set<string>
    requires l != []
  {
    s + Words(l) + if NamesEmpty(l, s) then {""} else {}
  }

  function OrEmpty(s: set<string>): set<string> {
    if s == {} then {""} else s
  }

  lemma ConsCollected(x: ScannedItem, l: Phrase, s: set<string>)
    ensures IsWord(x) && l == [] ==> Collected([x] + l, s) == s + {x.literal}
    ensures IsWord(x) && l != [] ==> Collected([x] + l, s) == Collected(l, s + {x.literal})
    ensures IsComma(x) && l == [] ==> Collected([x] + l, s) == OrEmpty(s) + {""}
    ensures IsComma(x) && l != [] && IsWord(l[0]) ==> Collected([x] + l, s) == Collected(l, OrEmpty(s))
  {
    hide Words, AdjacentCommas, EndsInComma;
    ConsMeets(x, l);
    ConsWords(x, l);
    ConsCommas(x, l);
    NoItems();
  }

  lemma TwoCommasCollected(x: ScannedItem, y: ScannedItem, l: Phrase, s: set<string>)
    requires IsComma(x) && IsComma(y) && l != []
    ensures Collected([x] + ([y] + l), s) == Collected(l, OrEmpty(s) + {""})
  {
    hide Words, AdjacentCommas, EndsInComma;
    ConsMeets(x, [y] + l);
    ConsWords(y, l);
    ConsWords(x, [y] + l);
  }

  /** The loop over a list, with `s` collected before, accepts exactly a non-empty list in front of
    * a closing parenthesis. */
  ghost predicate ListOutcome(ts: Phrase, s: set<string>)
    requires IsStream(ts)
  {
    var n, r := ListLength(ts), IdentifiersList(ts, s);
    if n > 0 && IsList(ts[..n]) && ts[n].tok == ClosedParToken then r == Got(Collected(ts[..n], s), ts[n..])
    else r.Failed?
  }

  /** One turn of the loop. */
  lemma ListStep(ts: Phrase, s: set<string>)
    requires IsStream(ts)
    ensures IsWord(ts[0]) || IsComma(ts[0]) ==> IsStream(ts[1..])
    ensures
      var r := IdentifiersList(ts, s);
      if IsWord(ts[0]) then
        if IsComma(ts[1]) then r == IdentifiersList(ts[1..], s + {ts[0].literal})
        else if ts[1].tok == ClosedParToken then r == Got(s + {ts[0].literal}, ts[1..])
        else r.Failed?
      else if IsComma(ts[0]) then
        if ts[1].tok == ClosedParToken then r == Got(OrEmpty(s) + {""}, ts[1..])
        else if IsComma(ts[1]) then r == IdentifiersList(ts[1..][1..], OrEmpty(s) + {""})
        else r == IdentifiersList(ts[1..], OrEmpty(s))
      else r.Failed?
  {}

  lemma LengthStep(ts: Phrase)
    requires IsStream(ts)
    ensures if IsWord(ts[0]) || IsComma(ts[0]) then
              && IsStream(ts[1..]) && ListLength(ts) == 1 + ListLength(ts[1..])
              && ts[..ListLength(ts)] == [ts[0]] + ts[1..][..ListLength(ts[1..])]
              && ts[ListLength(ts)..] == ts[1..][ListLength(ts[1..])..]
            else ListLength(ts) == 0
  {
    hide IsStream, WordsAndCommas;
    if ListLength(ts) > 0 {
      StreamRest(ts);
      var n := ListLength(ts[1..]);
      assert ts[..1 + n] == [ts[0]] + ts[1..][..n];
    }
  }

  lemma {:induction false} ListIsParsed(ts: Phrase, s: set<string>)
    requires IsStream(ts)
    ensures ListOutcome(ts, s)
    decreases |ts|
  {
    hide IsStream, IsList, Collected, IdentifiersList, ListLength;
    ListStep(ts, s);
    LengthStep(ts);
    if IsWord(ts[0]) || IsComma(ts[0]) {
      var rest := ts[1..];
      var l := rest[..ListLength(rest)];
      LengthStep(rest);
      ConsList(ts[0], l);
      ConsCollected(ts[0], l, s);
      if IsWord(ts[0]) {
        if IsComma(rest[0]) { ListIsParsed(rest, s + {ts[0].literal}); }
      } else if IsComma(rest[0]) {
        var more := rest[1..][..ListLength(rest[1..])];
        ListIsParsed(rest[1..], OrEmpty(s) + {""});
        ConsTwoCommas(ts[0], rest[0], more);
        if more != [] { TwoCommasCollected(ts[0], rest[0], more, s); }
      } else if rest[0].tok != ClosedParToken {
        ListIsParsed(rest, OrEmpty(s));
      }
    }
  }

  // ---- values ----

  lemma FieldsCollected(l: Phrase)
    requires l != []
    ensures Fields(l) == Collected(l, {})
  {}

  /** A list between its parentheses. */
  lemma Enclosed(ts: Phrase, m: nat)
    requires m + 2 <= |ts|
    ensures ts[..m + 2][1..m + 1] == ts[1..][..m] && ts[m + 1] == ts[1..][m] && ts[m + 2..] == ts[1..][m + 1..]
  {}

  lemma EnclosedPhrase(ts: Phrase, m: nat, op: Operator)
    requires m + 2 <= |ts| && SetBased(op) && ts[0].tok == OpenParToken && ts[1..][m].tok == ClosedParToken
    requires IsList(ts[1..][..m])
    ensures ValuesPhrase(ts[..m + 2], op, Fields(ts[1..][..m]))
  {
    hide IsList, Fields;
    Enclosed(ts, m);
  }

  lemma StreamIsNotEmpty(ts: Phrase)
    requires IsStream(ts)
    ensures ts != []
  {}

  lemma ValueSetStep(ts: Phrase)
    requires IsStream(ts)
    ensures ts[0].tok != OpenParToken ==> ValueSet(ts).Failed?
    ensures ts[0].tok == OpenParToken ==> IsStream(ts[1..])
    ensures
      ts[0].tok == OpenParToken ==>
        if IsWord(ts[1]) || IsComma(ts[1]) then
          match IdentifiersList(ts[1..], {})
          case Got(s, rest) => ValueSet(ts) == Got(s, rest[1..])
          case Failed(_) => ValueSet(ts).Failed?
        else if ts[1].tok == ClosedParToken then ValueSet(ts) == Got({""}, ts[1..][1..])
        else ValueSet(ts).Failed?
  {
    hide IdentifiersList;
  }

  lemma {:induction false} ValueSetSound(ts: Phrase, op: Operator) returns (n: nat)
    requires IsStream(ts) && SetBased(op) && ValueSet(ts).Got?
    ensures n < |ts| && ValueSet(ts).rest == ts[n..] && ValuesPhrase(ts[..n], op, ValueSet(ts).value)
  {
    hide IdentifiersList, IsList, Fields, Collected, ListLength, ValueSet, IsStream, ValuesPhrase;
    ValueSetStep(ts);
    StreamIsNotEmpty(ValueSet(ts).rest);
    var list := ts[1..];
    ListIsParsed(list, {});
    LengthStep(list);
    var m := ListLength(list);
    n := m + 2;
    Enclosed(ts, m);
    EmptyList();
    if m > 0 { FieldsCollected(list[..m]); }
    EnclosedPhrase(ts, m, op);
  }

  lemma EmptyList()
    ensures IsList([]) && Fields([]) == {""}
  {
    NoItems();
  }

  lemma {:induction false} ValueSetComplete(ts: Phrase, op: Operator, n: nat, values: set<string>)
    requires IsStream(ts) && SetBased(op) && n < |ts| && ValuesPhrase(ts[..n], op, values)
    ensures ValueSet(ts) == Got(values, ts[n..])
  {
    hide IdentifiersList, Fields, Collected, ListLength, TrailingCommas, Separated;
    var list, m := ts[1..], n - 2;
    assert ts[..n][1..n - 1] == list[..m];
    assert ts[..n][n - 1] == list[m];
    ListLengthUnique(list, m);
    ListIsParsed(list, {});
    if m > 0 {
      assert list[0] == list[..m][0];
      FieldsCollected(list[..m]);
    } else {
      EmptyList();
    }
  }

  // ---- requirements ----

  lemma NewRequirementOfList(key: string, op: Operator, s: set<string>)
    ensures var r := NewRequirement(key, op, List(s)); r.Ok? ==> r.value == Requirement(key, op, List(s))
  {
    hide ValidLabelKey, ValidLabelValue, ParseInt, Leq, List, Sort;
    SortOfSorted(List(s));
  }

  /** What is built from a key, an operator and a set of values. */
  lemma ConstructMeans(key: string, op: Operator, s: set<string>, rest: Phrase, r: Requirement)
    ensures Construct(key, op, s, rest) == Got(r, rest) <==>
      ValidRequirement(r) && NoDuplicates(r.values) && r.key == key && r.operator == op && Elements(r.values) == s
  {
    hide NewRequirement, NoDuplicates, Elements, List, Sorted;
    NewRequirementOfList(key, op, s);
    if ValidRequirement(r) && NoDuplicates(r.values) && Elements(r.values) == s {
      SortedUnique(r.values, List(s));
    }
  }

  predicate Ends(ts: Phrase) {
    ts != [] && (ts[0].tok == EndOfStringToken || IsComma(ts[0]))
  }

  /** The values and the items behind them, read as the operator asks. */
  ghost function ValuesAfter(op: Operator, ts: Phrase): Parsed<set<string>>
    requires IsStream(ts)
  {
    if SetBased(op) then ValueSet(ts) else ExactValue(ts)
  }

  lemma ValuesSound(ts: Phrase, op: Operator) returns (n: nat)
    requires IsStream(ts) && ValuesAfter(op, ts).Got?
    ensures n < |ts| && ValuesAfter(op, ts).rest == ts[n..] && ValuesPhrase(ts[..n], op, ValuesAfter(op, ts).value)
  {
    hide ValueSet, ExactValue, ValuesPhrase;
    if SetBased(op) {
      n := ValueSetSound(ts, op);
    } else {
      n := ExactSound(ts, op);
    }
  }

  lemma RestrictionStep(key: string, ts: Phrase, r: Requirement, rest: Phrase)
    requires IsStream(ts) && ts[0].tok != EndOfStringToken && Restriction(key, ts) == Got(r, rest)
    ensures !Unary(r.operator) && ts[0].tok == OperatorToken(r.operator) && IsStream(ts[1..])
    ensures var v := ValuesAfter(r.operator, ts[1..]);
      v.Got? && v.rest == rest && Construct(key, r.operator, v.value, rest) == Got(r, rest)
  {
    hide ValueSet, ExactValue, ValidLabelKey, ValidLabelValue, ParseInt, Leq, List, Sort, Sorted;
  }

  lemma {:induction false} RestrictionSound(key: string, ts: Phrase, r: Requirement, rest: Phrase) returns (n: nat)
    requires IsStream(ts) && ts[0].tok != EndOfStringToken && Restriction(key, ts) == Got(r, rest)
    ensures 0 < n < |ts| && rest == ts[n..]
    ensures ValidRequirement(r) && NoDuplicates(r.values) && r.key == key && !Unary(r.operator)
    ensures ts[0].tok == OperatorToken(r.operator) && ValuesPhrase(ts[1..n], r.operator, Elements(r.values))
  {
    hide ValuesAfter, ValuesPhrase, ValidRequirement, NoDuplicates, Elements, Construct, IsStream, Restriction;
    RestrictionStep(key, ts, r, rest);
    var m := ValuesSound(ts[1..], r.operator);
    n := 1 + m;
    assert ts[n..] == ts[1..][m..] && ts[1..n] == ts[1..][..m];
    ConstructMeans(key, r.operator, ValuesAfter(r.operator, ts[1..]).value, rest, r);
  }

  lemma StreamRest(ts: Phrase)
    requires IsStream(ts) && ts[0].tok != EndOfStringToken
    ensures IsStream(ts[1..])
  {}

  lemma ExactSound(ts: Phrase, op: Operator) returns (n: nat)
    requires IsStream(ts) && !SetBased(op) && ExactValue(ts).Got?
    ensures n < |ts| && ExactValue(ts).rest == ts[n..] && ValuesPhrase(ts[..n], op, ExactValue(ts).value)
  {
    n := if Ends(ts) then 0 else 1;
  }

  lemma ExactComplete(ts: Phrase, op: Operator, n: nat, values: set<string>)
    requires IsStream(ts) && !SetBased(op) && n < |ts| && ValuesPhrase(ts[..n], op, values) && Ends(ts[n..])
    ensures ExactValue(ts) == Got(values, ts[n..])
  {}

  lemma {:induction false} RestrictionComplete(r: Requirement, ts: Phrase, n: nat)
    requires IsStream(ts) && ts[0].tok != EndOfStringToken && 0 < n < |ts| && Ends(ts[n..])
    requires ValidRequirement(r) && NoDuplicates(r.values) && !Unary(r.operator)
    requires ts[0].tok == OperatorToken(r.operator) && ValuesPhrase(ts[1..n], r.operator, Elements(r.values))
    ensures Restriction(r.key, ts) == Got(r, ts[n..])
  {
    hide ValueSet, ValuesPhrase, ValidRequirement, NoDuplicates, Elements, Construct, IsStream, ExactValue;
    StreamRest(ts);
    var rest := ts[1..];
    assert ts[n..] == rest[n - 1..] && ts[1..n] == rest[..n - 1];
    if SetBased(r.operator) {
      ValueSetComplete(rest, r.operator, n - 1, Elements(r.values));
    } else {
      ExactComplete(rest, r.operator, n - 1, Elements(r.values));
    }
    ConstructMeans(r.key, r.operator, Elements(r.values), ts[n..], r);
  }

  /** One requirement in front of a comma or the end is a phrase that says it. */
  lemma {:induction false} RequirementSound(ts: Phrase, r: Requirement, rest: Phrase) returns (n: nat)
    requires IsStream(ts) && ts[0].tok != EndOfStringToken && OneRequirement(ts) == Got(r, rest)
    ensures n < |ts| && rest == ts[n..] && Means(ts[..n], r)
  {
    hide ValuesPhrase, ValidRequirement, NoDuplicates, Elements, Construct, Restriction, ValidLabelKey, OperatorToken;
    var keyed := KeyAndInferredOperator(ts);
    StreamRest(ts);
    if keyed.value.1.None? {
      var m := RestrictionSound(keyed.value.0, ts[1..], r, rest);
      n := 1 + m;
      assert ts[n..] == ts[1..][m..] && ts[..n][2..] == ts[1..][1..m];
    } else {
      n := if ts[0].tok == DoesNotExistToken then 2 else 1;
      ConstructMeans(keyed.value.0, keyed.value.1.value, {}, rest, r);
    }
  }

  lemma BinaryStep(ts: Phrase)
    requires IsStream(ts) && IsWord(ts[0]) && ValidLabelKey(ts[0].literal) && !Ends(ts[1..])
    ensures IsStream(ts[1..]) && OneRequirement(ts) == Restriction(ts[0].literal, ts[1..])
  {
    hide Restriction, ValidLabelKey;
  }

  lemma UnaryStep(ts: Phrase, n: nat, r: Requirement)
    requires IsStream(ts) && ts[0].tok != EndOfStringToken && n < |ts| && Ends(ts[n..]) && ValidLabelKey(r.key)
    requires Unary(r.operator) && RequirementPhrase(ts[..n], r.key, r.operator, {})
    ensures OneRequirement(ts) == Construct(r.key, r.operator, {}, ts[n..])
  {
    hide Restriction, ValidLabelKey, Construct;
    assert ts[..n][0] == ts[0];
    if r.operator == DoesNotExist {
      assert ts[..n][1] == ts[1] && ts[1..][1..] == ts[n..];
    }
  }

  lemma {:induction false} RequirementComplete(ts: Phrase, r: Requirement, n: nat)
    requires IsStream(ts) && ts[0].tok != EndOfStringToken && n < |ts| && Means(ts[..n], r) && Ends(ts[n..])
    ensures OneRequirement(ts) == Got(r, ts[n..])
  {
    hide ValuesPhrase, ValidRequirement, NoDuplicates, Construct, Restriction, ValidLabelKey, OneRequirement, IsStream;
    ValidRequirementKey(r);
    if Unary(r.operator) {
      UnaryStep(ts, n, r);
      ConstructMeans(r.key, r.operator, {}, ts[n..], r);
    } else {
      var m := n - 1;
      BinaryStep(ts);
      assert ts[n..] == ts[1..][m..] && ts[..n][2..] == ts[1..][1..m];
      RestrictionComplete(r, ts[1..], m);
    }
  }

  lemma ValidRequirementKey(r: Requirement)
    requires ValidRequirement(r)
    ensures ValidLabelKey(r.key)
  {}

  // ---- the parser accepts what the grammar derives, and nothing else ----

  lemma {:induction false} ParsedIsDerived(ts: Phrase, sel: seq<Requirement>)
    requires IsStream(ts) && Requirements(ts) == Ok(sel)
    ensures Derives(ts, sel)
    decreases |ts|
  {
    hide OneRequirement, Means;
    if ts[0].tok != EndOfStringToken {
      var one := OneRequirement(ts);
      var n := RequirementSound(ts, one.value, one.rest);
      if IsComma(ts[n]) {
        assert ts[n..][1..] == ts[n + 1..];
        var more := Requirements(ts[n + 1..]).value;
        ParsedIsDerived(ts[n + 1..], more);
        assert sel[1..] == more;
      }
      assert DerivesAt(ts, n, sel);
    }
  }

  lemma {:induction false} DerivedIsParsed(ts: Phrase, sel: seq<Requirement>)
    requires IsStream(ts) && Derives(ts, sel)
    ensures Requirements(ts) == Ok(sel)
    decreases |ts|
  {
    hide OneRequirement, Means;
    if sel != [] {
      hide Requirements;
      var n: nat :| n < |ts| && DerivesAt(ts, n, sel);
      MeansStarts(ts, n, sel[0]);
      RequirementComplete(ts, sel[0], n);
      RequirementsStep(ts, n, sel[0]);
      if IsComma(ts[n]) {
        DerivedIsParsed(ts[n + 1..], sel[1..]);
        DerivationStarts(ts[n + 1..], sel[1..]);
        assert sel == [sel[0]] + sel[1..];
      } else {
        assert sel == [sel[0]];
      }
    }
  }

  /** One turn of the parser's main loop, over the first requirement and what follows it. */
  lemma RequirementsStep(ts: Phrase, n: nat, r: Requirement)
    requires IsStream(ts) && ts[0].tok != EndOfStringToken && n < |ts| && OneRequirement(ts) == Got(r, ts[n..])
    requires StartsRequirement(TokenAt(ts))
    ensures ts[n].tok == EndOfStringToken ==> Requirements(ts) == Ok([r])
    ensures IsComma(ts[n]) ==> IsStream(ts[n + 1..])
    ensures IsComma(ts[n]) && StartsRequirement(TokenAt(ts[n + 1..])) ==>
      Requirements(ts) == Prepend([r], Requirements(ts[n + 1..]))
  {
    hide OneRequirement;
    if IsComma(ts[n]) { assert ts[n..][1..] == ts[n + 1..]; }
  }

  lemma MeansStarts(ts: Phrase, n: nat, r: Requirement)
    requires n < |ts| && Means(ts[..n], r)
    ensures StartsRequirement(TokenAt(ts)) && ts[0].tok != EndOfStringToken
  {
    hide ValuesPhrase, ValidRequirement;
    assert ts[..n] != [] && ts[..n][0] == ts[0];
  }

  lemma DerivationStarts(ts: Phrase, sel: seq<Requirement>)
    requires sel != [] && Derives(ts, sel)
    ensures ts != [] && StartsRequirement(TokenAt(ts))
  {
    var n: nat :| n < |ts| && DerivesAt(ts, n, sel);
    MeansStarts(ts, n, sel[0]);
  }

  /** The parser accepts a stream if and only if the grammar derives it, and answers with the one
    * selector derived: every item before the end marker belongs to a requirement or separates two. */
  lemma Acceptance(ts: Phrase)
    requires IsStream(ts)
    ensures Requirements(ts).Ok? <==> exists sel :: Derives(ts, sel)
    ensures forall sel :: Derives(ts, sel) <==> Requirements(ts) == Ok(sel)
  {
    hide Requirements, Derives;
    if Requirements(ts).Ok? { ParsedIsDerived(ts, Requirements(ts).value); }
    forall sel | Derives(ts, sel) ensures Requirements(ts) == Ok(sel) { DerivedIsParsed(ts, sel); }
  }
}
