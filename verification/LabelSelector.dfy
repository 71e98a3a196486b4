/** Requirements and selectors: construction, matching and printing. */
module LabelSelector {
  import opened Wrappers
  import opened LabelStrings
  import opened Decimals

  datatype Operator = DoesNotExist | Equals | DoubleEquals | In | NotEquals | NotIn | Exists | GreaterThan | LessThan

  datatype Requirement = Requirement(key: string, operator: Operator, values: seq<string>)

  datatype RequirementError =
    | InvalidKey(key: string) | EmptyValueSet | NotOneValue | UnexpectedValues | NotAnInteger(value: string)
    | InvalidValue(value: string)

  type LabelSet = map<string, string>

  predicate SetBased(op: Operator) {
    op == In || op == NotIn
  }

  predicate Unary(op: Operator) {
    op == Exists || op == DoesNotExist
  }

  function FirstInvalid(vals: seq<string>): (v: Option<string>)
    ensures v.None? <==> forall i :: 0 <= i < |vals| ==> ValidLabelValue(vals[i])
    ensures v.Some? ==> v.value in vals && !ValidLabelValue(v.value)
  {
    if vals == [] then None
    else if !ValidLabelValue(vals[0]) then Some(vals[0])
    else
      assert vals == [vals[0]] + vals[1..];
      FirstInvalid(vals[1..])
  }

  function NewRequirement(key: string, op: Operator, vals: seq<string>): (r: Result<Requirement, RequirementError>)
    ensures r.Ok? ==> r.value.key == key && r.value.operator == op && Sorted(r.value.values)
                      && multiset(r.value.values) == multiset(vals)
  {
    if !ValidLabelKey(key) then Err(InvalidKey(key))
    else if SetBased(op) && |vals| == 0 then Err(EmptyValueSet)
    else if Unary(op) && |vals| != 0 then Err(UnexpectedValues)
    else if !SetBased(op) && !Unary(op) && |vals| != 1 then Err(NotOneValue)
    else if (op == GreaterThan || op == LessThan) && ParseInt(vals[0]).None? then Err(NotAnInteger(vals[0]))
    else match FirstInvalid(vals)
      case Some(v) => Err(InvalidValue(v))
      case None => Ok(Requirement(key, op, Sort(vals)))
  }

  /** A requirement that the constructor returns. */
  predicate ValidRequirement(r: Requirement) {
    NewRequirement(r.key, r.operator, r.values) == Ok(r)
  }

  predicate ValidSelector(sel: seq<Requirement>) {
    forall i :: 0 <= i < |sel| ==> ValidRequirement(sel[i])
  }

  /** What the constructor accepts, spelled out. */
  lemma ValidRequirementMeans(r: Requirement)
    ensures ValidRequirement(r) <==>
      && ValidLabelKey(r.key)
      && (if SetBased(r.operator) then |r.values| > 0 else |r.values| == if Unary(r.operator) then 0 else 1)
      && (r.operator == GreaterThan || r.operator == LessThan ==> ParseInt(r.values[0]).Some?)
      && (forall i :: 0 <= i < |r.values| ==> ValidLabelValue(r.values[i]))
      && Sorted(r.values)
  {
    hide Sort, Leq, ValidLabelKey, ValidLabelValue, ParseInt;
    if Sorted(r.values) { SortOfSorted(r.values); }
  }

  // ---- matching ----

  predicate Matches(r: Requirement, ls: LabelSet) {
    match r.operator
    case In | Equals | DoubleEquals => r.key in ls && ls[r.key] in r.values
    case NotIn | NotEquals => r.key in ls ==> ls[r.key] !in r.values
    case Exists => r.key in ls
    case DoesNotExist => r.key !in ls
    case GreaterThan | LessThan =>
      && r.key in ls && |r.values| == 1
      && var have, want := ParseInt(ls[r.key]), ParseInt(r.values[0]);
         have.Some? && want.Some? &&
         if r.operator == GreaterThan then have.value > want.value else have.value < want.value
  }

  predicate SelectorMatches(sel: seq<Requirement>, ls: LabelSet) {
    forall i :: 0 <= i < |sel| ==> Matches(sel[i], ls)
  }

  /** Matching does not depend on the order in which a selector keeps its requirements. */
  lemma MatchesIgnoresOrder(a: seq<Requirement>, b: seq<Requirement>, ls: LabelSet)
    requires multiset(a) == multiset(b)
    ensures SelectorMatches(a, ls) == SelectorMatches(b, ls)
  {
    assert forall r :: r in a <==> r in multiset(a);
    assert forall r :: r in b <==> r in multiset(b);
    assert SelectorMatches(a, ls) <==> forall r :: r in a ==> Matches(r, ls);
    assert SelectorMatches(b, ls) <==> forall r :: r in b ==> Matches(r, ls);
  }

  /** Negated operators are complements, on every label set and so also where the key is absent. */
  lemma Complements(key: string, vals: seq<string>, ls: LabelSet)
    ensures Matches(Requirement(key, NotIn, vals), ls) <==> !Matches(Requirement(key, In, vals), ls)
    ensures Matches(Requirement(key, NotEquals, vals), ls) <==> !Matches(Requirement(key, Equals, vals), ls)
    ensures Matches(Requirement(key, NotEquals, vals), ls) <==> !Matches(Requirement(key, DoubleEquals, vals), ls)
    ensures Matches(Requirement(key, DoesNotExist, vals), ls) <==> !Matches(Requirement(key, Exists, vals), ls)
  {}

  predicate Positive(op: Operator) {
    op != NotIn && op != NotEquals && op != DoesNotExist
  }

  /** The operators that are not negated ask for the key, and Exists for nothing else. */
  lemma PositiveNeedsKey(r: Requirement, ls: LabelSet)
    ensures Positive(r.operator) && Matches(r, ls) ==> r.key in ls
    ensures r.operator == Exists && r.key in ls ==> Matches(r, ls)
  {}

  /** In is a disjunction of Equals over its values; Equals asks for the label to be that value. */
  lemma InIsAnyEquals(key: string, vals: seq<string>, v: string, ls: LabelSet)
    ensures Matches(Requirement(key, In, vals), ls) <==>
      exists i :: 0 <= i < |vals| && Matches(Requirement(key, Equals, [vals[i]]), ls)
    ensures Matches(Requirement(key, In, [v]), ls) <==> Matches(Requirement(key, Equals, [v]), ls)
    ensures Matches(Requirement(key, DoubleEquals, [v]), ls) <==> Matches(Requirement(key, Equals, [v]), ls)
    ensures Matches(Requirement(key, Equals, [v]), ls) <==> key in ls && ls[key] == v
  {
    if Matches(Requirement(key, In, vals), ls) {
      var i :| 0 <= i < |vals| && vals[i] == ls[key];
      assert Matches(Requirement(key, Equals, [vals[i]]), ls);
    }
  }

  /** Two integers are in exactly one of the orders that the operators test; anything else is in none. */
  lemma Trichotomy(key: string, want: string, ls: LabelSet)
    requires key in ls
    ensures
      var above, below :=
        Matches(Requirement(key, GreaterThan, [want]), ls), Matches(Requirement(key, LessThan, [want]), ls);
      var a, b := ParseInt(ls[key]), ParseInt(want);
      if a.Some? && b.Some? then
        (above && !below && a != b) || (below && !above && a != b) || (a == b && !above && !below)
      else !above && !below
  {}

  /** A written integer is compared as that integer. */
  lemma ComparesNumbers(key: string, have: int, want: int, ls: LabelSet)
    requires Int64(have) && Int64(want)
    ensures Matches(Requirement(key, GreaterThan, [Decimal(want)]), ls[key := Decimal(have)]) <==> have > want
    ensures Matches(Requirement(key, LessThan, [Decimal(want)]), ls[key := Decimal(have)]) <==> have < want
  {
    hide ParseInt, Decimal;
    ParseDecimal(have);
    ParseDecimal(want);
  }

  /** A requirement looks at the label of its key only. */
  lemma MatchesLooksAtKey(r: Requirement, ls: LabelSet, ls': LabelSet)
    requires r.key in ls <==> r.key in ls'
    requires r.key in ls ==> ls[r.key] == ls'[r.key]
    ensures Matches(r, ls) <==> Matches(r, ls')
  {}

  /** A selector is the conjunction of its requirements, and the empty one selects everything. */
  lemma SelectorIsConjunction(a: seq<Requirement>, b: seq<Requirement>, r: Requirement, ls: LabelSet)
    ensures SelectorMatches([], ls)
    ensures SelectorMatches([r], ls) <==> Matches(r, ls)
    ensures SelectorMatches(a + b, ls) <==> SelectorMatches(a, ls) && SelectorMatches(b, ls)
  {
    assert [r][0] == r;
    if SelectorMatches(a + b, ls) {
      forall i | 0 <= i < |a| ensures Matches(a[i], ls) { assert a[i] == (a + b)[i]; }
      forall i | 0 <= i < |b| ensures Matches(b[i], ls) { assert b[i] == (a + b)[|a| + i]; }
    }
  }

  // ---- printing ----

  function Join(parts: seq<string>): string {
    if parts == [] then "" else if |parts| == 1 then parts[0] else parts[0] + "," + Join(parts[1..])
  }

  function OperatorString(op: Operator): string {
    match op
    case Equals => "="
    case DoubleEquals => "=="
    case NotEquals => "!="
    case In => " in "
    case NotIn => " notin "
    case GreaterThan => ">"
    case LessThan => "<"
    case Exists | DoesNotExist => ""
  }

  function RequirementString(r: Requirement): string {
    if r.operator == DoesNotExist then "!" + r.key
    else if r.operator == Exists then r.key
    else if SetBased(r.operator) then r.key + OperatorString(r.operator) + "(" + Join(r.values) + ")"
    else r.key + OperatorString(r.operator) + Join(r.values)
  }

  function RequirementStrings(sel: seq<Requirement>): seq<string> {
    if sel == [] then [] else [RequirementString(sel[0])] + RequirementStrings(sel[1..])
  }

  function SelectorString(sel: seq<Requirement>): string {
    Join(RequirementStrings(sel))
  }
}
