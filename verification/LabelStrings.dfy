/** Character classes, string order and the name syntax behind label keys and values.
  * Go strings are byte sequences; here a `char` stands for one byte.  Nothing below depends on
  * the value of a byte that is not a special symbol, white space, NUL or an ASCII name character,
  * so every statement covers all byte strings. */
module LabelStrings {
  import opened Wrappers

  const NUL: char := '\0'

  predicate IsWhitespace(c: char) {
    c == ' ' || c == '\t' || c == '\r' || c == '\n'
  }

  predicate IsSpecialSymbol(c: char) {
    c == '=' || c == '!' || c == '(' || c == ')' || c == ',' || c == '>' || c == '<'
  }

  /** A byte that the lexer keeps inside an identifier. */
  predicate IsPlain(c: char) {
    !IsWhitespace(c) && !IsSpecialSymbol(c) && c != NUL
  }

  predicate AllPlain(s: string) {
    forall i :: 0 <= i < |s| ==> IsPlain(s[i])
  }

  // ---- names: IsQualifiedName and IsValidLabelValue ----

  predicate IsLowerAlnum(c: char) {
    'a' <= c <= 'z' || '0' <= c <= '9'
  }

  predicate IsAlnum(c: char) {
    IsLowerAlnum(c) || 'A' <= c <= 'Z'
  }

  /** ([A-Za-z0-9][-A-Za-z0-9_.]*)?[A-Za-z0-9] */
  predicate IsNamePart(s: string) {
    && 0 < |s|
    && IsAlnum(s[0]) && IsAlnum(s[|s| - 1])
    && forall i :: 0 <= i < |s| ==> IsAlnum(s[i]) || s[i] == '-' || s[i] == '_' || s[i] == '.'
  }

  /** [a-z0-9]([-a-z0-9]*[a-z0-9])?(\.[a-z0-9]([-a-z0-9]*[a-z0-9])?)*: every dot and both ends have
    * a letter or digit next to them. */
  predicate IsSubdomain(s: string) {
    && 0 < |s|
    && IsLowerAlnum(s[0]) && IsLowerAlnum(s[|s| - 1])
    && (forall i :: 0 <= i < |s| ==> IsLowerAlnum(s[i]) || s[i] == '-' || s[i] == '.')
    && (forall i :: 0 < i < |s| - 1 && s[i] == '.' ==> IsLowerAlnum(s[i - 1]) && IsLowerAlnum(s[i + 1]))
  }

  predicate ValidKeyName(s: string) {
    |s| <= 63 && IsNamePart(s)
  }

  /** validateLabelKey: NAME, or SUBDOMAIN "/" NAME. */
  predicate ValidLabelKey(k: string) {
    || ValidKeyName(k)
    || exists i :: 0 <= i < |k| && k[i] == '/' && i <= 253 && IsSubdomain(k[..i]) && ValidKeyName(k[i + 1..])
  }

  /** validateLabelValue */
  predicate ValidLabelValue(v: string) {
    |v| <= 63 && (v == "" || IsNamePart(v))
  }

  /** Names of letters and digits only are limited by their length alone. */
  lemma AlnumNames(s: string)
    requires forall i :: 0 <= i < |s| ==> IsAlnum(s[i])
    ensures ValidLabelKey(s) <==> 1 <= |s| <= 63
    ensures ValidLabelValue(s) <==> |s| <= 63
  {
    assert forall i :: 0 <= i < |s| ==> s[i] != '/';
  }

  /** Two names may be joined by one of the three punctuation marks and by nothing else. */
  lemma JoinedNames(a: string, c: char, b: string)
    requires IsNamePart(a) && IsNamePart(b) && !IsAlnum(c)
    ensures IsNamePart(a + [c] + b) <==> c == '-' || c == '_' || c == '.'
    ensures !IsNamePart(a + [c]) && !IsNamePart([c] + b)
  {
    var s := a + [c] + b;
    assert s[|a|] == c && s[0] == a[0] && s[|s| - 1] == b[|b| - 1];
    assert forall i :: 0 <= i < |a| ==> s[i] == a[i];
    assert forall i :: |a| < i < |s| ==> s[i] == b[i - |a| - 1];
    assert (a + [c])[|a|] == c && ([c] + b)[0] == c;
  }

  lemma NoSlashInName(s: string)
    ensures IsNamePart(s) ==> s != "" && '/' !in s
    ensures IsSubdomain(s) ==> s != ""
  {}

  /** A key with a slash is a prefix and a name, and there is one way to split it. */
  lemma PrefixedKeys(prefix: string, name: string)
    requires '/' !in prefix && '/' !in name
    ensures ValidLabelKey(prefix + "/" + name) <==>
      1 <= |prefix| <= 253 && IsSubdomain(prefix) && 1 <= |name| <= 63 && IsNamePart(name)
  {
    hide IsNamePart, IsSubdomain;
    var k, m := prefix + "/" + name, |prefix|;
    assert k[m] == '/' && k[..m] == prefix && k[m + 1..] == name;
    forall i | 0 <= i < |k| && k[i] == '/' ensures i == m {}
    NoSlashInName(k);
    NoSlashInName(name);
    NoSlashInName(prefix);
  }

  /** A prefix is made of parts joined by dots, each of small letters, digits and inner dashes. */
  lemma JoinedSubdomains(a: string, c: char, b: string)
    requires IsSubdomain(a) && IsSubdomain(b) && !IsLowerAlnum(c)
    ensures IsSubdomain(a + [c] + b) <==> c == '-' || c == '.'
    ensures !IsSubdomain(a + [c]) && !IsSubdomain([c] + b)
    ensures !IsSubdomain(a + ".." + b)
  {
    var s := a + [c] + b;
    assert s[|a|] == c && s[0] == a[0] && s[|s| - 1] == b[|b| - 1];
    assert forall i :: 0 <= i < |a| ==> s[i] == a[i];
    assert forall i :: |a| < i < |s| ==> s[i] == b[i - |a| - 1];
    assert (a + [c])[|a|] == c && ([c] + b)[0] == c;
    assert (a + ".." + b)[|a|] == '.' && (a + ".." + b)[|a| + 1] == '.';
  }

  lemma NamePartIsPlain(s: string)
    ensures IsNamePart(s) || IsSubdomain(s) ==> AllPlain(s)
  {}

  lemma ValidNamesArePlain(s: string)
    ensures ValidLabelKey(s) ==> s != "" && AllPlain(s)
    ensures ValidLabelValue(s) ==> AllPlain(s)
  {
    NamePartIsPlain(s);
    if ValidLabelKey(s) && !ValidKeyName(s) {
      var i :| 0 <= i < |s| && s[i] == '/' && i <= 253 && IsSubdomain(s[..i]) && ValidKeyName(s[i + 1..]);
      NamePartIsPlain(s[..i]);
      NamePartIsPlain(s[i + 1..]);
      forall j | 0 <= j < |s| ensures IsPlain(s[j]) {
        if j < i { assert s[j] == s[..i][j]; } else if j > i { assert s[j] == s[i + 1..][j - i - 1]; }
      }
    }
  }

  // ---- byte-wise string order and sorting ----

  predicate Leq(a: string, b: string) {
    if a == "" then true
    else if b == "" then false
    else a[0] < b[0] || (a[0] == b[0] && Leq(a[1..], b[1..]))
  }

  lemma {:induction false} LeqTotal(a: string, b: string)
    ensures Leq(a, b) || Leq(b, a)
    ensures Leq(a, b) && Leq(b, a) ==> a == b
  {
    if a != "" && b != "" && a[0] == b[0] {
      LeqTotal(a[1..], b[1..]);
      assert a == [a[0]] + a[1..] && b == [b[0]] + b[1..];
    }
  }

  lemma {:induction false} LeqTransitive(a: string, b: string, c: string)
    requires Leq(a, b) && Leq(b, c)
    ensures Leq(a, c)
  {
    if a != "" && a[0] == b[0] && b[0] == c[0] {
      LeqTransitive(a[1..], b[1..], c[1..]);
    }
  }

  predicate Sorted(l: seq<string>) {
    forall i, j :: 0 <= i < j < |l| ==> Leq(l[i], l[j])
  }

  predicate NoDuplicates(l: seq<string>) {
    forall i, j :: 0 <= i < j < |l| ==> l[i] != l[j]
  }

  function Elements(l: seq<string>): set<string> {
    set x | x in l
  }

  lemma SortedCons(x: string, l: seq<string>)
    requires Sorted(l) && (l != [] ==> Leq(x, l[0]))
    ensures Sorted([x] + l)
  {
    forall j | 0 <= j < |l| ensures Leq(x, l[j]) {
      if j > 0 { LeqTransitive(x, l[0], l[j]); }
    }
  }

  /** Puts `x` in front of the first element that is not smaller. */
  function Insert(x: string, l: seq<string>): (r: seq<string>)
    requires Sorted(l)
    ensures Sorted(r)
    ensures multiset(r) == multiset(l) + multiset{x}
    ensures r != [] && (r[0] == x || (l != [] && r[0] == l[0]))
  {
    if l == [] || Leq(x, l[0]) then
      SortedCons(x, l);
      [x] + l
    else
      LeqTotal(x, l[0]);
      var t := Insert(x, l[1..]);
      assert l == [l[0]] + l[1..];
      SortedCons(l[0], t);
      [l[0]] + t
  }

  /** sort.Strings */
  function Sort(l: seq<string>): (r: seq<string>)
    ensures Sorted(r)
    ensures multiset(r) == multiset(l)
  {
    if l == [] then [] else
      assert l == [l[0]] + l[1..];
      Insert(l[0], Sort(l[1..]))
  }

  lemma {:induction false} SortOfSorted(l: seq<string>)
    requires Sorted(l)
    ensures Sort(l) == l
  {
    if l != [] {
      SortOfSorted(l[1..]);
      assert l == [l[0]] + l[1..];
    }
  }

  lemma NoElements(l: seq<string>)
    ensures Elements(l) == {} <==> l == []
  {
    if l != [] { assert l[0] in Elements(l); }
  }

  /** A sorted list without duplicates is determined by its elements. */
  lemma {:induction false} SortedUnique(a: seq<string>, b: seq<string>)
    requires Sorted(a) && NoDuplicates(a) && Sorted(b) && NoDuplicates(b)
    requires Elements(a) == Elements(b)
    ensures a == b
  {
    if a == [] {
      NoElements(b);
    } else {
      assert a[0] in Elements(b);
      assert b[0] in Elements(a);
      assert a[0] == b[0] by { LeqTotal(a[0], b[0]); }
      assert Elements(a[1..]) == Elements(a) - {a[0]};
      assert Elements(b[1..]) == Elements(b) - {b[0]};
      SortedUnique(a[1..], b[1..]);
      assert a == [a[0]] + a[1..] && b == [b[0]] + b[1..];
    }
  }

  predicate IsLeast(m: string, s: set<string>) {
    m in s && forall y :: y in s ==> Leq(m, y)
  }

  lemma {:induction false} LeastExists(s: set<string>) returns (m: string)
    requires s != {}
    ensures IsLeast(m, s)
  {
    var x :| x in s;
    LeqTotal(x, x);
    if s == {x} {
      m := x;
    } else {
      var n := LeastExists(s - {x});
      LeqTotal(x, n);
      if Leq(x, n) {
        m := x;
        forall y | y in s ensures Leq(x, y) {
          if y != x { LeqTransitive(x, n, y); }
        }
      } else {
        m := n;
      }
    }
  }

  ghost function Least(s: set<string>): (m: string)
    requires s != {}
    ensures IsLeast(m, s)
  {
    assert exists m :: IsLeast(m, s) by { var m := LeastExists(s); }
    var m :| IsLeast(m, s);
    m
  }

  /** sets.String.List: the elements in order, each once. */
  ghost function List(s: set<string>): (l: seq<string>)
    ensures Sorted(l) && NoDuplicates(l)
    ensures Elements(l) == s
  {
    if s == {} then [] else
      var m := Least(s);
      var t := List(s - {m});
      assert forall y :: y in t <==> y in Elements(t);
      [m] + t
  }
}
