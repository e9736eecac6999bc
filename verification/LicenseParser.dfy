/**
 The licence-expression checker of the source SBOM generator: a tokenizer driven by
 one regular expression and a recursive-descent parser that evaluates as it goes
 (Annex D of SPDX 2.3: WITH binds tighter than AND, AND tighter than OR).
 */
module LicenseParser {
  import opened Prelude

  const ALLOWED_LICENSES: set<string> := {
    "0BSD", "Apache-2.0", "BSD-1-Clause", "BSD-2-Clause", "BSD-3-Clause", "BSL-1.0", "CDLA-Permissive-2.0",
    "ISC", "MIT", "MPL-2.0", "Unicode-3.0", "Unlicense", "Zlib"}
  const ALLOWED_EXCEPTIONS: set<string> := {"LLVM-exception"}

  type Tokens = seq<string>

  predicate Reserved(token: string) {
    token == "AND" || token == "OR" || token == "WITH" || token == ")"
  }

  predicate StartsWith(ts: Tokens, token: string) {
    ts != [] && ts[0] == token
  }

  // ----- the parser as functions on the tokens still to be read -----

  datatype Parsed = Error | Parsed(approved: bool, rest: Tokens)

  function Primary(ts: Tokens): (r: Parsed)
    ensures r.Parsed? ==> |r.rest| < |ts|
    decreases |ts|, 0
  {
    if StartsWith(ts, "(") then
      var inner := Disjunction(ts[1..]);
      if inner.Error? || !StartsWith(inner.rest, ")") then Error else Parsed(inner.approved, inner.rest[1..])
    else if ts == [] || Reserved(ts[0]) then Error
    else
      var approved := ts[0] in ALLOWED_LICENSES;
      if !StartsWith(ts[1..], "WITH") then Parsed(approved, ts[1..])
      else if |ts| == 2 then Error
      else Parsed(approved && ts[2] in ALLOWED_EXCEPTIONS, ts[3..])
  }

  function Conjunction(ts: Tokens): (r: Parsed)
    ensures r.Parsed? ==> |r.rest| < |ts|
    decreases |ts|, 2
  {
    var first := Primary(ts);
    if first.Error? then Error else MoreConjuncts(first.rest, first.approved)
  }

  function MoreConjuncts(ts: Tokens, approved: bool): (r: Parsed)
    ensures r.Parsed? ==> |r.rest| <= |ts|
    decreases |ts|, 1
  {
    if !StartsWith(ts, "AND") then Parsed(approved, ts)
    else
      var next := Primary(ts[1..]);
      if next.Error? then Error else MoreConjuncts(next.rest, approved && next.approved)
  }

  function Disjunction(ts: Tokens): (r: Parsed)
    ensures r.Parsed? ==> |r.rest| < |ts|
    decreases |ts|, 4
  {
    var first := Conjunction(ts);
    if first.Error? then Error else MoreDisjuncts(first.rest, first.approved)
  }

  function MoreDisjuncts(ts: Tokens, approved: bool): (r: Parsed)
    ensures r.Parsed? ==> |r.rest| <= |ts|
    decreases |ts|, 3
  {
    if !StartsWith(ts, "OR") then Parsed(approved, ts)
    else
      var next := Conjunction(ts[1..]);
      if next.Error? then Error else MoreDisjuncts(next.rest, approved || next.approved)
  }

  /** The whole token list must be used up. */
  function Parse(ts: Tokens): Option<bool> {
    var r := Disjunction(ts);
    if r.Parsed? && r.rest == [] then Some(r.approved) else None
  }

  /** No expression is empty or begins with an operator or a closing parenthesis; a name alone is worth whether it is listed. */
  lemma {:induction false} NamesAreWanted(op: string, ts: Tokens, id: string)
    requires op in {"AND", "OR", "WITH", ")"} && id !in {"AND", "OR", "WITH", ")", "("}
    ensures Parse([]) == None && Parse([op] + ts) == None && Parse(["("]) == None
    ensures Parse([id]) == Some(id in ALLOWED_LICENSES) && Parse([id, "WITH"]) == None
  {
    assert ([op] + ts)[0] == op;
    assert Primary([op] + ts).Error?;
    assert Conjunction([op] + ts).Error?;
    assert ["("][1..] == [] && Disjunction([]).Error?;
    assert !StartsWith([id], "(") && [id][1..] == [];
    assert Primary([id]) == Parsed(id in ALLOWED_LICENSES, []);
    assert Conjunction([id]) == MoreConjuncts([], id in ALLOWED_LICENSES);
    assert Disjunction([id]) == MoreDisjuncts([], id in ALLOWED_LICENSES);
    var open := [id, "WITH"];
    assert !StartsWith(open, "(") && open[1..] == ["WITH"];
    assert Primary(open).Error?;
    assert Conjunction(open).Error?;
  }

  /** The parser object: a token list and a position that its methods advance. */
  class Parser {
    const tokens: Tokens
    var position: nat

    constructor (tokens: Tokens)
      ensures this.tokens == tokens && position == 0
    {
      this.tokens, position := tokens, 0;
    }

    ghost predicate Valid()
      reads this
    {
      position <= |tokens|
    }

    ghost function Rest(): Tokens
      requires Valid()
      reads this
    {
      tokens[position..]
    }

    /** The outcome of a method agrees with a result on the tokens that were left before. */
    ghost predicate Agrees(r: Option<bool>, p: Parsed)
      reads this
    {
      Valid() && if p.Error? then r == None else r == Some(p.approved) && Rest() == p.rest
    }

    method Accept(token: string) returns (ok: bool)
      requires Valid()
      modifies this`position
      ensures Valid() && ok == StartsWith(old(Rest()), token)
      ensures position == old(position) + if ok then 1 else 0
    {
      ok := position < |tokens| && tokens[position] == token;
      if ok { position := position + 1; }
    }

    method ParseAll() returns (r: Option<bool>)
      requires Valid() && position == 0
      modifies this`position
      ensures r == Parse(tokens)
    {
      assert tokens[0..] == tokens;
      r := ParseOr();
      if r.Some? && position != |tokens| {
        return None;
      }
    }

    method ParseOr() returns (r: Option<bool>)
      requires Valid()
      modifies this`position
      ensures Agrees(r, Disjunction(old(Rest())))
      decreases |tokens| - position, 4
    {
      ghost var goal := Disjunction(Rest());
      r := ParseAnd();
      if r.None? {
        return;
      }
      while true
        invariant Valid() && r.Some? && old(position) < position
        invariant goal == MoreDisjuncts(Rest(), r.value)
        decreases |tokens| - position
      {
        ghost var before := Rest();
        var more := Accept("OR");
        if !more {
          return;
        }
        assert Rest() == before[1..];
        var alternative := ParseAnd();
        if alternative.None? {
          return None;
        }
        r := Some(r.value || alternative.value);
      }
    }

    method ParseAnd() returns (r: Option<bool>)
      requires Valid()
      modifies this`position
      ensures Agrees(r, Conjunction(old(Rest()))) && (r.Some? ==> position > old(position))
      decreases |tokens| - position, 2
    {
      ghost var goal := Conjunction(Rest());
      r := ParsePrimary();
      if r.None? {
        return;
      }
      while true
        invariant Valid() && r.Some? && old(position) < position
        invariant goal == MoreConjuncts(Rest(), r.value)
        decreases |tokens| - position
      {
        ghost var before := Rest();
        var more := Accept("AND");
        if !more {
          return;
        }
        assert Rest() == before[1..];
        var required := ParsePrimary();
        if required.None? {
          return None;
        }
        r := Some(r.value && required.value);
      }
    }

    method ParsePrimary() returns (r: Option<bool>)
      requires Valid()
      modifies this`position
      ensures Agrees(r, Primary(old(Rest()))) && (r.Some? ==> position > old(position))
      decreases |tokens| - position, 0
    {
      var grouped := Accept("(");
      if grouped {
        r := ParseOr();
        if r.Some? {
          var closed := Accept(")");
          if !closed {
            return None;
          }
        }
        return;
      }
      if position >= |tokens| {
        return None;
      }
      var identifier := tokens[position];
      position := position + 1;
      if Reserved(identifier) {
        return None;
      }
      var approved := identifier in ALLOWED_LICENSES;
      var with := Accept("WITH");
      if with {
        if position >= |tokens| {
          return None;
        }
        approved := approved && tokens[position] in ALLOWED_EXCEPTIONS;
        position := position + 1;
      }
      return Some(approved);
    }
  }

  // ----- expression trees -----

  datatype Expr =
    | License(id: string)
    | With(id: string, exception: string)
    | And(left: Expr, right: Expr)
    | Or(left: Expr, right: Expr)
    | Group(inner: Expr)

  function Value(e: Expr): bool {
    match e
    case License(id) => id in ALLOWED_LICENSES
    case With(id, exception) => id in ALLOWED_LICENSES && exception in ALLOWED_EXCEPTIONS
    case And(l, r) => Value(l) && Value(r)
    case Or(l, r) => Value(l) || Value(r)
    case Group(inner) => Value(inner)
  }

  function Written(e: Expr): (ts: Tokens)
    ensures |ts| > 0
  {
    match e
    case License(id) => [id]
    case With(id, exception) => [id, "WITH", exception]
    case And(l, r) => Written(l) + ["AND"] + Written(r)
    case Or(l, r) => Written(l) + ["OR"] + Written(r)
    case Group(inner) => ["("] + Written(inner) + [")"]
  }

  /** Identifiers are not operators or parentheses; an exception may be any token, as the parser allows. */
  predicate Ordinary(e: Expr) {
    match e
    case License(id) => !Reserved(id) && id != "("
    case With(id, _) => !Reserved(id) && id != "("
    case And(l, r) => Ordinary(l) && Ordinary(r)
    case Or(l, r) => Ordinary(l) && Ordinary(r)
    case Group(inner) => Ordinary(inner)
  }

  predicate Tight(e: Expr)
    decreases e, 0
  {
    match e
    case And(_, _) => false
    case Or(_, _) => false
    case Group(inner) => Readable(inner)
    case _ => true
  }

  predicate Conjunct(e: Expr)
    decreases e, 1
  {
    match e
    case And(l, r) => Conjunct(l) && Tight(r)
    case Or(_, _) => false
    case _ => Tight(e)
  }

  /** A tree whose written form shows its structure under the precedence rules. */
  predicate Readable(e: Expr)
    decreases e, 2
  {
    match e
    case Or(l, r) => Readable(l) && Conjunct(r)
    case _ => Conjunct(e)
  }

  function AsTight(e: Expr): (r: Expr)
    requires Readable(e)
    ensures Tight(r) && Value(r) == Value(e) && (Ordinary(e) ==> Ordinary(r))
  {
    if Tight(e) then e else Group(e)
  }

  function AsConjunct(e: Expr): (r: Expr)
    requires Readable(e)
    ensures Conjunct(r) && Value(r) == Value(e) && (Ordinary(e) ==> Ordinary(r))
  {
    if Conjunct(e) then e else assert Tight(Group(e)); Group(e)
  }

  /** A tree with parentheses exactly where precedence needs them. */
  function Parenthesized(e: Expr): (r: Expr)
    ensures Readable(r) && Value(r) == Value(e) && (Ordinary(e) ==> Ordinary(r))
  {
    match e
    case And(l, r) =>
      var l', r' := Parenthesized(l), Parenthesized(r);
      And(AsConjunct(l'), AsTight(r'))
    case Or(l, r) =>
      var l', r' := Parenthesized(l), Parenthesized(r);
      Or(l', AsConjunct(r'))
    case Group(inner) => Parenthesized(inner)
    case _ => e
  }

  // ----- every readable tree is parsed to its value -----

  lemma {:induction false} ReadsPrimary(e: Expr, rest: Tokens)
    requires Tight(e) && Ordinary(e) && !StartsWith(rest, "WITH")
    ensures Primary(Written(e) + rest) == Parsed(Value(e), rest)
    decreases e, 0
  {
    match e
    case License(id) =>
      assert (Written(e) + rest)[1..] == rest;
    case With(id, exception) =>
      assert (Written(e) + rest)[3..] == rest;
    case Group(inner) =>
      var ts := Written(e) + rest;
      assert ts[1..] == Written(inner) + ([")"] + rest);
      ReadsDisjunction(inner, [")"] + rest);
      assert ([")"] + rest)[1..] == rest;
  }

  lemma {:induction false} ReadsConjunction(e: Expr, rest: Tokens)
    requires Conjunct(e) && Ordinary(e) && !StartsWith(rest, "WITH")
    ensures Conjunction(Written(e) + rest) == MoreConjuncts(rest, Value(e))
    decreases e, 1
  {
    if e.And? {
      var tail := ["AND"] + (Written(e.right) + rest);
      assert Written(e) + rest == Written(e.left) + tail;
      ReadsConjunction(e.left, tail);
      assert tail[1..] == Written(e.right) + rest;
      ReadsPrimary(e.right, rest);
    } else {
      ReadsPrimary(e, rest);
    }
  }

  lemma {:induction false} ReadsDisjunction(e: Expr, rest: Tokens)
    requires Readable(e) && Ordinary(e) && !StartsWith(rest, "WITH") && !StartsWith(rest, "AND")
    ensures Disjunction(Written(e) + rest) == MoreDisjuncts(rest, Value(e))
    decreases e, 2
  {
    if e.Or? {
      var tail := ["OR"] + (Written(e.right) + rest);
      assert Written(e) + rest == Written(e.left) + tail;
      ReadsDisjunction(e.left, tail);
      assert tail[1..] == Written(e.right) + rest;
      ReadsConjunction(e.right, rest);
    } else {
      ReadsConjunction(e, rest);
    }
  }

  // ----- everything parsed is a readable tree -----

  lemma {:induction false} PrimaryIsTree(ts: Tokens) returns (e: Expr)
    requires Primary(ts).Parsed?
    ensures Tight(e) && Ordinary(e) && Value(e) == Primary(ts).approved && ts == Written(e) + Primary(ts).rest
    decreases |ts|, 0
  {
    if ts[0] == "(" {
      var inner := DisjunctionIsTree(ts[1..]);
      e := Group(inner);
      Enclosed(ts, Written(inner), Disjunction(ts[1..]).rest);
    } else if StartsWith(ts[1..], "WITH") {
      e := With(ts[0], ts[2]);
    } else {
      e := License(ts[0]);
    }
  }

  lemma {:induction false} Enclosed(ts: Tokens, inner: Tokens, rest: Tokens)
    requires ts != [] && ts[0] == "(" && ts[1..] == inner + rest && rest != [] && rest[0] == ")"
    ensures ts == ["("] + inner + [")"] + rest[1..]
  {
    assert rest == [")"] + rest[1..];
    assert ts == ["("] + ts[1..];
  }

  lemma {:induction false} ConjunctionIsTree(ts: Tokens) returns (e: Expr)
    requires Conjunction(ts).Parsed?
    ensures Conjunct(e) && Ordinary(e) && Value(e) == Conjunction(ts).approved && ts == Written(e) + Conjunction(ts).rest
    decreases |ts|, 2
  {
    var first := PrimaryIsTree(ts);
    e := ConjunctsAreTree(first, Primary(ts).rest);
  }

  lemma {:induction false} ConjunctsAreTree(left: Expr, ts: Tokens) returns (e: Expr)
    requires Conjunct(left) && Ordinary(left) && MoreConjuncts(ts, Value(left)).Parsed?
    ensures var r := MoreConjuncts(ts, Value(left));
      Conjunct(e) && Ordinary(e) && Value(e) == r.approved && Written(left) + ts == Written(e) + r.rest
    decreases |ts|, 1
  {
    e := left;
    if StartsWith(ts, "AND") {
      var right := PrimaryIsTree(ts[1..]);
      var rest := Primary(ts[1..]).rest;
      e := ConjunctsAreTree(And(left, right), rest);
      Infix(Written(left), "AND", Written(right), rest, ts);
    }
  }

  lemma {:induction false} Infix(left: Tokens, operator: string, right: Tokens, rest: Tokens, ts: Tokens)
    requires StartsWith(ts, operator) && ts[1..] == right + rest
    ensures left + ts == left + [operator] + right + rest
  {
    assert ts == [operator] + ts[1..];
  }

  lemma {:induction false} DisjunctionIsTree(ts: Tokens) returns (e: Expr)
    requires Disjunction(ts).Parsed?
    ensures Readable(e) && Ordinary(e) && Value(e) == Disjunction(ts).approved && ts == Written(e) + Disjunction(ts).rest
    decreases |ts|, 4
  {
    var first := ConjunctionIsTree(ts);
    e := DisjunctsAreTree(first, Conjunction(ts).rest);
  }

  lemma {:induction false} DisjunctsAreTree(left: Expr, ts: Tokens) returns (e: Expr)
    requires Readable(left) && Ordinary(left) && MoreDisjuncts(ts, Value(left)).Parsed?
    ensures var r := MoreDisjuncts(ts, Value(left));
      Readable(e) && Ordinary(e) && Value(e) == r.approved && Written(left) + ts == Written(e) + r.rest
    decreases |ts|, 3
  {
    e := left;
    if StartsWith(ts, "OR") {
      var right := ConjunctionIsTree(ts[1..]);
      var rest := Conjunction(ts[1..]).rest;
      e := DisjunctsAreTree(Or(left, right), rest);
      Infix(Written(left), "OR", Written(right), rest, ts);
    }
  }

  /** The parser accepts exactly the written forms of readable trees, and returns the tree's value. */
  lemma {:induction false} ParserDecidesGrammar(ts: Tokens, approved: bool)
    ensures Parse(ts) == Some(approved) <==>
      exists e :: Readable(e) && Ordinary(e) && Written(e) == ts && Value(e) == approved
  {
    if Parse(ts) == Some(approved) {
      var e := DisjunctionIsTree(ts);
      assert Written(e) + [] == Written(e);
    }
    forall e | Readable(e) && Ordinary(e) && Written(e) == ts ensures Parse(ts) == Some(Value(e)) {
      ReadsDisjunction(e, []);
      assert Written(e) + [] == Written(e);
    }
  }

  /** Every expression over ordinary identifiers, written with the parentheses it needs, evaluates to its value. */
  lemma {:induction false} EveryExpressionEvaluates(e: Expr)
    requires Ordinary(e)
    ensures Parse(Written(Parenthesized(e))) == Some(Value(e))
  {
    ParserDecidesGrammar(Written(Parenthesized(e)), Value(e));
  }

  // ----- no fewer parentheses would do -----

  /** How many pairs of parentheses the written form has. */
  function Groups(e: Expr): nat {
    match e
    case And(l, r) => Groups(l) + Groups(r)
    case Or(l, r) => Groups(l) + Groups(r)
    case Group(inner) => 1 + Groups(inner)
    case _ => 0
  }

  /** The structure without its parentheses. */
  function Stripped(e: Expr): Expr {
    match e
    case And(l, r) => And(Stripped(l), Stripped(r))
    case Or(l, r) => Or(Stripped(l), Stripped(r))
    case Group(inner) => Stripped(inner)
    case _ => e
  }

  lemma {:induction false} OnlyStructureCounts(e: Expr)
    ensures Parenthesized(Stripped(e)) == Parenthesized(e) && Stripped(Parenthesized(e)) == Stripped(e)
  {
    match e
    case And(l, r) => OnlyStructureCounts(l); OnlyStructureCounts(r);
    case Or(l, r) => OnlyStructureCounts(l); OnlyStructureCounts(r);
    case Group(inner) => OnlyStructureCounts(inner);
    case _ =>
  }

  lemma {:induction false} NoMoreGroups(e: Expr)
    requires Readable(e)
    ensures Groups(Parenthesized(e)) <= Groups(e)
    ensures Conjunct(e) ==> Groups(AsConjunct(Parenthesized(e))) <= Groups(e)
    ensures Tight(e) ==> Groups(AsTight(Parenthesized(e))) <= Groups(e)
  {
    match e
    case And(l, r) =>
      assert Conjunct(l) && Tight(r);
      TightIsReadable(r);
      ConjunctIsReadable(l);
      NoMoreGroups(l);
      NoMoreGroups(r);
    case Or(l, r) =>
      ConjunctIsReadable(r);
      NoMoreGroups(l);
      NoMoreGroups(r);
    case Group(inner) =>
      assert Tight(e);
      NoMoreGroups(inner);
    case _ =>
  }

  lemma {:induction false} ConjunctIsReadable(e: Expr)
    requires Conjunct(e)
    ensures Readable(e)
  {
  }

  lemma {:induction false} TightIsReadable(e: Expr)
    requires Tight(e)
    ensures Conjunct(e) && Readable(e)
  {
    match e
    case Group(inner) => assert Conjunct(e);
    case _ =>
  }

  /** Any readable writing of the same structure has at least as many parentheses. */
  lemma {:induction false} FewestParentheses(e: Expr, other: Expr)
    requires Readable(other) && Stripped(other) == Stripped(e)
    ensures Stripped(Parenthesized(e)) == Stripped(e) && Groups(Parenthesized(e)) <= Groups(other)
  {
    OnlyStructureCounts(e);
    OnlyStructureCounts(other);
    NoMoreGroups(other);
  }

  // ----- the tokenizer -----

  /** What the pattern's whitespace class matches in text, beyond ASCII too. */
  predicate IsSpace(c: char) {
    var n := c as int;
    || 0x09 <= n <= 0x0D || 0x1C <= n <= 0x20 || n == 0x85 || n == 0xA0 || n == 0x1680 || 0x2000 <= n <= 0x200A
    || n == 0x2028 || n == 0x2029 || n == 0x202F || n == 0x205F || n == 0x3000
  }

  predicate IsIdentifierChar(c: char) {
    'A' <= c <= 'Z' || 'a' <= c <= 'z' || '0' <= c <= '9' || c == '.' || c == '+' || c == '-'
  }

  predicate IsIdentifier(s: string) {
    s != "" && forall i :: 0 <= i < |s| ==> IsIdentifierChar(s[i])
  }

  function SkipSpaces(s: string): (r: string)
    ensures |r| <= |s|
  {
    if s != "" && IsSpace(s[0]) then SkipSpaces(s[1..]) else s
  }

  function IdentifierLength(s: string): (n: nat)
    ensures n <= |s|
  {
    if s != "" && IsIdentifierChar(s[0]) then 1 + IdentifierLength(s[1..]) else 0
  }

  /** The first alternative of the expression that matches, tried in the order in which it lists them. */
  function TokenLength(s: string): (n: nat)
    ensures n <= |s|
  {
    if "AND" <= s then 3 else if "OR" <= s then 2 else if "WITH" <= s then 4
    else if "(" <= s || ")" <= s then 1 else IdentifierLength(s)
  }

  function Tokenize(s: string): Option<Tokens>
    decreases |s|
  {
    if s == "" then Some([])
    else
      var t := SkipSpaces(s);
      var n := TokenLength(t);
      if n == 0 then None
      else
        var rest := Tokenize(t[n..]);
        if rest.None? then None else Some([t[..n]] + rest.value)
  }

  /** The loop of the original: a position in the expression and the tokens matched so far. */
  method TokenizeExpression(expression: string) returns (tokens: Option<Tokens>)
    ensures tokens == if expression == "" then None else Tokenize(expression)
  {
    var found: Tokens := [];
    var rest := expression;
    ghost var goal := Tokenize(expression);
    if goal.Some? { assert [] + goal.value == goal.value; }
    while rest != ""
      invariant goal == (var more := Tokenize(rest); if more.None? then None else Some(found + more.value))
      invariant found == [] ==> rest == expression
      decreases |rest|
    {
      var t := SkipSpaces(rest);
      var n := TokenLength(t);
      if n == 0 {
        return None;
      }
      ghost var more := Tokenize(t[n..]);
      if more.Some? { assert found + ([t[..n]] + more.value) == found + [t[..n]] + more.value; }
      found := found + [t[..n]];
      rest := t[n..];
    }
    if found == [] {
      return None;
    }
    assert found + [] == found;
    return Some(found);
  }

  predicate IsOperator(token: string) {
    token == "AND" || token == "OR" || token == "WITH" || token == "(" || token == ")"
  }

  predicate HasOperatorPrefix(token: string) {
    "AND" <= token || "OR" <= token || "WITH" <= token
  }

  /** Tokens separated by single spaces. */
  function Spaced(ts: Tokens): string {
    if ts == [] then "" else if |ts| == 1 then ts[0] else ts[0] + " " + Spaced(ts[1..])
  }

  /** An identifier is read to its end, unless it begins with the letters of an operator. */
  lemma {:induction false} IdentifierEnds(t: string, rest: string)
    requires IsIdentifier(t) && (rest == "" || rest[0] == ' ')
    ensures IdentifierLength(t + rest) == |t|
    decreases |t|
  {
    assert (t + rest)[1..] == t[1..] + rest;
    if |t| > 1 {
      IdentifierEnds(t[1..], rest);
    } else {
      assert t[1..] + rest == rest;
    }
  }

  lemma {:induction false} FirstToken(t: string, rest: string)
    requires IsOperator(t) || IsIdentifier(t)
    requires rest == "" || rest[0] == ' '
    ensures 0 < TokenLength(t + rest)
    ensures TokenLength(t + rest) == |t| <==> IsOperator(t) || !HasOperatorPrefix(t)
    ensures TokenLength(t + rest) <= |t| && SkipSpaces(t + rest) == t + rest
  {
    var s := t + rest;
    assert s[0] == t[0] && !IsSpace(t[0]);
    Prefixes(t, rest, "AND");
    Prefixes(t, rest, "OR");
    Prefixes(t, rest, "WITH");
    Prefixes(t, rest, "(");
    Prefixes(t, rest, ")");
    if IsIdentifier(t) {
      IdentifierEnds(t, rest);
      PlainLength(t);
    }
  }

  /** A token is at least as long as an operator it starts with; as long only if it is that operator. */
  lemma {:induction false} PlainLength(t: string)
    requires IsIdentifier(t)
    ensures "AND" <= t ==> |t| >= 3 && (|t| == 3 ==> t == "AND")
    ensures "OR" <= t ==> |t| >= 2 && (|t| == 2 ==> t == "OR")
    ensures "WITH" <= t ==> |t| >= 4 && (|t| == 4 ==> t == "WITH")
    ensures !("(" <= t) && !(")" <= t)
  {
    assert IsIdentifierChar(t[0]);
  }

  /** A word without spaces starts the text exactly when it starts the first token. */
  lemma {:induction false} Prefixes(t: string, rest: string, word: string)
    requires rest == "" || rest[0] == ' '
    requires forall i :: 0 <= i < |word| ==> word[i] != ' '
    ensures word <= t + rest <==> word <= t
  {
    var s := t + rest;
    assert rest != "" ==> s[|t|] == ' ';
    assert forall i :: 0 <= i < |t| ==> s[i] == t[i];
  }

  /**
   Text of tokens separated by spaces is tokenized back exactly when no identifier
   starts with the letters AND, OR or WITH; such an identifier is torn apart.
   */
  lemma {:induction false} TokenizerRoundTrip(ts: Tokens)
    requires forall t :: t in ts ==> IsOperator(t) || IsIdentifier(t)
    ensures Tokenize(Spaced(ts)) == Some(ts) <==> forall t :: t in ts ==> IsOperator(t) || !HasOperatorPrefix(t)
    decreases ts
  {
    if ts != [] {
      var t, later := ts[0], ts[1..];
      assert ts == [t] + later && forall x :: x in ts <==> x == t || x in later;
      var rest := if later == [] then "" else " " + Spaced(later);
      assert Spaced(ts) == t + rest;
      FirstToken(t, rest);
      TokenizerRoundTrip(later);
      var n := TokenLength(t + rest);
      if n == |t| {
        assert (t + rest)[..n] == t && (t + rest)[n..] == rest;
        AfterSpace(later);
        TokenizeStep(t + rest, t, later);
      } else {
        TokenizeStep(t + rest, t, later);
      }
    }
  }

  lemma {:induction false} TokenizeStep(s: string, t: string, later: Tokens)
    requires s != "" && SkipSpaces(s) == s && 0 < TokenLength(s)
    ensures Tokenize(s) == Some([t] + later) <==>
      s[..TokenLength(s)] == t && Tokenize(s[TokenLength(s)..]) == Some(later)
  {
    var first, rest := s[..TokenLength(s)], Tokenize(s[TokenLength(s)..]);
    if rest.Some? {
      assert ([first] + rest.value)[0] == first && ([first] + rest.value)[1..] == rest.value;
      assert ([t] + later)[0] == t && ([t] + later)[1..] == later;
    }
  }

  lemma {:induction false} AfterSpace(ts: Tokens)
    requires forall t :: t in ts ==> IsOperator(t) || IsIdentifier(t)
    ensures Tokenize(if ts == [] then "" else " " + Spaced(ts)) == Tokenize(Spaced(ts))
  {
    if ts != [] {
      var s := " " + Spaced(ts);
      assert s[1..] == Spaced(ts);
      assert ts[0] in ts && Spaced(ts) != "" && Spaced(ts)[0] == ts[0][0];
      assert SkipSpaces(Spaced(ts)) == Spaced(ts);
    }
  }

  /** For example, a licence called ORACLE becomes the operator OR and the name ACLE. */
  lemma {:induction false} TornIdentifier()
    ensures Tokenize("ORACLE") == Some(["OR", "ACLE"])
  {
    var s, rest := "ORACLE", "ACLE";
    assert s[2..] == rest && s[..2] == "OR" && rest[..4] == "ACLE" && rest[4..] == "";
    IdentifierEnds("ACLE", "");
    assert "ACLE" + "" == "ACLE";
    assert rest[0] == 'A' && s[0] == 'O' && s[1] == 'R' && rest[1] == 'C';
    assert TokenLength(rest) == 4 && TokenLength(s) == 2;
    assert Tokenize("") == Some([]);
    assert Tokenize(rest) == Some(["ACLE"] + []);
    assert SkipSpaces(s) == s && s != "";
    assert s[TokenLength(s)..] == rest && s[..TokenLength(s)] == "OR" && ["ACLE"] + [] == ["ACLE"];
    TokenizeStep(s, "OR", ["ACLE"]);
    assert ["OR"] + ["ACLE"] == ["OR", "ACLE"];
  }
}
