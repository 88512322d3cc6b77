/**
  The disjunctive-normal-form pass of the Souffle converter (tools/souffle_converter.py), on the
  parse trees of tools/souffle-grammar.pg.  A rule body has the shape of a disjunction.
 */
module Souffle {

  datatype Term = Literal(text: string) | Not(t: Term) | Paren(d: Disjunction)

  datatype Conjunction = One(t: Term) | And(t: Term, rest: Conjunction)

  datatype Disjunction = Only(c: Conjunction) | Or(c: Conjunction, rest: Disjunction)

  /** The nodes that `flatten` collects: terms other than groups, the disjunctions of groups,
      and separators. */
  datatype Node = TermNode(t: Term) | DisjNode(d: Disjunction) | Comma | Bar

  type Alternatives = seq<seq<Term>>

  // ---- flatten ---------------------------------------------------------------------------

  function TermNodes(t: Term): seq<Node> {
    if t.Paren? then [DisjNode(t.d)] else [TermNode(t)]
  }

  function ConjNodes(c: Conjunction): seq<Node> {
    match c
    case One(t) => TermNodes(t)
    case And(t, rest) => TermNodes(t) + [Comma] + ConjNodes(rest)
  }

  function Nodes(d: Disjunction): seq<Node> {
    match d
    case Only(c) => ConjNodes(c)
    case Or(c, rest) => ConjNodes(c) + [Bar] + Nodes(rest)
  }

  /** A group with alternatives occurs directly at this level. */
  predicate TermForks(t: Term) {
    t.Paren? && t.d.Or?
  }

  predicate ConjForks(c: Conjunction) {
    TermForks(c.t) || (c.And? && ConjForks(c.rest))
  }

  predicate Forks(d: Disjunction) {
    ConjForks(d.c) || (d.Or? && Forks(d.rest))
  }

  predicate HasCommas(d: Disjunction) {
    d.c.And? || (d.Or? && HasCommas(d.rest))
  }

  /** The list that `flatten` appends to, and its flag. */
  class NodeList {
    var nodes: seq<Node>
    var forked: bool

    constructor ()
      ensures nodes == [] && !forked
    {
      nodes, forked := [], false;
    }

    method AddTerm(t: Term)
      modifies this
      ensures nodes == old(nodes) + TermNodes(t) && forked == (old(forked) || TermForks(t))
    {
      match t {
        case Paren(d) =>
          if d.Or? {
            forked := true;
          }
          nodes := nodes + [DisjNode(d)];
        case _ =>
          nodes := nodes + [TermNode(t)];
      }
    }

    method AddConjunction(c: Conjunction)
      modifies this
      ensures nodes == old(nodes) + ConjNodes(c) && forked == (old(forked) || ConjForks(c))
      decreases c
    {
      AddTerm(c.t);
      if c.And? {
        nodes := nodes + [Comma];
        AddConjunction(c.rest);
      }
    }

    method Flatten(d: Disjunction)
      modifies this
      ensures nodes == old(nodes) + Nodes(d) && forked == (old(forked) || Forks(d))
      decreases d
    {
      AddConjunction(d.c);
      if d.Or? {
        nodes := nodes + [Bar];
        Flatten(d.rest);
      }
    }
  }

  // ---- the two distributions, on trees ---------------------------------------------------

  function Prefixed(r: seq<Term>, b: Alternatives): (p: Alternatives)
    ensures |p| == |b|
  {
    if b == [] then [] else [r + b[0]] + Prefixed(r, b[1..])
  }

  /** Every alternative of `a` followed by every alternative of `b`. */
  function Cross(a: Alternatives, b: Alternatives): Alternatives {
    if a == [] then [] else Prefixed(a[0], b) + Cross(a[1..], b)
  }

  /** Alternatives of a node read among or-separated nodes. */
  function OrTerm(t: Term): Alternatives {
    match t
    case Paren(d) => if HasCommas(d) then AndAlts(d) else OrAlts(d)
    case _ => [[t]]
  }

  function OrConj(c: Conjunction): Alternatives {
    match c
    case One(t) => OrTerm(t)
    case And(t, rest) => OrTerm(t) + OrConj(rest)
  }

  /** A level read as or-separated, whatever its separators. */
  function OrAlts(d: Disjunction): Alternatives {
    match d
    case Only(c) => OrConj(c)
    case Or(c, rest) => OrConj(c) + OrAlts(rest)
  }

  function AndTerm(t: Term): Alternatives {
    match t
    case Paren(d) => OrAlts(d)
    case _ => [[t]]
  }

  function AndConj(c: Conjunction): Alternatives {
    match c
    case One(t) => AndTerm(t)
    case And(t, rest) => Cross(AndTerm(t), AndConj(rest))
  }

  /** A level read as comma-separated, whatever its separators. */
  function AndAlts(d: Disjunction): Alternatives {
    match d
    case Only(c) => AndConj(c)
    case Or(c, rest) => Cross(AndConj(c), AndAlts(rest))
  }

  // ---- the same on flattened nodes, as the code has it -----------------------------------

  function OrNode(n: Node): Alternatives {
    match n
    case TermNode(t) => [[t]]
    case DisjNode(d) => if HasCommas(d) then AndAlts(d) else OrAlts(d)
    case _ => []
  }

  function OrNodes(ns: seq<Node>): Alternatives {
    if ns == [] then [] else OrNodes(ns[..|ns| - 1]) + OrNode(ns[|ns| - 1])
  }

  /** The factors of a product; separators are passed over. */
  function Factors(ns: seq<Node>): seq<Alternatives> {
    if ns == [] then []
    else
      Factors(ns[..|ns| - 1]) +
      match ns[|ns| - 1]
      case TermNode(t) => [[[t]]]
      case DisjNode(d) => [OrAlts(d)]
      case _ => []
  }

  /** Products taken from the left. */
  function Product(fs: seq<Alternatives>): Alternatives
    requires fs != []
  {
    if |fs| == 1 then fs[0] else Cross(Product(fs[..|fs| - 1]), fs[|fs| - 1])
  }

  function NodeSize(n: Node): nat {
    match n
    case TermNode(_) => 1
    case DisjNode(d) => 1 + Size(d)
    case _ => 0
  }

  function NodesSize(ns: seq<Node>): nat {
    if ns == [] then 0 else NodeSize(ns[0]) + NodesSize(ns[1..])
  }

  function TermSize(t: Term): nat {
    match t
    case Paren(d) => 1 + Size(d)
    case _ => 1
  }

  function ConjSize(c: Conjunction): nat {
    TermSize(c.t) + if c.And? then ConjSize(c.rest) else 0
  }

  function Size(d: Disjunction): nat {
    ConjSize(d.c) + if d.Or? then Size(d.rest) else 0
  }

  lemma {:induction false} SizeCat(a: seq<Node>, b: seq<Node>)
    ensures NodesSize(a + b) == NodesSize(a) + NodesSize(b)
  {
    if a == [] {
      assert a + b == b;
    } else {
      assert (a + b)[1..] == a[1..] + b;
      SizeCat(a[1..], b);
    }
  }

  lemma {:induction false} ConjNodesSize(c: Conjunction)
    ensures NodesSize(ConjNodes(c)) == ConjSize(c)
  {
    if c.And? {
      SizeCat(TermNodes(c.t) + [Comma], ConjNodes(c.rest));
      SizeCat(TermNodes(c.t), [Comma]);
      ConjNodesSize(c.rest);
    }
  }

  lemma {:induction false} FlattenSize(d: Disjunction)
    ensures NodesSize(Nodes(d)) == Size(d)
  {
    ConjNodesSize(d.c);
    if d.Or? {
      SizeCat(ConjNodes(d.c) + [Bar], Nodes(d.rest));
      SizeCat(ConjNodes(d.c), [Bar]);
      FlattenSize(d.rest);
    }
  }

  lemma {:induction false} NodeInList(ns: seq<Node>, i: nat)
    requires i < |ns|
    ensures NodeSize(ns[i]) <= NodesSize(ns)
  {
    if i > 0 {
      NodeInList(ns[1..], i - 1);
    }
  }

  // ---- nodes and trees agree -------------------------------------------------------------

  lemma {:induction false} OrNodesCat(a: seq<Node>, b: seq<Node>)
    ensures OrNodes(a + b) == OrNodes(a) + OrNodes(b)
  {
    if b == [] {
      assert a + b == a;
    } else {
      var init := b[..|b| - 1];
      assert (a + b)[..|a + b| - 1] == a + init;
      OrNodesCat(a, init);
      assert OrNodes(a) + OrNodes(init) + OrNode(b[|b| - 1]) == OrNodes(a) + (OrNodes(init) + OrNode(b[|b| - 1]));
    }
  }

  lemma OrNodesOne(n: Node)
    ensures OrNodes([n]) == OrNode(n)
  {
    assert [n][..0] == [] && OrNodes([]) == [];
    assert [] + OrNode(n) == OrNode(n);
  }

  lemma OrNodesTerm(t: Term)
    ensures OrNodes(TermNodes(t)) == OrTerm(t)
  {
    OrNodesOne(if t.Paren? then DisjNode(t.d) else TermNode(t));
  }

  lemma {:induction false} OrConjNodes(c: Conjunction)
    ensures OrNodes(ConjNodes(c)) == OrConj(c)
  {
    OrNodesTerm(c.t);
    if c.And? {
      OrNodesOne(Comma);
      OrNodesCat(TermNodes(c.t), [Comma]);
      OrNodesCat(TermNodes(c.t) + [Comma], ConjNodes(c.rest));
      OrConjNodes(c.rest);
      assert OrTerm(c.t) + [] == OrTerm(c.t);
    }
  }

  lemma {:induction false} OrNodesTree(d: Disjunction)
    ensures OrNodes(Nodes(d)) == OrAlts(d)
  {
    OrConjNodes(d.c);
    if d.Or? {
      OrNodesOne(Bar);
      OrNodesCat(ConjNodes(d.c), [Bar]);
      OrNodesCat(ConjNodes(d.c) + [Bar], Nodes(d.rest));
      OrNodesTree(d.rest);
      assert OrConj(d.c) + [] == OrConj(d.c);
    }
  }

  lemma {:induction false} PrefixedCat(r: seq<Term>, a: Alternatives, b: Alternatives)
    ensures Prefixed(r, a + b) == Prefixed(r, a) + Prefixed(r, b)
  {
    if a == [] {
      assert a + b == b;
    } else {
      assert (a + b)[1..] == a[1..] + b;
      PrefixedCat(r, a[1..], b);
    }
  }

  lemma {:induction false} CrossCat(a: Alternatives, b: Alternatives, c: Alternatives)
    ensures Cross(a + b, c) == Cross(a, c) + Cross(b, c)
  {
    if a == [] {
      assert a + b == b;
    } else {
      assert (a + b)[1..] == a[1..] + b;
      CrossCat(a[1..], b, c);
    }
  }

  lemma {:induction false} PrefixedTwice(r: seq<Term>, s: seq<Term>, c: Alternatives)
    ensures Prefixed(r + s, c) == Prefixed(r, Prefixed(s, c))
  {
    if c != [] {
      PrefixedTwice(r, s, c[1..]);
      assert r + s + c[0] == r + (s + c[0]);
      assert Prefixed(s, c)[1..] == Prefixed(s, c[1..]);
    }
  }

  lemma {:induction false} CrossPrefixed(r: seq<Term>, b: Alternatives, c: Alternatives)
    ensures Cross(Prefixed(r, b), c) == Prefixed(r, Cross(b, c))
  {
    if b != [] {
      assert Prefixed(r, b)[1..] == Prefixed(r, b[1..]);
      CrossPrefixed(r, b[1..], c);
      PrefixedTwice(r, b[0], c);
      PrefixedCat(r, Prefixed(b[0], c), Cross(b[1..], c));
    }
  }

  /** Distributing from the left and from the right lists the same alternatives in one order. */
  lemma {:induction false} CrossAssoc(a: Alternatives, b: Alternatives, c: Alternatives)
    ensures Cross(Cross(a, b), c) == Cross(a, Cross(b, c))
  {
    if a != [] {
      CrossCat(Prefixed(a[0], b), Cross(a[1..], b), c);
      CrossPrefixed(a[0], b, c);
      CrossAssoc(a[1..], b, c);
    }
  }

  lemma {:induction false} FactorsCat(a: seq<Node>, b: seq<Node>)
    ensures Factors(a + b) == Factors(a) + Factors(b)
  {
    if b == [] {
      assert a + b == a;
    } else {
      var init, last := b[..|b| - 1], [b[|b| - 1]];
      assert (a + b)[..|a + b| - 1] == a + init;
      FactorsCat(a, init);
    }
  }

  lemma {:induction false} ProductCat(a: seq<Alternatives>, b: seq<Alternatives>)
    requires a != [] && b != []
    ensures Product(a + b) == Cross(Product(a), Product(b))
  {
    var init, last := b[..|b| - 1], b[|b| - 1];
    assert (a + b)[..|a + b| - 1] == a + init;
    if init == [] {
      assert a + init == a;
    } else {
      ProductCat(a, init);
      CrossAssoc(Product(a), Product(init), last);
    }
  }

  lemma FactorsOne(t: Term)
    ensures Factors(TermNodes(t)) == [AndTerm(t)]
    ensures Factors([Comma]) == [] && Factors([Bar]) == []
  {
    assert TermNodes(t)[..0] == [] && [Comma][..0] == [] && [Bar][..0] == [];
    assert Factors([]) == [];
  }

  lemma {:induction false} FactorsConj(c: Conjunction)
    ensures Factors(ConjNodes(c)) != [] && Product(Factors(ConjNodes(c))) == AndConj(c)
  {
    FactorsOne(c.t);
    if c.And? {
      FactorsCat(TermNodes(c.t), [Comma]);
      FactorsCat(TermNodes(c.t) + [Comma], ConjNodes(c.rest));
      FactorsConj(c.rest);
      assert [AndTerm(c.t)] + [] == [AndTerm(c.t)];
      ProductCat([AndTerm(c.t)], Factors(ConjNodes(c.rest)));
    }
  }

  lemma {:induction false} FactorsTree(d: Disjunction)
    ensures Factors(Nodes(d)) != [] && Product(Factors(Nodes(d))) == AndAlts(d)
  {
    FactorsConj(d.c);
    if d.Or? {
      FactorsOne(d.c.t);
      FactorsCat(ConjNodes(d.c), [Bar]);
      FactorsCat(ConjNodes(d.c) + [Bar], Nodes(d.rest));
      FactorsTree(d.rest);
      assert Factors(ConjNodes(d.c)) + [] == Factors(ConjNodes(d.c));
      ProductCat(Factors(ConjNodes(d.c)), Factors(Nodes(d.rest)));
    }
  }

  // ---- the methods -----------------------------------------------------------------------

  /** Flattened nodes of a disjunction, as the two distributions ask for them. */
  method NodesOf(d: Disjunction) returns (ns: seq<Node>)
    ensures ns == Nodes(d)
  {
    var list := new NodeList();
    list.Flatten(d);
    assert [] + Nodes(d) == Nodes(d);
    ns := list.nodes;
  }

  method DisConjunction(listbody: seq<Node>) returns (dislist: Alternatives)
    ensures dislist == OrNodes(listbody)
    decreases NodesSize(listbody)
  {
    dislist := [];
    for i := 0 to |listbody|
      invariant dislist == OrNodes(listbody[..i])
    {
      assert listbody[..i + 1][..i] == listbody[..i];
      var choice := listbody[i];
      if choice.TermNode? {
        dislist := dislist + [[choice.t]];
      } else if choice.DisjNode? {
        NodeInList(listbody, i);
        FlattenSize(choice.d);
        var ns := NodesOf(choice.d);
        var disconlist;
        if HasCommas(choice.d) {
          FactorsTree(choice.d);
          disconlist := ConDisjunction(ns);
        } else {
          OrNodesTree(choice.d);
          disconlist := DisConjunction(ns);
        }
        dislist := dislist + disconlist;
      }
    }
    assert listbody[..|listbody|] == listbody;
  }

  /** The inner loops of `conDisjunction`. */
  method Distribute(result: Alternatives, factor: Alternatives) returns (newRes: Alternatives)
    ensures newRes == Cross(result, factor)
  {
    newRes := [];
    for j := 0 to |result|
      invariant newRes == Cross(result[..j], factor)
    {
      ghost var before := newRes;
      for k := 0 to |factor|
        invariant newRes == before + Prefixed(result[j], factor[..k])
      {
        assert factor[..k + 1] == factor[..k] + [factor[k]];
        PrefixedCat(result[j], factor[..k], [factor[k]]);
        newRes := newRes + [result[j] + factor[k]];
      }
      assert factor[..|factor|] == factor;
      assert result[..j + 1] == result[..j] + [result[j]];
      CrossCat(result[..j], [result[j]], factor);
    }
    assert result[..|result|] == result;
  }

  /** The list must hold a term or a group; flattened bodies do. */
  method ConDisjunction(listbody: seq<Node>) returns (result: Alternatives)
    requires Factors(listbody) != []
    ensures result == Product(Factors(listbody))
    decreases NodesSize(listbody)
  {
    var conlist: seq<Alternatives> := [];
    for i := 0 to |listbody|
      invariant conlist == Factors(listbody[..i])
    {
      assert listbody[..i + 1][..i] == listbody[..i];
      var choice := listbody[i];
      if choice.TermNode? {
        conlist := conlist + [[[choice.t]]];
      } else if choice.DisjNode? {
        NodeInList(listbody, i);
        FlattenSize(choice.d);
        OrNodesTree(choice.d);
        var ns := NodesOf(choice.d);
        var dislist := DisConjunction(ns);
        conlist := conlist + [dislist];
      }
    }
    assert listbody[..|listbody|] == listbody;
    result := conlist[0];
    assert conlist[..1] == [conlist[0]];
    for i := 1 to |conlist|
      invariant result == Product(conlist[..i])
    {
      var newRes := Distribute(result, conlist[i]);
      assert conlist[..i + 1][..i] == conlist[..i];
      result := newRes;
    }
    assert conlist[..|conlist|] == conlist;
  }

  // ---- rule bodies -----------------------------------------------------------------------

  function ConjTerms(c: Conjunction): seq<Term> {
    match c
    case One(t) => [t]
    case And(t, rest) => [t] + ConjTerms(rest)
  }

  function DisjTerms(d: Disjunction): Alternatives {
    match d
    case Only(c) => [ConjTerms(c)]
    case Or(c, rest) => [ConjTerms(c)] + DisjTerms(rest)
  }

  /** The bodies that a rule is turned into: distribution takes place only if it is asked for and
      a group with alternatives occurs directly in the body; otherwise each conjunction is a body. */
  function Bodies(toDNF: bool, body: Disjunction): Alternatives {
    if toDNF && Forks(body) then AndAlts(body) else DisjTerms(body)
  }

  /** `getList` on a conjunction. */
  method ConjunctionTerms(c0: Conjunction) returns (conj: seq<Term>)
    ensures conj == ConjTerms(c0)
  {
    var c := c0;
    conj := [c.t];
    while c.And?
      invariant ConjTerms(c0) == conj + if c.And? then ConjTerms(c.rest) else []
      decreases c
    {
      assert conj + ConjTerms(c.rest) == conj + [c.rest.t] + if c.rest.And? then ConjTerms(c.rest.rest) else [];
      c := c.rest;
      conj := conj + [c.t];
    }
  }

  /** `getList` on a body, and then on its conjunctions. */
  method DisjunctionTerms(body: Disjunction) returns (terms: Alternatives)
    ensures terms == DisjTerms(body)
  {
    var d := body;
    var first := ConjunctionTerms(d.c);
    terms := [first];
    while d.Or?
      invariant DisjTerms(body) == terms + if d.Or? then DisjTerms(d.rest) else []
      decreases d
    {
      d := d.rest;
      var next := ConjunctionTerms(d.c);
      assert terms + DisjTerms(d) == terms + [next] + if d.Or? then DisjTerms(d.rest) else [];
      terms := terms + [next];
    }
  }

  /** The normal-form part of `process_rule`. */
  method ProcessBody(toDNF: bool, body: Disjunction) returns (terms: Alternatives)
    ensures terms == Bodies(toDNF, body)
  {
    var transformed := false;
    terms := [];
    if toDNF {
      var list := new NodeList();
      list.Flatten(body);
      transformed := list.forked;
      if transformed {
        FactorsTree(body);
        assert [] + Nodes(body) == Nodes(body);
        terms := ConDisjunction(list.nodes);
      }
    }
    if !transformed {
      terms := DisjunctionTerms(body);
    }
  }
}
