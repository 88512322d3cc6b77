/**
  What the normal-form pass of the Souffle converter means.  The alternatives it emits are, for
  every body, equivalent to the body read in the way the code reads it; and this reading is the
  body's own meaning exactly when no level mixes separators and every level is read by the
  separator it has.
 */
module SouffleFacts {
  import opened Souffle

  /** Under `v`, the set of the terms that hold, an alternative holds if all its terms do. */
  ghost predicate AllIn(c: seq<Term>, v: set<Term>) {
    forall i :: 0 <= i < |c| ==> c[i] in v
  }

  ghost predicate SomeHolds(a: Alternatives, v: set<Term>) {
    exists i :: 0 <= i < |a| && AllIn(a[i], v)
  }

  // ---- what a body means -----------------------------------------------------------------

  predicate TruthTerm(t: Term, v: set<Term>) {
    match t
    case Paren(d) => Truth(d, v)
    case _ => t in v
  }

  predicate TruthConj(c: Conjunction, v: set<Term>) {
    TruthTerm(c.t, v) && (c.And? ==> TruthConj(c.rest, v))
  }

  predicate Truth(d: Disjunction, v: set<Term>) {
    TruthConj(d.c, v) || (d.Or? && Truth(d.rest, v))
  }

  // ---- how the code reads it -------------------------------------------------------------

  predicate ReadOrTerm(t: Term, v: set<Term>) {
    match t
    case Paren(d) => if HasCommas(d) then ReadAnd(d, v) else ReadOr(d, v)
    case _ => t in v
  }

  predicate ReadOrConj(c: Conjunction, v: set<Term>) {
    ReadOrTerm(c.t, v) || (c.And? && ReadOrConj(c.rest, v))
  }

  /** Some node of the level holds. */
  predicate ReadOr(d: Disjunction, v: set<Term>) {
    ReadOrConj(d.c, v) || (d.Or? && ReadOr(d.rest, v))
  }

  predicate ReadAndTerm(t: Term, v: set<Term>) {
    match t
    case Paren(d) => ReadOr(d, v)
    case _ => t in v
  }

  predicate ReadAndConj(c: Conjunction, v: set<Term>) {
    ReadAndTerm(c.t, v) && (c.And? ==> ReadAndConj(c.rest, v))
  }

  /** All nodes of the level hold. */
  predicate ReadAnd(d: Disjunction, v: set<Term>) {
    ReadAndConj(d.c, v) && (d.Or? ==> ReadAnd(d.rest, v))
  }

  // ---- the alternatives mean the reading -------------------------------------------------

  lemma SomeCat(a: Alternatives, b: Alternatives, v: set<Term>)
    ensures SomeHolds(a + b, v) <==> SomeHolds(a, v) || SomeHolds(b, v)
  {
    if SomeHolds(a, v) {
      var i :| 0 <= i < |a| && AllIn(a[i], v);
      assert (a + b)[i] == a[i];
    }
    if SomeHolds(b, v) {
      var i :| 0 <= i < |b| && AllIn(b[i], v);
      assert (a + b)[|a| + i] == b[i];
    }
  }

  lemma AllCat(c: seq<Term>, d: seq<Term>, v: set<Term>)
    ensures AllIn(c + d, v) <==> AllIn(c, v) && AllIn(d, v)
  {
    if AllIn(c + d, v) {
      assert forall i :: 0 <= i < |c| ==> (c + d)[i] == c[i];
      assert forall i :: 0 <= i < |d| ==> (c + d)[|c| + i] == d[i];
    }
  }

  lemma SomeOne(c: seq<Term>, v: set<Term>)
    ensures SomeHolds([c], v) <==> AllIn(c, v)
  {
    assert [c][0] == c;
  }

  lemma {:induction false} SomePrefixed(r: seq<Term>, b: Alternatives, v: set<Term>)
    ensures SomeHolds(Prefixed(r, b), v) <==> AllIn(r, v) && SomeHolds(b, v)
  {
    if b != [] {
      SomePrefixed(r, b[1..], v);
      SomeCat([r + b[0]], Prefixed(r, b[1..]), v);
      SomeOne(r + b[0], v);
      AllCat(r, b[0], v);
      SomeCat([b[0]], b[1..], v);
      SomeOne(b[0], v);
      assert [b[0]] + b[1..] == b;
    }
  }

  lemma {:induction false} SomeCross(a: Alternatives, b: Alternatives, v: set<Term>)
    ensures SomeHolds(Cross(a, b), v) <==> SomeHolds(a, v) && SomeHolds(b, v)
  {
    if a != [] {
      SomePrefixed(a[0], b, v);
      SomeCross(a[1..], b, v);
      SomeCat(Prefixed(a[0], b), Cross(a[1..], b), v);
      SomeCat([a[0]], a[1..], v);
      SomeOne(a[0], v);
      assert [a[0]] + a[1..] == a;
    }
  }

  lemma {:induction false} OrTermMeans(t: Term, v: set<Term>)
    ensures SomeHolds(OrTerm(t), v) <==> ReadOrTerm(t, v)
  {
    match t
    case Paren(d) =>
      OrMeans(d, v);
      AndMeans(d, v);
    case _ =>
      SomeOne([t], v);
      assert [t][0] == t;
  }

  lemma {:induction false} OrConjMeans(c: Conjunction, v: set<Term>)
    ensures SomeHolds(OrConj(c), v) <==> ReadOrConj(c, v)
  {
    OrTermMeans(c.t, v);
    if c.And? {
      OrConjMeans(c.rest, v);
      SomeCat(OrTerm(c.t), OrConj(c.rest), v);
    }
  }

  /** For every body and assignment: some alternative of `disConjunction` holds if and only if
      the body holds with its top level read as a disjunction. */
  lemma {:induction false} OrMeans(d: Disjunction, v: set<Term>)
    ensures SomeHolds(OrAlts(d), v) <==> ReadOr(d, v)
  {
    OrConjMeans(d.c, v);
    if d.Or? {
      OrMeans(d.rest, v);
      SomeCat(OrConj(d.c), OrAlts(d.rest), v);
    }
  }

  lemma {:induction false} AndConjMeans(c: Conjunction, v: set<Term>)
    ensures SomeHolds(AndConj(c), v) <==> ReadAndConj(c, v)
  {
    match c.t {
      case Paren(d) => OrMeans(d, v);
      case _ =>
        SomeOne([c.t], v);
        assert [c.t][0] == c.t;
    }
    if c.And? {
      AndConjMeans(c.rest, v);
      SomeCross(AndTerm(c.t), AndConj(c.rest), v);
    }
  }

  /** The same for `conDisjunction` and the reading as a conjunction. */
  lemma {:induction false} AndMeans(d: Disjunction, v: set<Term>)
    ensures SomeHolds(AndAlts(d), v) <==> ReadAnd(d, v)
  {
    AndConjMeans(d.c, v);
    if d.Or? {
      AndMeans(d.rest, v);
      SomeCross(AndConj(d.c), AndAlts(d.rest), v);
    }
  }

  // ---- when the reading is right ---------------------------------------------------------

  predicate OrFaithfulTerm(t: Term) {
    t.Paren? ==> if HasCommas(t.d) then AndFaithful(t.d) else OrFaithful(t.d)
  }

  /** Read as a disjunction: no commas at this level, and its groups are read rightly. */
  predicate OrFaithful(d: Disjunction) {
    d.c.One? && OrFaithfulTerm(d.c.t) && (d.Or? ==> OrFaithful(d.rest))
  }

  predicate AndFaithfulConj(c: Conjunction) {
    (c.t.Paren? ==> OrFaithful(c.t.d)) && (c.And? ==> AndFaithfulConj(c.rest))
  }

  /** Read as a conjunction: no alternatives at this level, and every group directly in it is
      rightly read as a disjunction. */
  predicate AndFaithful(d: Disjunction) {
    d.Only? && AndFaithfulConj(d.c)
  }

  lemma {:induction false} OrFaithfulNoCommas(d: Disjunction)
    requires OrFaithful(d)
    ensures !HasCommas(d)
  {
    if d.Or? {
      OrFaithfulNoCommas(d.rest);
    }
  }

  lemma {:induction false} OrFaithfulReads(d: Disjunction, v: set<Term>)
    requires OrFaithful(d)
    ensures ReadOr(d, v) == Truth(d, v)
  {
    var t := d.c.t;
    if t.Paren? {
      if HasCommas(t.d) {
        AndFaithfulReads(t.d, v);
      } else {
        OrFaithfulReads(t.d, v);
      }
    }
    assert ReadOrConj(d.c, v) == ReadOrTerm(t, v) && TruthConj(d.c, v) == TruthTerm(t, v);
    if d.Or? {
      OrFaithfulReads(d.rest, v);
    }
  }

  lemma {:induction false} AndFaithfulConjReads(c: Conjunction, v: set<Term>)
    requires AndFaithfulConj(c)
    ensures ReadAndConj(c, v) == TruthConj(c, v)
  {
    if c.t.Paren? {
      OrFaithfulReads(c.t.d, v);
    }
    if c.And? {
      AndFaithfulConjReads(c.rest, v);
    }
  }

  lemma {:induction false} AndFaithfulReads(d: Disjunction, v: set<Term>)
    requires AndFaithful(d)
    ensures ReadAnd(d, v) == Truth(d, v)
  {
    AndFaithfulConjReads(d.c, v);
  }

  // ---- leaves ----------------------------------------------------------------------------

  function TermLeaves(t: Term): seq<Term> {
    if t.Paren? then Leaves(t.d) else [t]
  }

  function ConjLeaves(c: Conjunction): seq<Term> {
    TermLeaves(c.t) + if c.And? then ConjLeaves(c.rest) else []
  }

  /** The terms of a body that are not groups, in source order. */
  function Leaves(d: Disjunction): seq<Term> {
    ConjLeaves(d.c) + if d.Or? then Leaves(d.rest) else []
  }

  function Members(s: seq<Term>): set<Term> {
    set t | t in s
  }

  predicate NoRepeats<T(==)>(s: seq<T>) {
    forall i, j :: 0 <= i < j < |s| ==> s[i] != s[j]
  }

  lemma Apart(a: seq<Term>, b: seq<Term>)
    requires NoRepeats(a + b)
    ensures NoRepeats(a) && NoRepeats(b) && Members(a) !! Members(b)
    ensures Members(a + b) == Members(a) + Members(b)
  {
    var s := a + b;
    assert forall i :: 0 <= i < |a| ==> s[i] == a[i];
    assert forall i :: 0 <= i < |b| ==> s[|a| + i] == b[i];
    forall t | t in Members(a)
      ensures t !in Members(b)
    {
      var i :| 0 <= i < |a| && a[i] == t;
      assert forall j :: 0 <= j < |b| ==> b[j] != s[i];
    }
  }

  lemma SplitDisj(d: Disjunction)
    requires NoRepeats(Leaves(d))
    ensures NoRepeats(ConjLeaves(d.c)) && Members(ConjLeaves(d.c)) <= Members(Leaves(d))
    ensures d.Or? ==>
      && NoRepeats(Leaves(d.rest)) && Members(ConjLeaves(d.c)) !! Members(Leaves(d.rest))
      && Members(Leaves(d)) == Members(ConjLeaves(d.c)) + Members(Leaves(d.rest))
  {
    Apart(ConjLeaves(d.c), if d.Or? then Leaves(d.rest) else []);
  }

  lemma SplitConj(c: Conjunction)
    requires NoRepeats(ConjLeaves(c))
    ensures NoRepeats(TermLeaves(c.t)) && Members(TermLeaves(c.t)) <= Members(ConjLeaves(c))
    ensures c.And? ==>
      && NoRepeats(ConjLeaves(c.rest)) && Members(TermLeaves(c.t)) !! Members(ConjLeaves(c.rest))
      && Members(ConjLeaves(c)) == Members(TermLeaves(c.t)) + Members(ConjLeaves(c.rest))
  {
    Apart(TermLeaves(c.t), if c.And? then ConjLeaves(c.rest) else []);
  }

  /** `v` and `w` agree on the leaves. */
  ghost predicate Same(s: seq<Term>, v: set<Term>, w: set<Term>) {
    forall t :: t in s ==> (t in v <==> t in w)
  }

  /** Four readings of a term, a conjunction and a disjunction depend on the leaves only; where
      all leaves hold they are true, and where none does they are false. */
  lemma {:induction false} TermLocal(t: Term, v: set<Term>, w: set<Term>)
    requires Same(TermLeaves(t), v, w)
    ensures TruthTerm(t, v) == TruthTerm(t, w)
    ensures ReadOrTerm(t, v) == ReadOrTerm(t, w) && ReadAndTerm(t, v) == ReadAndTerm(t, w)
  {
    if t.Paren? {
      Local(t.d, v, w);
    } else {
      assert t in TermLeaves(t);
    }
  }

  lemma {:induction false} ConjLocal(c: Conjunction, v: set<Term>, w: set<Term>)
    requires Same(ConjLeaves(c), v, w)
    ensures TruthConj(c, v) == TruthConj(c, w)
    ensures ReadOrConj(c, v) == ReadOrConj(c, w) && ReadAndConj(c, v) == ReadAndConj(c, w)
  {
    TermLocal(c.t, v, w);
    if c.And? {
      ConjLocal(c.rest, v, w);
    }
  }

  lemma {:induction false} Local(d: Disjunction, v: set<Term>, w: set<Term>)
    requires Same(Leaves(d), v, w)
    ensures Truth(d, v) == Truth(d, w)
    ensures ReadOr(d, v) == ReadOr(d, w) && ReadAnd(d, v) == ReadAnd(d, w)
  {
    ConjLocal(d.c, v, w);
    if d.Or? {
      Local(d.rest, v, w);
    }
  }

  ghost predicate AllLeaves(s: seq<Term>, v: set<Term>, b: bool) {
    forall t :: t in s ==> (t in v) == b
  }

  lemma {:induction false} TermConstant(t: Term, v: set<Term>, b: bool)
    requires AllLeaves(TermLeaves(t), v, b)
    ensures TruthTerm(t, v) == b && ReadOrTerm(t, v) == b && ReadAndTerm(t, v) == b
  {
    if t.Paren? {
      Constant(t.d, v, b);
    } else {
      assert t in TermLeaves(t);
    }
  }

  lemma {:induction false} ConjConstant(c: Conjunction, v: set<Term>, b: bool)
    requires AllLeaves(ConjLeaves(c), v, b)
    ensures TruthConj(c, v) == b && ReadOrConj(c, v) == b && ReadAndConj(c, v) == b
  {
    TermConstant(c.t, v, b);
    if c.And? {
      ConjConstant(c.rest, v, b);
    }
  }

  lemma {:induction false} Constant(d: Disjunction, v: set<Term>, b: bool)
    requires AllLeaves(Leaves(d), v, b)
    ensures Truth(d, v) == b && ReadOr(d, v) == b && ReadAnd(d, v) == b
  {
    ConjConstant(d.c, v, b);
    if d.Or? {
      Constant(d.rest, v, b);
    }
  }

  // ---- where the reading is wrong --------------------------------------------------------

  /** A level read as a disjunction that has a comma: one term next to the comma tells. */
  lemma {:induction false} RefuteComma(d: Disjunction) returns (v: set<Term>)
    requires NoRepeats(Leaves(d)) && HasCommas(d)
    ensures v <= Members(Leaves(d)) && ReadOr(d, v) && !Truth(d, v)
  {
    SplitDisj(d);
    if d.c.And? {
      SplitConj(d.c);
      v := Members(TermLeaves(d.c.t));
      TermConstant(d.c.t, v, true);
      ConjConstant(d.c.rest, v, false);
      if d.Or? {
        Constant(d.rest, v, false);
      }
    } else {
      v := RefuteComma(d.rest);
      ConjConstant(d.c, v, false);
    }
  }

  lemma {:induction false} RefuteOrTerm(t: Term) returns (v: set<Term>)
    requires NoRepeats(TermLeaves(t)) && !OrFaithfulTerm(t)
    ensures v <= Members(TermLeaves(t)) && ReadOrTerm(t, v) != TruthTerm(t, v)
    decreases t, 1
  {
    if HasCommas(t.d) {
      v := RefuteAnd(t.d);
    } else {
      v := RefuteOr(t.d);
    }
  }

  lemma {:induction false} RefuteOr(d: Disjunction) returns (v: set<Term>)
    requires NoRepeats(Leaves(d)) && !OrFaithful(d)
    ensures v <= Members(Leaves(d)) && ReadOr(d, v) != Truth(d, v)
    decreases d, 1
  {
    if HasCommas(d) {
      v := RefuteComma(d);
    } else {
      SplitDisj(d);
      SplitConj(d.c);
      if !OrFaithfulTerm(d.c.t) {
        v := RefuteOrTerm(d.c.t);
        if d.Or? {
          Constant(d.rest, v, false);
        }
      } else {
        v := RefuteOr(d.rest);
        ConjConstant(d.c, v, false);
      }
    }
  }

  lemma {:induction false} RefuteAndConj(c: Conjunction) returns (v: set<Term>)
    requires NoRepeats(ConjLeaves(c)) && !AndFaithfulConj(c)
    ensures v <= Members(ConjLeaves(c)) && ReadAndConj(c, v) != TruthConj(c, v)
    decreases c, 1
  {
    SplitConj(c);
    if c.t.Paren? && !OrFaithful(c.t.d) {
      var w := RefuteOr(c.t.d);
      v := w + if c.And? then Members(ConjLeaves(c.rest)) else {};
      TermLocal(c.t, v, w);
      if c.And? {
        ConjConstant(c.rest, v, true);
      }
    } else {
      var w := RefuteAndConj(c.rest);
      v := w + Members(TermLeaves(c.t));
      ConjLocal(c.rest, v, w);
      TermConstant(c.t, v, true);
    }
  }

  lemma {:induction false} RefuteAnd(d: Disjunction) returns (v: set<Term>)
    requires NoRepeats(Leaves(d)) && !AndFaithful(d)
    ensures v <= Members(Leaves(d)) && ReadAnd(d, v) != Truth(d, v)
    decreases d, 1
  {
    SplitDisj(d);
    if d.Or? {
      v := Members(ConjLeaves(d.c));
      ConjConstant(d.c, v, true);
      Constant(d.rest, v, false);
    } else {
      v := RefuteAndConj(d.c);
    }
  }

  // ---- rule bodies -----------------------------------------------------------------------

  lemma {:induction false} ConjTermsMean(c: Conjunction, v: set<Term>)
    requires forall t :: t in ConjTerms(c) ==> !t.Paren?
    ensures AllIn(ConjTerms(c), v) <==> TruthConj(c, v)
  {
    var ts := ConjTerms(c);
    assert ts[0] == c.t;
    if c.And? {
      assert forall t :: t in ConjTerms(c.rest) ==> t in ts;
      ConjTermsMean(c.rest, v);
      AllCat([c.t], ConjTerms(c.rest), v);
      assert [c.t][0] == c.t;
    }
  }

  /** No group is left in the bodies; the converter refuses a rule where one is. */
  ghost predicate NoGroups(a: Alternatives) {
    forall i, j :: 0 <= i < |a| && 0 <= j < |a[i]| ==> !a[i][j].Paren?
  }

  lemma {:induction false} PlainBodies(d: Disjunction, v: set<Term>)
    requires NoGroups(DisjTerms(d))
    ensures SomeHolds(DisjTerms(d), v) <==> Truth(d, v)
  {
    var a := DisjTerms(d);
    assert a[0] == ConjTerms(d.c);
    ConjTermsMean(d.c, v);
    SomeOne(ConjTerms(d.c), v);
    if d.Or? {
      assert forall i :: 0 <= i < |DisjTerms(d.rest)| ==> DisjTerms(d.rest)[i] == a[i + 1];
      PlainBodies(d.rest, v);
      SomeCat([ConjTerms(d.c)], DisjTerms(d.rest), v);
    }
  }

  /** The emitted bodies hold for the same sets of terms as the body, if no distribution takes place
      or the body is faithfully read as a conjunction. */
  lemma BodiesMean(toDNF: bool, body: Disjunction, v: set<Term>)
    requires toDNF && Forks(body) ==> AndFaithful(body)
    requires !(toDNF && Forks(body)) ==> NoGroups(Bodies(toDNF, body))
    ensures SomeHolds(Bodies(toDNF, body), v) <==> Truth(body, v)
  {
    if toDNF && Forks(body) {
      AndMeans(body, v);
      AndFaithfulReads(body, v);
    } else {
      PlainBodies(body, v);
    }
  }

  // ---- when distribution takes place -----------------------------------------------------

  /** A node list holds a group with alternatives. */
  ghost predicate HoldsFork(ns: seq<Node>) {
    exists n :: n in ns && n.DisjNode? && n.d.Or?
  }

  /** A conjunction, as a list of terms, holds a group with alternatives. */
  ghost predicate ForkIn(c: seq<Term>) {
    exists t :: t in c && t.Paren? && t.d.Or?
  }

  lemma HoldsForkCat(a: seq<Node>, b: seq<Node>)
    ensures HoldsFork(a + b) <==> HoldsFork(a) || HoldsFork(b)
  {
  }

  lemma {:induction false} ConjForksExact(c: Conjunction)
    ensures ConjForks(c) <==> HoldsFork(ConjNodes(c))
    ensures ConjForks(c) <==> ForkIn(ConjTerms(c))
  {
    var ts := TermNodes(c.t);
    assert ts[0] in ts && (TermForks(c.t) <==> HoldsFork(ts));
    if c.And? {
      ConjForksExact(c.rest);
      HoldsForkCat(ts + [Comma], ConjNodes(c.rest));
      HoldsForkCat(ts, [Comma]);
      assert forall t :: t in ConjTerms(c) <==> t == c.t || t in ConjTerms(c.rest);
    } else {
      assert forall t :: t in ConjTerms(c) <==> t == c.t;
    }
  }

  /** `hasDisjunction` is set exactly if flattening meets a group with alternatives, wherever it
      stands in the body. */
  lemma {:induction false} ForksExact(d: Disjunction)
    ensures Forks(d) <==> HoldsFork(Nodes(d))
    ensures Forks(d) <==> exists c :: c in DisjTerms(d) && ForkIn(c)
  {
    ConjForksExact(d.c);
    assert DisjTerms(d)[0] == ConjTerms(d.c);
    if d.Or? {
      ForksExact(d.rest);
      HoldsForkCat(ConjNodes(d.c) + [Bar], Nodes(d.rest));
      HoldsForkCat(ConjNodes(d.c), [Bar]);
      assert forall c :: c in DisjTerms(d) <==> c == ConjTerms(d.c) || c in DisjTerms(d.rest);
    } else {
      assert forall c :: c in DisjTerms(d) <==> c == ConjTerms(d.c);
    }
  }

  /** `hasCommas` finds exactly the commas of a level. */
  lemma {:induction false} HasCommasExact(d: Disjunction)
    ensures HasCommas(d) <==> Comma in Nodes(d)
  {
    assert d.c.And? <==> Comma in ConjNodes(d.c) by {
      CommaInConj(d.c);
    }
    if d.Or? {
      HasCommasExact(d.rest);
    }
  }

  lemma CommaInConj(c: Conjunction)
    ensures c.And? <==> Comma in ConjNodes(c)
  {
    if c.And? {
      assert (TermNodes(c.t) + [Comma])[|TermNodes(c.t)|] == Comma;
      assert Comma in TermNodes(c.t) + [Comma];
    }
  }

  /** Leaves are not groups. */
  lemma {:induction false} LeavesArePlain(d: Disjunction)
    ensures forall t :: t in Leaves(d) ==> !t.Paren?
  {
    ConjLeavesArePlain(d.c);
    if d.Or? {
      LeavesArePlain(d.rest);
    }
  }

  lemma {:induction false} ConjLeavesArePlain(c: Conjunction)
    ensures forall t :: t in ConjLeaves(c) ==> !t.Paren?
  {
    if c.t.Paren? {
      LeavesArePlain(c.t.d);
    }
    if c.And? {
      ConjLeavesArePlain(c.rest);
    }
  }

  lemma NoGroupsLeft(body: Disjunction)
    ensures NoGroups(AndAlts(body))
  {
    var a: Alternatives := AndAlts(body);
    SourceOrder(body);
    LeavesArePlain(body);
    forall c | c in a
      ensures forall t :: t in c ==> !t.Paren?
    {
      SubMembers(c, Leaves(body));
    }
    assert forall i :: 0 <= i < |a| ==> a[i] in a;
    assert forall i, j :: 0 <= i < |a| && 0 <= j < |a[i]| ==> a[i][j] in a[i];
  }

  /** A body with a group that has alternatives, anywhere at its top level, is distributed: its
      bodies are the product over its nodes, no group is left in them, and some body holds exactly
      if all nodes do.  No other body is. */
  lemma GroupsAreDistributed(body: Disjunction)
    ensures Factors(Nodes(body)) != []
    ensures (exists c :: c in DisjTerms(body) && ForkIn(c)) ==>
      && Bodies(true, body) == Product(Factors(Nodes(body))) && NoGroups(Bodies(true, body))
      && forall v :: SomeHolds(Bodies(true, body), v) <==> ReadAnd(body, v)
    ensures !(exists c :: c in DisjTerms(body) && ForkIn(c)) ==> Bodies(true, body) == DisjTerms(body)
    ensures Bodies(false, body) == DisjTerms(body)
  {
    ForksExact(body);
    FactorsTree(body);
    if Forks(body) {
      NoGroupsLeft(body);
      forall v
        ensures SomeHolds(Bodies(true, body), v) <==> ReadAnd(body, v)
      {
        AndMeans(body, v);
      }
    }
  }

  /** `i` rounds of `n`, and `j`. */
  function Place(i: nat, j: nat, n: nat): nat {
    if i == 0 then j else n + Place(i - 1, j, n)
  }

  lemma {:induction false} PlaceIs(i: nat, j: nat, n: nat)
    ensures Place(i, j, n) == i * n + j
  {
    if i > 0 {
      PlaceIs(i - 1, j, n);
      assert i * n == n + (i - 1) * n;
    }
  }

  /** Where the pairs of a product stand: those with the first of `a` first, and so on. */
  lemma {:induction false} CrossAt(a: Alternatives, b: Alternatives, i: nat, j: nat)
    requires i < |a| && j < |b|
    ensures Place(i, j, |b|) < |Cross(a, b)| && Cross(a, b)[Place(i, j, |b|)] == a[i] + b[j]
  {
    var first, rest := Prefixed(a[0], b), Cross(a[1..], b);
    if i == 0 {
      PrefixedAt(a[0], b, j);
      assert (first + rest)[j] == first[j];
    } else {
      CrossAt(a[1..], b, i - 1, j);
      assert (first + rest)[|b| + Place(i - 1, j, |b|)] == rest[Place(i - 1, j, |b|)];
    }
  }

  lemma {:induction false} PrefixedAt(r: seq<Term>, b: Alternatives, j: nat)
    requires j < |b|
    ensures Prefixed(r, b)[j] == r + b[j]
  {
    if j > 0 {
      PrefixedAt(r, b[1..], j - 1);
    }
  }

  // ---- truth assignments -----------------------------------------------------------------

  /** What a term means when the literals with the texts `w` hold. */
  predicate HoldsTerm(t: Term, w: set<string>) {
    match t
    case Literal(text) => text in w
    case Not(u) => !HoldsTerm(u, w)
    case Paren(d) => Holds(d, w)
  }

  predicate HoldsConj(c: Conjunction, w: set<string>) {
    HoldsTerm(c.t, w) && (c.And? ==> HoldsConj(c.rest, w))
  }

  predicate Holds(d: Disjunction, w: set<string>) {
    HoldsConj(d.c, w) || (d.Or? && Holds(d.rest, w))
  }

  predicate AllHold(c: seq<Term>, w: set<string>) {
    forall j :: 0 <= j < |c| ==> HoldsTerm(c[j], w)
  }

  /** Some body of a rule holds. */
  ghost predicate OneHolds(a: Alternatives, w: set<string>) {
    exists i :: 0 <= i < |a| && AllHold(a[i], w)
  }

  /** The terms of a list that hold. */
  function True(s: seq<Term>, w: set<string>): set<Term> {
    set t | t in s && HoldsTerm(t, w)
  }

  lemma {:induction false} TermTruth(t: Term, v: set<Term>, w: set<string>)
    requires forall u :: u in TermLeaves(t) ==> (u in v <==> HoldsTerm(u, w))
    ensures TruthTerm(t, v) == HoldsTerm(t, w)
  {
    if t.Paren? {
      BodyTruth(t.d, v, w);
    } else {
      assert t in TermLeaves(t);
    }
  }

  lemma {:induction false} ConjTruth(c: Conjunction, v: set<Term>, w: set<string>)
    requires forall u :: u in ConjLeaves(c) ==> (u in v <==> HoldsTerm(u, w))
    ensures TruthConj(c, v) == HoldsConj(c, w)
  {
    TermTruth(c.t, v, w);
    if c.And? {
      ConjTruth(c.rest, v, w);
    }
  }

  lemma {:induction false} BodyTruth(d: Disjunction, v: set<Term>, w: set<string>)
    requires forall u :: u in Leaves(d) ==> (u in v <==> HoldsTerm(u, w))
    ensures Truth(d, v) == Holds(d, w)
  {
    ConjTruth(d.c, v, w);
    if d.Or? {
      BodyTruth(d.rest, v, w);
    }
  }

  lemma {:induction false} SubMembers(c: seq<Term>, s: seq<Term>)
    requires SubSequence(c, s)
    ensures forall t :: t in c ==> t in s
    decreases |s|
  {
    if s != [] {
      if c != [] && c[0] == s[0] && SubSequence(c[1..], s[1..]) {
        SubMembers(c[1..], s[1..]);
        assert forall t :: t in c ==> t == c[0] || t in c[1..];
      } else {
        SubMembers(c, s[1..]);
      }
    }
  }

  /** Alternatives made of terms on which `v` and `w` agree. */
  lemma SameTruth(a: Alternatives, s: seq<Term>, v: set<Term>, w: set<string>)
    requires forall i :: 0 <= i < |a| ==> forall t :: t in a[i] ==> t in s
    requires forall t :: t in s ==> (t in v <==> HoldsTerm(t, w))
    ensures SomeHolds(a, v) <==> OneHolds(a, w)
  {
    forall i | 0 <= i < |a|
      ensures AllIn(a[i], v) <==> AllHold(a[i], w)
    {
      assert forall j :: 0 <= j < |a[i]| ==> a[i][j] in s;
    }
  }

  lemma {:induction false} PlainConj(c: Conjunction)
    requires forall t :: t in ConjTerms(c) ==> !t.Paren?
    ensures ConjTerms(c) == ConjLeaves(c)
  {
    assert c.t in ConjTerms(c);
    if c.And? {
      assert forall t :: t in ConjTerms(c.rest) ==> t in ConjTerms(c);
      PlainConj(c.rest);
    }
  }

  lemma {:induction false} PlainLeaves(d: Disjunction)
    requires NoGroups(DisjTerms(d))
    ensures forall i :: 0 <= i < |DisjTerms(d)| ==> forall t :: t in DisjTerms(d)[i] ==> t in Leaves(d)
  {
    var a := DisjTerms(d);
    assert a[0] == ConjTerms(d.c);
    PlainConj(d.c);
    if d.Or? {
      assert forall i :: 0 < i < |a| ==> a[i] == DisjTerms(d.rest)[i - 1];
      assert forall i :: 0 <= i < |DisjTerms(d.rest)| ==> DisjTerms(d.rest)[i] == a[i + 1];
      PlainLeaves(d.rest);
    }
  }

  /** The bodies of a rule are made of the leaves of its body, if no group is left. */
  lemma BodiesTruth(toDNF: bool, body: Disjunction, v: set<Term>, w: set<string>)
    requires !(toDNF && Forks(body)) ==> NoGroups(Bodies(toDNF, body))
    requires forall t :: t in Leaves(body) ==> (t in v <==> HoldsTerm(t, w))
    ensures SomeHolds(Bodies(toDNF, body), v) <==> OneHolds(Bodies(toDNF, body), w)
  {
    var a := Bodies(toDNF, body);
    if toDNF && Forks(body) {
      SourceOrder(body);
      forall i | 0 <= i < |a|
        ensures forall t :: t in a[i] ==> t in Leaves(body)
      {
        SubMembers(a[i], Leaves(body));
      }
    } else {
      PlainLeaves(body);
    }
    SameTruth(a, Leaves(body), v, w);
  }

  // ---- assignments for given terms -------------------------------------------------------

  function TermTexts(t: Term): seq<string> {
    match t
    case Literal(text) => [text]
    case Not(u) => TermTexts(u)
    case Paren(d) => Texts(d)
  }

  function ConjTexts(c: Conjunction): seq<string> {
    TermTexts(c.t) + if c.And? then ConjTexts(c.rest) else []
  }

  /** The literals of a body, those under negations included. */
  function Texts(d: Disjunction): seq<string> {
    ConjTexts(d.c) + if d.Or? then Texts(d.rest) else []
  }

  function ListTexts(s: seq<Term>): seq<string> {
    if s == [] then [] else TermTexts(s[0]) + ListTexts(s[1..])
  }

  ghost predicate Agree(s: seq<string>, w: set<string>, w': set<string>) {
    forall x :: x in s ==> (x in w <==> x in w')
  }

  lemma {:induction false} HoldsTermLocal(t: Term, w: set<string>, w': set<string>)
    requires Agree(TermTexts(t), w, w')
    ensures HoldsTerm(t, w) == HoldsTerm(t, w')
  {
    match t
    case Literal(text) => assert text in TermTexts(t);
    case Not(u) => HoldsTermLocal(u, w, w');
    case Paren(d) => HoldsLocal(d, w, w');
  }

  lemma {:induction false} HoldsConjLocal(c: Conjunction, w: set<string>, w': set<string>)
    requires Agree(ConjTexts(c), w, w')
    ensures HoldsConj(c, w) == HoldsConj(c, w')
  {
    HoldsTermLocal(c.t, w, w');
    if c.And? {
      HoldsConjLocal(c.rest, w, w');
    }
  }

  lemma {:induction false} HoldsLocal(d: Disjunction, w: set<string>, w': set<string>)
    requires Agree(Texts(d), w, w')
    ensures Holds(d, w) == Holds(d, w')
  {
    HoldsConjLocal(d.c, w, w');
    if d.Or? {
      HoldsLocal(d.rest, w, w');
    }
  }

  lemma {:induction false} TextsOfLeaves(d: Disjunction)
    ensures ListTexts(Leaves(d)) == Texts(d)
  {
    TextsOfConj(d.c);
    if d.Or? {
      TextsOfLeaves(d.rest);
      ListTextsCat(ConjLeaves(d.c), Leaves(d.rest));
    } else {
      assert ConjLeaves(d.c) + [] == ConjLeaves(d.c) && ConjTexts(d.c) + [] == ConjTexts(d.c);
    }
  }

  lemma {:induction false} TextsOfConj(c: Conjunction)
    ensures ListTexts(ConjLeaves(c)) == ConjTexts(c)
  {
    TextsOfTerm(c.t);
    if c.And? {
      TextsOfConj(c.rest);
      ListTextsCat(TermLeaves(c.t), ConjLeaves(c.rest));
    } else {
      assert TermLeaves(c.t) + [] == TermLeaves(c.t) && TermTexts(c.t) + [] == TermTexts(c.t);
    }
  }

  lemma {:induction false} TextsOfTerm(t: Term)
    ensures ListTexts(TermLeaves(t)) == TermTexts(t)
  {
    if t.Paren? {
      TextsOfLeaves(t.d);
    } else {
      assert [t][1..] == [] && TermTexts(t) + [] == TermTexts(t);
    }
  }

  lemma {:induction false} ListTextsCat(a: seq<Term>, b: seq<Term>)
    ensures ListTexts(a + b) == ListTexts(a) + ListTexts(b)
  {
    if a == [] {
      assert a + b == b;
    } else {
      assert (a + b)[1..] == a[1..] + b;
      ListTextsCat(a[1..], b);
      assert TermTexts(a[0]) + (ListTexts(a[1..]) + ListTexts(b)) == TermTexts(a[0]) + ListTexts(a[1..]) + ListTexts(b);
    }
  }

  lemma TwoLists(a: seq<string>, b: seq<string>)
    requires NoRepeats(a + b)
    ensures NoRepeats(a) && NoRepeats(b) && forall x :: x in a ==> x !in b
  {
    var s := a + b;
    assert forall i :: 0 <= i < |a| ==> s[i] == a[i];
    assert forall i :: 0 <= i < |b| ==> s[|a| + i] == b[i];
    forall x | x in a
      ensures x !in b
    {
      var i :| 0 <= i < |a| && a[i] == x;
      assert forall j :: 0 <= j < |b| ==> b[j] != s[i];
    }
  }

  ghost predicate Within(w: set<string>, s: seq<string>) {
    forall x :: x in w ==> x in s
  }

  /** A term whose literals are all different can be made to hold, or not to hold. */
  lemma {:induction false} MakeTerm(t: Term, b: bool) returns (w: set<string>)
    requires NoRepeats(TermTexts(t))
    ensures Within(w, TermTexts(t)) && HoldsTerm(t, w) == b
  {
    match t
    case Literal(text) => w := if b then {text} else {};
    case Not(u) => w := MakeTerm(u, !b);
    case Paren(d) => w := MakeBody(d, b);
  }

  lemma {:induction false} MakeConj(c: Conjunction, b: bool) returns (w: set<string>)
    requires NoRepeats(ConjTexts(c))
    ensures Within(w, ConjTexts(c)) && HoldsConj(c, w) == b
  {
    TwoLists(TermTexts(c.t), if c.And? then ConjTexts(c.rest) else []);
    var w1 := MakeTerm(c.t, b);
    if c.And? {
      var w2 := MakeConj(c.rest, b);
      w := w1 + w2;
      HoldsTermLocal(c.t, w1, w);
      HoldsConjLocal(c.rest, w2, w);
    } else {
      w := w1;
    }
  }

  lemma {:induction false} MakeBody(d: Disjunction, b: bool) returns (w: set<string>)
    requires NoRepeats(Texts(d))
    ensures Within(w, Texts(d)) && Holds(d, w) == b
  {
    TwoLists(ConjTexts(d.c), if d.Or? then Texts(d.rest) else []);
    var w1 := MakeConj(d.c, b);
    if d.Or? {
      var w2 := MakeBody(d.rest, b);
      w := w1 + w2;
      HoldsConjLocal(d.c, w1, w);
      HoldsLocal(d.rest, w2, w);
    } else {
      w := w1;
    }
  }

  lemma {:induction false} TextIn(s: seq<Term>, t: Term, x: string)
    requires t in s && x in TermTexts(t)
    ensures x in ListTexts(s)
  {
    if s[0] != t {
      TextIn(s[1..], t, x);
    }
  }

  /** Terms whose literals are all different can be made to hold in any combination. */
  lemma {:induction false} MakeAll(s: seq<Term>, v: set<Term>) returns (w: set<string>)
    requires NoRepeats(ListTexts(s))
    ensures Within(w, ListTexts(s)) && forall t :: t in s ==> (t in v <==> HoldsTerm(t, w))
  {
    if s == [] {
      w := {};
    } else {
      TwoLists(TermTexts(s[0]), ListTexts(s[1..]));
      var w1 := MakeTerm(s[0], s[0] in v);
      var w2 := MakeAll(s[1..], v);
      w := w1 + w2;
      HoldsTermLocal(s[0], w1, w);
      forall t | t in s[1..]
        ensures t in v <==> HoldsTerm(t, w)
      {
        forall x | x in TermTexts(t)
          ensures x in w2 <==> x in w
        {
          TextIn(s[1..], t, x);
        }
        HoldsTermLocal(t, w2, w);
      }
    }
  }

  lemma {:induction false} SomeText(t: Term)
    ensures TermTexts(t) != []
  {
    match t
    case Literal(_) =>
    case Not(u) => SomeText(u);
    case Paren(d) =>
      SomeText(d.c.t);
      assert |TermTexts(d.c.t)| <= |ConjTexts(d.c)| <= |Texts(d)|;
  }

  /** Terms with different literals are different. */
  lemma {:induction false} TermsDiffer(s: seq<Term>)
    requires NoRepeats(ListTexts(s))
    ensures NoRepeats(s)
  {
    if s != [] {
      TwoLists(TermTexts(s[0]), ListTexts(s[1..]));
      TermsDiffer(s[1..]);
      SomeText(s[0]);
      var x := TermTexts(s[0])[0];
      if s[0] in s[1..] {
        TextIn(s[1..], s[0], x);
      }
      assert forall i :: 0 < i < |s| ==> s[i] == s[1..][i - 1];
    }
  }

  // ---- the main theorem ------------------------------------------------------------------

  /** A rule keeps its meaning under all truth assignments, if no distribution takes place or its
      body is faithfully read as a conjunction. */
  lemma BodiesHold(toDNF: bool, body: Disjunction, w: set<string>)
    requires toDNF && Forks(body) ==> AndFaithful(body)
    requires !(toDNF && Forks(body)) ==> NoGroups(Bodies(toDNF, body))
    ensures OneHolds(Bodies(toDNF, body), w) <==> Holds(body, w)
  {
    var v := True(Leaves(body), w);
    BodiesMean(toDNF, body, v);
    BodiesTruth(toDNF, body, v, w);
    BodyTruth(body, v, w);
  }

  /** And only then: for a body whose literals are all different, distribution preserves the meaning
      under all truth assignments if and only if the body is faithfully read as a conjunction. */
  lemma DistributionExact(body: Disjunction)
    requires Forks(body) && NoRepeats(Texts(body))
    ensures (forall w :: OneHolds(Bodies(true, body), w) <==> Holds(body, w)) <==> AndFaithful(body)
  {
    if AndFaithful(body) {
      forall w
        ensures OneHolds(Bodies(true, body), w) <==> Holds(body, w)
      {
        BodiesHold(true, body, w);
      }
    } else {
      TextsOfLeaves(body);
      TermsDiffer(Leaves(body));
      var v := RefuteAnd(body);
      var w := MakeAll(Leaves(body), v);
      AndMeans(body, v);
      BodiesTruth(true, body, v, w);
      BodyTruth(body, v, w);
      assert OneHolds(Bodies(true, body), w) != Holds(body, w);
    }
  }

  lemma OneLeaf(t: Term, v: set<Term>)
    requires t.Literal?
    ensures ConjLeaves(One(t)) == [t] && Leaves(Only(One(t))) == [t]
    ensures OrConj(One(t)) == [[t]] && OrAlts(Only(One(t))) == [[t]] && AndConj(One(t)) == [[t]]
    ensures TruthConj(One(t), v) == (t in v)
  {
    assert TermLeaves(t) == [t] && OrTerm(t) == [[t]] && TruthTerm(t, v) == (t in v);
    assert ConjLeaves(One(t)) == [t] && OrConj(One(t)) == [[t]];
  }

  lemma OneGroup(d: Disjunction, v: set<Term>)
    requires !HasCommas(d)
    ensures Leaves(Only(One(Paren(d)))) == Leaves(d)
    ensures AndAlts(Only(One(Paren(d)))) == OrAlts(d)
    ensures Truth(Only(One(Paren(d))), v) == Truth(d, v)
  {
    assert TermLeaves(Paren(d)) == Leaves(d) && AndTerm(Paren(d)) == OrAlts(d) && TruthTerm(Paren(d), v) == Truth(d, v);
    assert ConjLeaves(One(Paren(d))) == Leaves(d) && AndConj(One(Paren(d))) == OrAlts(d);
    assert TruthConj(One(Paren(d)), v) == Truth(d, v);
  }

  lemma TwoPairs(a: Term, b: Term, c: Term)
    ensures Cross([[a]], [[b], [c]]) == [[a, b], [a, c]]
  {
    assert [[a]][1..] == [] && [[b], [c]][1..] == [[c]] && [[c]][1..] == [];
    assert [a] + [b] == [a, b] && [a] + [c] == [a, c];
    assert Prefixed([a], [[c]]) == [[a, c]];
    assert Prefixed([a], [[b], [c]]) == [[a, b], [a, c]];
  }

  /** `a; (b; c)` */
  function Example(a: Term, b: Term, c: Term): Disjunction {
    Or(One(a), Only(One(Paren(Or(One(b), Only(One(c)))))))
  }

  lemma ExampleLeaves(a: Term, b: Term, c: Term, v: set<Term>)
    requires a.Literal? && b.Literal? && c.Literal?
    ensures Leaves(Example(a, b, c)) == [a, b, c]
    ensures AndAlts(Example(a, b, c)) == [[a, b], [a, c]]
    ensures Truth(Example(a, b, c), v) <==> a in v || b in v || c in v
  {
    var group := Or(One(b), Only(One(c)));
    OneLeaf(a, v);
    OneLeaf(b, v);
    OneLeaf(c, v);
    OneGroup(group, v);
    assert Leaves(group) == [b] + [c] == [b, c];
    assert [a] + [b, c] == [a, b, c];
    assert OrAlts(group) == [[b]] + [[c]] == [[b], [c]];
    assert Truth(group, v) <==> b in v || c in v;
    TwoPairs(a, b, c);
  }

  lemma ThreeTexts(a: Term, b: Term, c: Term)
    requires a.Literal? && b.Literal? && c.Literal?
    ensures ListTexts([a, b, c]) == [a.text, b.text, c.text]
  {
    assert [a, b, c][1..] == [b, c] && [b, c][1..] == [c] && [c][1..] == [];
    assert ListTexts([c]) == [c.text] && ListTexts([b, c]) == [b.text, c.text];
  }

  /** A witness: a term or a group of two.  Its bodies hold only where the first term does. */
  lemma OutsideTheFragment(a: Term, b: Term, c: Term)
    requires a.Literal? && b.Literal? && c.Literal? && a != b && b != c && a != c
    ensures var body := Example(a, b, c);
      && Forks(body) && !AndFaithful(body) && NoRepeats(Texts(body))
      && Bodies(true, body) == [[a, b], [a, c]]
      && Holds(body, {b.text}) && !OneHolds(Bodies(true, body), {b.text})
  {
    var body := Example(a, b, c);
    ExampleLeaves(a, b, c, {b});
    TextsOfLeaves(body);
    ThreeTexts(a, b, c);
    BodyTruth(body, {b}, {b.text});
    assert [a, b][0] == a && [a, c][0] == a;
  }

  // ---- how many alternatives, and in which order -----------------------------------------

  function OrTermCount(t: Term): nat {
    if t.Paren? then (if HasCommas(t.d) then AndCount(t.d) else OrCount(t.d)) else 1
  }

  function OrConjCount(c: Conjunction): nat {
    OrTermCount(c.t) + if c.And? then OrConjCount(c.rest) else 0
  }

  /** The sum over the nodes of a level. */
  function OrCount(d: Disjunction): nat {
    OrConjCount(d.c) + if d.Or? then OrCount(d.rest) else 0
  }

  function AndConjCount(c: Conjunction): nat {
    (if c.t.Paren? then OrCount(c.t.d) else 1) * if c.And? then AndConjCount(c.rest) else 1
  }

  /** The product over the nodes of a level. */
  function AndCount(d: Disjunction): nat {
    AndConjCount(d.c) * if d.Or? then AndCount(d.rest) else 1
  }

  lemma {:induction false} CrossSize(a: Alternatives, b: Alternatives)
    ensures |Cross(a, b)| == |a| * |b|
  {
    if a != [] {
      CrossSize(a[1..], b);
      assert |a| * |b| == |b| + (|a| - 1) * |b|;
    }
  }

  lemma {:induction false} OrConjSize(c: Conjunction)
    ensures |OrConj(c)| == OrConjCount(c)
  {
    if c.t.Paren? {
      AlternativesCount(c.t.d);
    }
    if c.And? {
      OrConjSize(c.rest);
    }
  }

  lemma {:induction false} AndConjSize(c: Conjunction)
    ensures |AndConj(c)| == AndConjCount(c)
  {
    if c.t.Paren? {
      AlternativesCount(c.t.d);
    }
    if c.And? {
      AndConjSize(c.rest);
      CrossSize(AndTerm(c.t), AndConj(c.rest));
    }
  }

  /** The two distributions yield exactly the sum and the product of alternatives. */
  lemma {:induction false} AlternativesCount(d: Disjunction)
    ensures |OrAlts(d)| == OrCount(d) && |AndAlts(d)| == AndCount(d)
  {
    OrConjSize(d.c);
    AndConjSize(d.c);
    if d.Or? {
      AlternativesCount(d.rest);
      CrossSize(AndConj(d.c), AndAlts(d.rest));
    }
  }

  /** `c` can be had from `s` by leaving out elements. */
  predicate SubSequence(c: seq<Term>, s: seq<Term>) {
    if c == [] then true
    else if s == [] then false
    else (c[0] == s[0] && SubSequence(c[1..], s[1..])) || SubSequence(c, s[1..])
  }

  ghost predicate InOrder(a: Alternatives, s: seq<Term>) {
    forall i :: 0 <= i < |a| ==> SubSequence(a[i], s)
  }

  lemma {:induction false} SubCat(c: seq<Term>, s: seq<Term>, d: seq<Term>, t: seq<Term>)
    requires SubSequence(c, s) && SubSequence(d, t)
    ensures SubSequence(c + d, s + t)
    decreases |s|
  {
    if s == [] {
      assert c + d == d && s + t == t;
    } else {
      assert (s + t)[1..] == s[1..] + t;
      if c != [] && c[0] == s[0] && SubSequence(c[1..], s[1..]) {
        assert (c + d)[1..] == c[1..] + d;
        SubCat(c[1..], s[1..], d, t);
      } else {
        SubCat(c, s[1..], d, t);
      }
    }
  }

  lemma InOrderCat(a: Alternatives, s: seq<Term>, b: Alternatives, t: seq<Term>)
    requires InOrder(a, s) && InOrder(b, t)
    ensures InOrder(a + b, s + t)
  {
    forall i | 0 <= i < |a + b|
      ensures SubSequence((a + b)[i], s + t)
    {
      if i < |a| {
        SubCat(a[i], s, [], t);
        assert a[i] + [] == a[i];
      } else {
        SubCat([], s, b[i - |a|], t);
        assert [] + b[i - |a|] == b[i - |a|];
      }
    }
  }

  lemma {:induction false} InOrderPrefixed(r: seq<Term>, s: seq<Term>, b: Alternatives, t: seq<Term>)
    requires SubSequence(r, s) && InOrder(b, t)
    ensures InOrder(Prefixed(r, b), s + t)
  {
    if b != [] {
      SubCat(r, s, b[0], t);
      assert InOrder(b[1..], t);
      InOrderPrefixed(r, s, b[1..], t);
    }
  }

  lemma {:induction false} InOrderCross(a: Alternatives, s: seq<Term>, b: Alternatives, t: seq<Term>)
    requires InOrder(a, s) && InOrder(b, t)
    ensures InOrder(Cross(a, b), s + t)
  {
    if a != [] {
      InOrderPrefixed(a[0], s, b, t);
      assert InOrder(a[1..], s);
      InOrderCross(a[1..], s, b, t);
    }
  }

  lemma InOrderLeaf(t: Term)
    ensures InOrder([[t]], [t])
  {
    assert [t][1..] == [] && SubSequence([t], [t]);
  }

  lemma {:induction false} OrConjInOrder(c: Conjunction)
    ensures InOrder(OrConj(c), ConjLeaves(c))
  {
    if c.t.Paren? {
      SourceOrder(c.t.d);
    } else {
      InOrderLeaf(c.t);
    }
    if c.And? {
      OrConjInOrder(c.rest);
      InOrderCat(OrTerm(c.t), TermLeaves(c.t), OrConj(c.rest), ConjLeaves(c.rest));
    } else {
      assert TermLeaves(c.t) + [] == TermLeaves(c.t);
    }
  }

  lemma {:induction false} AndConjInOrder(c: Conjunction)
    ensures InOrder(AndConj(c), ConjLeaves(c))
  {
    if c.t.Paren? {
      SourceOrder(c.t.d);
    } else {
      InOrderLeaf(c.t);
    }
    if c.And? {
      AndConjInOrder(c.rest);
      InOrderCross(AndTerm(c.t), TermLeaves(c.t), AndConj(c.rest), ConjLeaves(c.rest));
    } else {
      assert TermLeaves(c.t) + [] == TermLeaves(c.t);
    }
  }

  /** Every alternative lists its terms in source order. */
  lemma {:induction false} SourceOrder(d: Disjunction)
    ensures InOrder(OrAlts(d), Leaves(d)) && InOrder(AndAlts(d), Leaves(d))
  {
    OrConjInOrder(d.c);
    AndConjInOrder(d.c);
    if d.Or? {
      SourceOrder(d.rest);
      InOrderCat(OrConj(d.c), ConjLeaves(d.c), OrAlts(d.rest), Leaves(d.rest));
      InOrderCross(AndConj(d.c), ConjLeaves(d.c), AndAlts(d.rest), Leaves(d.rest));
    } else {
      assert ConjLeaves(d.c) + [] == ConjLeaves(d.c);
    }
  }
}
