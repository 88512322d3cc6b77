/**
  Fresh variable names of the Souffle converter (`fresh_variable` in tools/souffle_converter.py).
 */
module FreshNames {
  import opened Records

  /** The names that are tried: the prefix, then the prefix with the suffixes 0, 1, 2, ... */
  function Candidate(prefix: string, k: nat): string {
    if k == 0 then prefix else prefix + ("_" + NatText(k - 1, 10))
  }

  lemma CandidatesDiffer(prefix: string, j: nat, k: nat)
    requires j != k
    ensures Candidate(prefix, j) != Candidate(prefix, k)
  {
    if j > 0 && k > 0 {
      NatTextValue(j - 1, 10);
      NatTextValue(k - 1, 10);
      SuffixesDiffer("_", NatText(j - 1, 10), NatText(k - 1, 10));
      SuffixesDiffer(prefix, "_" + NatText(j - 1, 10), "_" + NatText(k - 1, 10));
    } else {
      assert |Candidate(prefix, if j > 0 then j else k)| > |prefix|;
    }
  }

  lemma SuffixesDiffer(p: string, a: string, b: string)
    requires a != b
    ensures p + a != p + b
  {
    assert (p + a)[|p|..] == a && (p + b)[|p|..] == b;
  }

  function Candidates(prefix: string, n: nat): (s: set<string>)
    ensures forall x :: x in s <==> exists k :: 0 <= k < n && x == Candidate(prefix, k)
  {
    if n == 0 then {} else Candidates(prefix, n - 1) + {Candidate(prefix, n - 1)}
  }

  lemma {:induction false} CandidatesCount(prefix: string, n: nat)
    ensures |Candidates(prefix, n)| == n
  {
    if n > 0 {
      CandidatesCount(prefix, n - 1);
      if Candidate(prefix, n - 1) in Candidates(prefix, n - 1) {
        var k :| 0 <= k < n - 1 && Candidate(prefix, n - 1) == Candidate(prefix, k);
        CandidatesDiffer(prefix, n - 1, k);
      }
    }
  }

  /** Only as many candidates can be in use as there are names. */
  lemma Pigeonhole(prefix: string, n: nat, names: set<string>)
    requires forall k :: 0 <= k < n ==> Candidate(prefix, k) in names
    ensures n <= |names|
  {
    CandidatesCount(prefix, n);
    Subset(Candidates(prefix, n), names);
  }

  lemma {:induction false} Subset(a: set<string>, b: set<string>)
    requires a <= b
    ensures |a| <= |b|
  {
    assert b == a + (b - a);
  }

  /** `name` is the prefix, if that is not in use; and else the prefix, an underscore and the least
      number that makes a name not in use. */
  ghost predicate FirstUnused(prefix: string, names: set<string>, name: string) {
    if prefix !in names then name == prefix
    else
      exists n: nat ::
        && name == prefix + "_" + NatText(n, 10) && name !in names
        && forall m :: 0 <= m < n ==> prefix + "_" + NatText(m, 10) in names
  }

  lemma CandidateText(prefix: string, m: nat)
    ensures Candidate(prefix, m + 1) == prefix + "_" + NatText(m, 10)
  {
  }

  lemma FirstIsUnused(prefix: string, names: set<string>, k: nat, name: string)
    requires name == Candidate(prefix, k) && name !in names
    requires forall j :: 0 <= j < k ==> Candidate(prefix, j) in names
    ensures FirstUnused(prefix, names, name)
  {
    if k > 0 {
      assert Candidate(prefix, 0) == prefix;
      CandidateText(prefix, k - 1);
      forall m | 0 <= m < k - 1
        ensures prefix + "_" + NatText(m, 10) in names
      {
        CandidateText(prefix, m);
        assert Candidate(prefix, m + 1) in names;
      }
    }
  }

  class Converter {
    var allVariables: set<string>

    constructor (names: set<string>)
      ensures allVariables == names
    {
      allVariables := names;
    }

    /** Terminates for every finite set of names, and registers what it returns. */
    method FreshVariable(prefix: string) returns (name: string)
      modifies this
      ensures FirstUnused(prefix, old(allVariables), name)
      ensures allVariables == old(allVariables) + {name}
    {
      name := prefix;
      var suffix := 0;
      while name in allVariables
        invariant allVariables == old(allVariables)
        invariant suffix >= 0 && name == Candidate(prefix, suffix)
        invariant forall j :: 0 <= j < suffix ==> Candidate(prefix, j) in allVariables
        decreases |allVariables| + 1 - suffix
      {
        Pigeonhole(prefix, suffix + 1, allVariables);
        name := prefix + "_" + NatText(suffix, 10);
        CandidateText(prefix, suffix);
        suffix := suffix + 1;
      }
      FirstIsUnused(prefix, allVariables, suffix, name);
      allVariables := allVariables + {name};
    }
  }

  /** A run of the converter: the i-th call is made when `before[i]` is registered, and afterwards
      names are only added. */
  ghost predicate IsRun(prefixes: seq<string>, before: seq<set<string>>, names: seq<string>) {
    && |prefixes| == |before| == |names|
    && (forall i :: 0 <= i < |names| ==> FirstUnused(prefixes[i], before[i], names[i]))
    && (forall i :: 0 <= i < |names| - 1 ==> before[i] + {names[i]} <= before[i + 1])
  }

  lemma {:induction false} Registered(prefixes: seq<string>, before: seq<set<string>>, names: seq<string>, i: nat,
                                      j: nat)
    requires IsRun(prefixes, before, names) && i < j < |names|
    ensures before[i] + {names[i]} <= before[j]
  {
    if i + 1 < j {
      Registered(prefixes, before, names, i, j - 1);
    }
  }

  /** The names of a run are pairwise distinct, and none was registered earlier. */
  lemma RunIsFresh(prefixes: seq<string>, before: seq<set<string>>, names: seq<string>)
    requires IsRun(prefixes, before, names)
    ensures forall i, j :: 0 <= i < j < |names| ==> names[i] != names[j]
    ensures forall i, j :: 0 <= i <= j < |names| ==> names[j] !in before[i]
  {
    forall i, j | 0 <= i < j < |names|
      ensures names[i] != names[j] && names[j] !in before[i]
    {
      Registered(prefixes, before, names, i, j);
    }
  }
}
