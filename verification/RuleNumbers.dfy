/** The numbers that rules have in the generated tables: rules with code first, then the others, each
in the order of the grammar. */
module RuleNumbers {

  /** How many of the first n rules have code. */
  function Coded(hasCode: seq<bool>, n: nat): (c: nat)
    requires n <= |hasCode|
    ensures c <= n
  {
    if n == 0 then 0 else Coded(hasCode, n - 1) + if hasCode[n - 1] then 1 else 0
  }

  lemma {:induction false} CodedMono(hasCode: seq<bool>, m: nat, n: nat)
    requires m <= n <= |hasCode|
    ensures Coded(hasCode, m) <= Coded(hasCode, n) && Coded(hasCode, n) - Coded(hasCode, m) <= n - m
  {
    if m < n { CodedMono(hasCode, m, n - 1); }
  }

  /** The number of rule r. */
  function Number(hasCode: seq<bool>, r: nat): nat
    requires r < |hasCode|
  {
    if hasCode[r] then Coded(hasCode, r) else Coded(hasCode, |hasCode|) + (r - Coded(hasCode, r))
  }

  /** No two rules share a number, all numbers are below the number of rules, and exactly the rules
      with code are below nruleWithAction. */
  lemma NumbersDiffer(hasCode: seq<bool>, r: nat, s: nat)
    requires r < |hasCode| && s < |hasCode|
    ensures Number(hasCode, r) < |hasCode|
    ensures hasCode[r] <==> Number(hasCode, r) < Coded(hasCode, |hasCode|)
    ensures Number(hasCode, r) == Number(hasCode, s) <==> r == s
  {
    CodedMono(hasCode, r + 1, |hasCode|);
    CodedMono(hasCode, s + 1, |hasCode|);
    if r < s { CodedMono(hasCode, r + 1, s); }
    if s < r { CodedMono(hasCode, s + 1, r); }
  }

  /** Rules with code come before those without, and otherwise the numbers keep the order of the grammar. */
  lemma NumbersOrdered(hasCode: seq<bool>, r: nat, s: nat)
    requires r < |hasCode| && s < |hasCode|
    ensures Number(hasCode, r) < Number(hasCode, s) <==>
      (hasCode[r] && !hasCode[s]) || (hasCode[r] == hasCode[s] && r < s)
  {
    CodedMono(hasCode, r + 1, |hasCode|);
    CodedMono(hasCode, s + 1, |hasCode|);
    if r < s { CodedMono(hasCode, r + 1, s); }
    if s < r { CodedMono(hasCode, s + 1, r); }
  }

  /** The two loops in main that assign the numbers. */
  method AssignNumbers(hasCode: seq<bool>) returns (iRule: seq<int>, nruleWithAction: nat)
    ensures |iRule| == |hasCode| && nruleWithAction == Coded(hasCode, |hasCode|)
    ensures forall r :: 0 <= r < |hasCode| ==> iRule[r] == Number(hasCode, r)
  {
    var first;
    first, nruleWithAction := NumberCoded(hasCode);
    var i := nruleWithAction;
    iRule := [];
    for r := 0 to |hasCode|
      invariant i == nruleWithAction + (r - Coded(hasCode, r))
      invariant |iRule| == r && forall q :: 0 <= q < r ==> iRule[q] == Number(hasCode, q)
    {
      if first[r] < 0 {
        iRule := iRule + [i];
        i := i + 1;
      } else {
        iRule := iRule + [first[r]];
      }
    }
  }

  /** The first loop: rules without code are left at -1. */
  method NumberCoded(hasCode: seq<bool>) returns (iRule: seq<int>, i: nat)
    ensures |iRule| == |hasCode| && i == Coded(hasCode, |hasCode|)
    ensures forall r :: 0 <= r < |hasCode| ==> iRule[r] == if hasCode[r] then Number(hasCode, r) else -1
  {
    i := 0;
    iRule := [];
    for r := 0 to |hasCode|
      invariant i == Coded(hasCode, r)
      invariant |iRule| == r && forall q :: 0 <= q < r ==> iRule[q] == if hasCode[q] then Number(hasCode, q) else -1
    {
      if hasCode[r] {
        iRule := iRule + [i];
        i := i + 1;
      } else {
        iRule := iRule + [-1];
      }
    }
  }
}
