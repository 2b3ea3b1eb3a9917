/** Action codes: what compute_action encodes, and what the driver's comparisons make of it. */
module Codes {
  import opened Grammars
  import opened Actions

  /** The bases of the code ranges; state numbers come below minShiftReduce. */
  datatype Bases = Bases(minShiftReduce: nat, errAction: nat, accAction: nat, noAction: nat, minReduce: nat)

  /** The bases while states are resorted: not yet assigned. */
  const UNSET := Bases(0, 0, 0, 0, 0)

  function FinalBases(nstate: nat, nrule: nat): Bases {
    var err := nstate + nrule;
    Bases(nstate, err, err + 1, err + 2, err + 3)
  }

  /** The types that compute_action gives a code. */
  predicate Coded(a: Action) {
    a.ty == SHIFT || a.ty == SHIFTREDUCE || a.ty == REDUCE || a.ty == ERROR || a.ty == ACCEPT
  }

  /** The state or rule that the action refers to exists. */
  predicate Refers(g: Grammar, nstate: nat, a: Action) {
    && (a.ty == SHIFT ==> a.x < nstate)
    && (a.ty == SHIFTREDUCE || a.ty == REDUCE ==> a.x < |g.rules|)
  }

  /** compute_action, when the number of state j is num[j]. */
  function ComputeAction(g: Grammar, num: seq<nat>, b: Bases, a: Action): (r: int)
    requires Refers(g, |num|, a)
    ensures r >= 0 <==> Coded(a)
  {
    match a.ty
    case SHIFT => num[a.x]
    case SHIFTREDUCE =>
      if a.sp >= g.nterminal then b.minReduce + g.rules[a.x].iRule else b.minShiftReduce + g.rules[a.x].iRule
    case REDUCE => b.minReduce + g.rules[a.x].iRule
    case ERROR => b.errAction
    case ACCEPT => b.accAction
    case _ => -1
  }

  // ---- the driver's reading of a code ----

  datatype Kind = Goes(state: nat) | GoesAndReduces(rule: nat) | SignalsError | SignalsAccept
    | Nothing | Reduces(rule: nat)

  /** The comparisons of the driver, in its order. */
  function Classify(b: Bases, nxstate: nat, nrule: nat, act: nat): Kind {
    if act >= b.minReduce then Reduces(act - b.minReduce)
    else if act < b.minShiftReduce + nrule then
      if act < nxstate then Goes(act)
        else if act >= b.minShiftReduce then GoesAndReduces(act - b.minShiftReduce) else Nothing
    else if act == b.accAction then SignalsAccept
    else if act == b.errAction then SignalsError
    else Nothing
  }

  /** The rebasing in yy_shift: what the stack holds after a shift-reduce is a pending reduction. */
  function Rebased(b: Bases, nxstate: nat, act: nat): nat
    requires b.minShiftReduce <= b.minReduce
  {
    if act >= nxstate then act + (b.minReduce - b.minShiftReduce) else act
  }

  /** What an action is meant to do; rules are named by their iRule, states by their number. After a
      reduction the shift over the left-hand side is implied, so there SHIFTREDUCE is a reduction. */
  function KindOf(g: Grammar, num: seq<nat>, a: Action): Kind
    requires Refers(g, |num|, a)
  {
    match a.ty
    case SHIFT => Goes(num[a.x])
    case SHIFTREDUCE => if a.sp >= g.nterminal then Reduces(g.rules[a.x].iRule) else GoesAndReduces(g.rules[a.x].iRule)
    case REDUCE => Reduces(g.rules[a.x].iRule)
    case ERROR => SignalsError
    case ACCEPT => SignalsAccept
    case _ => Nothing
  }

  /** The codes are read back as they were meant, so that two actions have the same code only if they
      mean the same; and the rebased code of a shift-reduce is the reduction by the same rule. */
  ghost predicate ReadBack(g: Grammar, num: seq<nat>, nxstate: nat, a: Action, a': Action) {
    && Refers(g, |num|, a) && Refers(g, |num|, a')
    && var b := FinalBases(|num|, |g.rules|); var act := ComputeAction(g, num, b, a);
      && act >= 0 && Classify(b, nxstate, |g.rules|, act) == KindOf(g, num, a)
      && (act == ComputeAction(g, num, b, a') <==> KindOf(g, num, a) == KindOf(g, num, a'))
      && (KindOf(g, num, a).GoesAndReduces? ==>
            Classify(b, nxstate, |g.rules|, Rebased(b, nxstate, act)) == Reduces(KindOf(g, num, a).rule))
      && (KindOf(g, num, a).Goes? ==> Rebased(b, nxstate, act) == act)
  }

  lemma CodesRoundTrip(g: Grammar, num: seq<nat>, nxstate: nat, a: Action, a': Action)
    requires Refers(g, |num|, a) && Refers(g, |num|, a') && Coded(a) && Coded(a') && nxstate <= |num|
    requires forall r :: 0 <= r < |g.rules| ==> g.rules[r].iRule < |g.rules|
    requires a.ty == SHIFT ==> num[a.x] < nxstate
    requires a'.ty == SHIFT ==> num[a'.x] < nxstate
    ensures ReadBack(g, num, nxstate, a, a')
  {
    Decodes(g, num, nxstate, a);
    Decodes(g, num, nxstate, a');
  }

  lemma Decodes(g: Grammar, num: seq<nat>, nxstate: nat, a: Action)
    requires Refers(g, |num|, a) && Coded(a) && nxstate <= |num|
    requires forall r :: 0 <= r < |g.rules| ==> g.rules[r].iRule < |g.rules|
    requires a.ty == SHIFT ==> num[a.x] < nxstate
    ensures var b := FinalBases(|num|, |g.rules|);
      Classify(b, nxstate, |g.rules|, ComputeAction(g, num, b, a)) == KindOf(g, num, a)
  {
  }
}
