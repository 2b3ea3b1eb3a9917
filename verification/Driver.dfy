/** The table-driven parser (lempar.c), one iteration of its main loop at a time.

Every assertion of the C code, and every read outside a table or below the stack, is an explicit
outcome here, so that "it never happens" can be stated. */
module Driver {

  /** The generated tables and the constants that go with them. */
  datatype Tables = Tables(
    nterminal: nat,
    nstate: nat,
    nxstate: nat,
    yyAction: seq<nat>,
    yyLookahead: seq<nat>,
    yyShiftOfst: seq<int>,
    yyReduceOfst: seq<int>,
    yyDefault: seq<nat>,
    ruleLhs: seq<nat>,
    ruleNRhs: seq<nat>)
  {
    function MaxShift(): int { nxstate - 1 }
    function MinShiftReduce(): nat { nstate }
    function MaxShiftReduce(): int { nstate + |ruleLhs| - 1 }
    function ErrorAction(): nat { nstate + |ruleLhs| }
    function AcceptAction(): nat { ErrorAction() + 1 }
    function NoAction(): nat { AcceptAction() + 1 }
    function MinReduce(): nat { NoAction() + 1 }
  }

  datatype Lookup = Found(act: nat) | AssertFails

  /** yy_find_shift_action, without %fallback and %wildcard. */
  function FindShiftAction(T: Tables, iLookAhead: nat, stateno: nat): Lookup {
    if stateno > T.MaxShift() then Found(stateno)
    else if stateno >= |T.yyShiftOfst| then AssertFails            // stateno <= YY_SHIFT_COUNT
    else
      var i := T.yyShiftOfst[stateno];
      if !(0 <= i <= |T.yyAction|) then AssertFails                // i>=0, i<=YY_ACTTAB_COUNT
      else if i + T.nterminal > |T.yyLookahead| then AssertFails   // i+YYNTOKEN<=YY_NLOOKAHEAD
      else if iLookAhead >= T.nterminal then AssertFails           // iLookAhead<YYNTOKEN
      else if T.yyLookahead[i + iLookAhead] != iLookAhead then
        if stateno < |T.yyDefault| then Found(T.yyDefault[stateno]) else AssertFails
      else if i + iLookAhead < |T.yyAction| then Found(T.yyAction[i + iLookAhead])
      else AssertFails
  }

  /** yy_find_reduce_action, without YYERRORSYMBOL. */
  function FindReduceAction(T: Tables, stateno: nat, iLookAhead: nat): Lookup {
    if stateno >= |T.yyReduceOfst| then AssertFails                // stateno<=YY_REDUCE_COUNT
    else
      var i := T.yyReduceOfst[stateno] + iLookAhead;
      if 0 <= i < |T.yyAction| && i < |T.yyLookahead| && T.yyLookahead[i] == iLookAhead then Found(T.yyAction[i])
      else AssertFails
  }

  /** One stack entry; stateno holds a reduce action after the shift half of a SHIFTREDUCE. */
  datatype Entry = Entry(stateno: nat, major: nat)

  /** The parser: its stack, whose last entry is yytos, and yyerrcnt. */
  datatype PState = PState(stack: seq<Entry>, errcnt: int)

  datatype Verdict = Again | TokenShifted | TokenAccepted | TokenRejected | StackOverflowed | AssertionFailed

  /** ParseInit. */
  function Init(): PState { PState([Entry(0, 0)], -1) }

  /** yy_pop_parser_stack until only the bottom entry is left. */
  function PopAll(s: PState): PState {
    if s.stack == [] then s else s.(stack := s.stack[..1])
  }

  /** yy_reduce, after the check for room when the right-hand side is empty. */
  function Reduce(T: Tables, s: PState, ruleno: nat): (PState, Verdict)
    requires ruleno < |T.ruleLhs| == |T.ruleNRhs|
  {
    var n := T.ruleNRhs[ruleno];
    if n >= |s.stack| then (s, AssertionFailed)                    // a pop below the bottom
    else
      var below := s.stack[..|s.stack| - n];
      match FindReduceAction(T, below[|below| - 1].stateno, T.ruleLhs[ruleno])
      case AssertFails => (s, AssertionFailed)
      case Found(act) =>
        if T.MaxShift() < act <= T.MaxShiftReduce() || act == T.ErrorAction() then (s, AssertionFailed)
        else (s.(stack := below + [Entry(act, T.ruleLhs[ruleno])]), Again)
  }

  /** yy_shift and the countdown of errors after it. */
  function ShiftToken(T: Tables, depth: nat, s: PState, act: nat, t: nat): (PState, Verdict) {
    if |s.stack| >= depth then (PopAll(s).(errcnt := s.errcnt - 1), StackOverflowed)
    else
      var stateno := if act > T.MaxShift() then act + (T.MinReduce() - T.MinShiftReduce()) else act;
      (PState(s.stack + [Entry(stateno, t)], s.errcnt - 1), TokenShifted)
  }

  /** One iteration of the loop in Parse, with a stack of `depth` entries. */
  function Iterate(T: Tables, depth: nat, s: PState, t: nat): (PState, Verdict) {
    if s.stack == [] then (s, AssertionFailed)
    else
      match FindShiftAction(T, t, s.stack[|s.stack| - 1].stateno)
      case AssertFails => (s, AssertionFailed)
      case Found(act) =>
        if act >= T.MinReduce() then
          var ruleno := act - T.MinReduce();
          if !(ruleno < |T.ruleLhs| == |T.ruleNRhs|) then (s, AssertionFailed)
          else if T.ruleNRhs[ruleno] == 0 && |s.stack| >= depth then (PopAll(s), StackOverflowed)
          else Reduce(T, s, ruleno)
        else if act <= T.MaxShiftReduce() then ShiftToken(T, depth, s, act, t)
        else if act == T.AcceptAction() then
          var popped := s.stack[..|s.stack| - 1];
          if |popped| != 1 then (s, AssertionFailed)               // yytos==yystack in yy_accept
          else (PState(popped, -1), TokenAccepted)
        else if act != T.ErrorAction() then (s, AssertionFailed)
        else if t == 0 then (PopAll(s).(errcnt := -1), TokenRejected)
        else (s.(errcnt := 3), TokenRejected)
  }

  /** The iteration calls yy_syntax_error. */
  predicate Reports(T: Tables, depth: nat, s: PState, t: nat) {
    Iterate(T, depth, s, t).1 == TokenRejected && s.errcnt <= 0
  }

  /** At most `fuel` iterations on one token. */
  function ParseToken(T: Tables, depth: nat, s: PState, t: nat, fuel: nat): (PState, Verdict)
    decreases fuel
  {
    if fuel == 0 then (s, Again)
    else
      var r := Iterate(T, depth, s, t);
      if r.1 == Again then ParseToken(T, depth, r.0, t, fuel - 1) else r
  }

  lemma ParseStep(T: Tables, depth: nat, s: PState, t: nat, fuel: nat)
    requires fuel > 0
    ensures ParseToken(T, depth, s, t, fuel) ==
      var r := Iterate(T, depth, s, t); if r.1 == Again then ParseToken(T, depth, r.0, t, fuel - 1) else r
  {
  }

  /** A whole run over a token sequence: the parser, the tokens left, the tokens shifted since the
      stack was last emptied, whether there has been no error and no overflow, and how it ended. */
  datatype Status = Going | Accepted | Crashed

  datatype Run = Run(s: PState, input: seq<nat>, done: seq<nat>, clean: bool, status: Status)

  function Next(T: Tables, depth: nat, k: Run): Run {
    if k.status != Going || k.input == [] then k
    else
      var t := k.input[0];
      var r := Iterate(T, depth, k.s, t);
      match r.1
      case Again => k.(s := r.0)
      case TokenShifted => Run(r.0, k.input[1..], k.done + [t], k.clean, Going)
      case TokenAccepted => k.(s := r.0, status := Accepted)
      case TokenRejected => Run(r.0, k.input[1..], if t == 0 then [] else k.done, false, Going)
      case StackOverflowed => Run(r.0, k.input[1..], [], false, Going)
      case AssertionFailed => k.(status := Crashed)
  }

  function After(T: Tables, depth: nat, k: Run, n: nat): Run
    decreases n
  {
    if n == 0 then k else After(T, depth, Next(T, depth, k), n - 1)
  }

  function Start(w: seq<nat>): Run { Run(Init(), w, [], true, Going) }

  /** One iteration overflows only on a full stack, and never leaves more entries than there is room for. */
  lemma RoomKept(T: Tables, depth: nat, s: PState, t: nat)
    requires 0 < |s.stack| <= depth
    ensures var r := Iterate(T, depth, s, t);
      0 < |r.0.stack| <= depth && (r.1 == StackOverflowed ==> |s.stack| == depth && |r.0.stack| == 1)
  {
  }

  /** So it is in whole runs, whatever the tables. */
  lemma {:induction false} StackBounded(T: Tables, depth: nat, k: Run, n: nat)
    requires 0 < |k.s.stack| <= depth
    ensures 0 < |After(T, depth, k, n).s.stack| <= depth
    decreases n
  {
    if n > 0 {
      if k.input != [] { RoomKept(T, depth, k.s, k.input[0]); }
      StackBounded(T, depth, Next(T, depth, k), n - 1);
    }
  }

  /** The parser object: a stack array of YYSTACKDEPTH entries and the index of its top. */
  class Parser {
    const T: Tables
    var yystack: array<Entry>
    var yytos: nat
    var yyerrcnt: int

    /** ParseInit. */
    constructor (T: Tables, depth: nat)
      requires depth > 0
      ensures this.T == T && yystack.Length == depth && Valid() && View() == Init() && fresh(yystack)
    {
      this.T := T;
      yystack := new Entry[depth](_ => Entry(0, 0));
      yytos := 0;
      yyerrcnt := -1;
    }

    ghost predicate Valid()
      reads this
    {
      yytos < yystack.Length
    }

    ghost function View(): PState
      requires Valid()
      reads this, yystack
    {
      PState(yystack[..yytos + 1], yyerrcnt)
    }

    method Shift(act: nat, yymajor: nat) returns (v: Verdict)
      requires Valid()
      modifies this, yystack
      ensures Valid() && yystack == old(yystack)
      ensures (View(), v) == ShiftToken(T, yystack.Length, old(View()), act, yymajor)
    {
      if yytos + 1 >= yystack.Length {
        assert yystack[..1] == yystack[..yytos + 1][..1];
        yytos, yyerrcnt := 0, yyerrcnt - 1;
        return StackOverflowed;
      }
      yytos := yytos + 1;
      yystack[yytos] := Entry(if act > T.MaxShift() then act + (T.MinReduce() - T.MinShiftReduce()) else act, yymajor);
      yyerrcnt := yyerrcnt - 1;
      assert yystack[..yytos] == old(yystack[..yytos + 1]);
      assert yystack[..yytos + 1] == yystack[..yytos] + [yystack[yytos]];
      v := TokenShifted;
    }

    method ReduceOnce(yyruleno: nat) returns (v: Verdict)
      requires Valid()
      modifies this, yystack
      ensures Valid() && yystack == old(yystack)
      ensures (View(), v) ==
        if !(yyruleno < |T.ruleLhs| == |T.ruleNRhs|) then (old(View()), AssertionFailed)
        else if T.ruleNRhs[yyruleno] == 0 && yystack.Length <= |old(View()).stack|
          then (PopAll(old(View())), StackOverflowed)
        else Reduce(T, old(View()), yyruleno)
    {
      if !(yyruleno < |T.ruleLhs| == |T.ruleNRhs|) { return AssertionFailed; }
      var n := T.ruleNRhs[yyruleno];
      if n == 0 && yytos + 1 >= yystack.Length {
        assert yystack[..1] == yystack[..yytos + 1][..1];
        yytos := 0;
        return StackOverflowed;
      }
      if n > yytos { return AssertionFailed; }
      var act := FindReduceAction(T, yystack[yytos - n].stateno, T.ruleLhs[yyruleno]);
      if act.AssertFails? || T.MaxShift() < act.act <= T.MaxShiftReduce() || act.act == T.ErrorAction() {
        return AssertionFailed;
      }
      ghost var stack := View().stack;
      assert stack[..|stack| - n] == yystack[..yytos - n + 1];
      yytos := yytos - n + 1;
      yystack[yytos] := Entry(act.act, T.ruleLhs[yyruleno]);
      assert yystack[..yytos] == stack[..|stack| - n];
      assert yystack[..yytos + 1] == yystack[..yytos] + [yystack[yytos]];
      v := Again;
    }

    /** One iteration, and whether it reports a syntax error. */
    method Once(yymajor: nat) returns (v: Verdict, reported: bool)
      requires Valid()
      modifies this, yystack
      ensures Valid() && yystack == old(yystack)
      ensures (View(), v) == Iterate(T, yystack.Length, old(View()), yymajor)
      ensures reported <==> Reports(T, yystack.Length, old(View()), yymajor)
      ensures v == Again ==> yyerrcnt == old(yyerrcnt)
    {
      reported := false;
      assert yystack[..1] == yystack[..yytos + 1][..1];
      assert yytos == 1 ==> yystack[..1] == yystack[..yytos + 1][..yytos];
      var yyact := FindShiftAction(T, yymajor, yystack[yytos].stateno);
      if yyact.AssertFails? {
        return AssertionFailed, false;
      }
      if yyact.act >= T.MinReduce() {
        v := ReduceOnce(yyact.act - T.MinReduce());
      } else if yyact.act <= T.MaxShiftReduce() {
        v := Shift(yyact.act, yymajor);
      } else if yyact.act == T.AcceptAction() {
        if yytos != 1 { return AssertionFailed, false; }
        yytos, yyerrcnt := 0, -1;
        v := TokenAccepted;
      } else if yyact.act != T.ErrorAction() {
        v := AssertionFailed;
      } else {
        reported := yyerrcnt <= 0;
        yyerrcnt := 3;
        if yymajor == 0 {
          yytos, yyerrcnt := 0, -1;
        }
        v := TokenRejected;
      }
    }

    /** The loop of Parse, cut off after `fuel` iterations. A syntax error is reported unless an earlier one is too
        recent, and reductions before it change nothing about that. */
    method Parse(yymajor: nat, fuel: nat) returns (v: Verdict, reported: bool)
      requires Valid()
      modifies this, yystack
      ensures Valid() && yystack == old(yystack)
      ensures (View(), v) == ParseToken(T, yystack.Length, old(View()), yymajor, fuel)
      ensures reported <==> v == TokenRejected && old(yyerrcnt) <= 0
    {
      v, reported := Again, false;
      var n := fuel;
      ghost var goal := ParseToken(T, yystack.Length, View(), yymajor, fuel);
      while n > 0 && v == Again
        invariant Valid() && yystack == old(yystack)
        invariant v == Again ==> yyerrcnt == old(yyerrcnt)
        invariant reported <==> v == TokenRejected && old(yyerrcnt) <= 0
        invariant goal == if v == Again then ParseToken(T, yystack.Length, View(), yymajor, n) else (View(), v)
        decreases n
      {
        ParseStep(T, yystack.Length, View(), yymajor, n);
        v, reported := Once(yymajor);
        n := n - 1;
      }
    }
  }
}
