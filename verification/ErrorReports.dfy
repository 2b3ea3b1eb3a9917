/** Which syntax errors the parser reports: yyerrcnt over whole runs, for any tables. */
module ErrorReports {
  import opened Driver

  /** What an iteration means for the countdown: a token given to yy_shift, a token thrown away after an error, the
      end of a parse that failed or succeeded, or none of these. */
  datatype Event = Shifted | Discarded | Failed | Finished | Quiet

  /** The action for the token at hand is a shift; on a full stack the token is lost. */
  predicate Shifts(T: Tables, s: PState, t: nat) {
    && s.stack != []
    && var l := FindShiftAction(T, t, s.stack[|s.stack| - 1].stateno);
       l.Found? && l.act <= T.MaxShiftReduce()
  }

  function EventOf(T: Tables, depth: nat, k: Run): Event {
    if k.status != Going || k.input == [] then Quiet
    else if Shifts(T, k.s, k.input[0]) then Shifted
    else
      match Iterate(T, depth, k.s, k.input[0]).1
      case TokenRejected => if k.input[0] == 0 then Failed else Discarded
      case TokenAccepted => Finished
      case _ => Quiet
  }

  /** The events of n iterations. */
  function Trace(T: Tables, depth: nat, k: Run, n: nat): (tr: seq<Event>)
    ensures |tr| == n
    decreases n
  {
    if n == 0 then [] else [EventOf(T, depth, k)] + Trace(T, depth, Next(T, depth, k), n - 1)
  }

  /** Where the countdown begins anew. */
  predicate Resets(e: Event) { e == Discarded || e == Failed || e == Finished }

  /** The last such place, or -1. */
  function LastReset(tr: seq<Event>): (p: int)
    ensures -1 <= p < |tr| && (p >= 0 ==> Resets(tr[p])) && forall q :: p < q < |tr| ==> !Resets(tr[q])
  {
    if tr == [] then -1
    else if Resets(tr[|tr| - 1]) then |tr| - 1
    else LastReset(tr[..|tr| - 1])
  }

  /** An error has thrown a token away, and no parse has ended since. */
  predicate InError(tr: seq<Event>) {
    LastReset(tr) >= 0 && tr[LastReset(tr)] == Discarded
  }

  /** The tokens shifted since the countdown began anew. */
  function ShiftedSince(tr: seq<Event>): nat {
    multiset(tr[LastReset(tr) + 1..])[Shifted]
  }

  // ---- one iteration ----

  /** One event of the countdown. */
  function CountAfter(c: int, e: Event): int {
    match e
    case Shifted => c - 1
    case Discarded => 3
    case Failed => -1
    case Finished => -1
    case Quiet => c
  }

  lemma IterateCount(T: Tables, depth: nat, k: Run)
    ensures Next(T, depth, k).s.errcnt == CountAfter(k.s.errcnt, EventOf(T, depth, k))
  {
  }

  lemma FirstStep(T: Tables, depth: nat, k: Run, n: nat) returns (k': Run, e: Event)
    requires n > 0
    ensures k'.s.errcnt == CountAfter(k.s.errcnt, e)
    ensures After(T, depth, k, n) == After(T, depth, k', n - 1)
    ensures Trace(T, depth, k, n) == [e] + Trace(T, depth, k', n - 1)
  {
    k', e := Next(T, depth, k), EventOf(T, depth, k);
    IterateCount(T, depth, k);
  }

  // ---- whole runs ----

  lemma {:induction false} LastResetMore(e: Event, tr: seq<Event>)
    ensures LastReset([e] + tr) == if LastReset(tr) >= 0 then LastReset(tr) + 1 else if Resets(e) then 0 else -1
  {
    if tr != [] {
      var n := |tr| - 1;
      assert ([e] + tr)[..n + 1] == [e] + tr[..n];
      LastResetMore(e, tr[..n]);
    } else {
      assert [e] + tr == [e] && LastReset([e][..0]) == -1;
    }
  }

  lemma LaterReset(e: Event, tr: seq<Event>)
    requires LastReset(tr) >= 0
    ensures ShiftedSince([e] + tr) == ShiftedSince(tr) && InError([e] + tr) == InError(tr)
  {
    LastResetMore(e, tr);
    TailMore(e, tr, LastReset(tr) + 1);
    assert ([e] + tr)[LastReset(tr) + 1] == tr[LastReset(tr)];
  }

  lemma TailMore(e: Event, tr: seq<Event>, p: nat)
    requires p <= |tr|
    ensures ([e] + tr)[p + 1..] == tr[p..]
  {
  }

  lemma FirstReset(e: Event, tr: seq<Event>)
    requires LastReset(tr) < 0 && Resets(e)
    ensures ShiftedSince([e] + tr) == ShiftedSince(tr) && InError([e] + tr) == (e == Discarded)
  {
    LastResetMore(e, tr);
    assert ([e] + tr)[1..] == tr && tr[0..] == tr;
  }

  lemma NoReset(e: Event, tr: seq<Event>)
    requires LastReset(tr) < 0 && !Resets(e)
    ensures ShiftedSince([e] + tr) == ShiftedSince(tr) + (if e == Shifted then 1 else 0) && !InError([e] + tr)
  {
    LastResetMore(e, tr);
    WholeTail([e] + tr);
    WholeTail(tr);
    OneMore(e, tr);
  }

  lemma WholeTail(tr: seq<Event>)
    ensures tr[0..] == tr
  {
  }

  lemma OneMore(e: Event, tr: seq<Event>)
    ensures multiset([e] + tr)[Shifted] == multiset(tr)[Shifted] + if e == Shifted then 1 else 0
  {
    assert multiset([e] + tr) == multiset([e]) + multiset(tr);
  }

  /** The countdown after the events: it starts anew at 3 or -1, or it is still the one that started at c. */
  function CountFrom(c: int, tr: seq<Event>): int {
    Level(c, InError(tr), LastReset(tr) >= 0, ShiftedSince(tr))
  }

  function Level(c: int, inError: bool, reset: bool, shifted: nat): int {
    (if inError then 3 else if reset then -1 else c) - shifted
  }

  lemma CountNone(c: int)
    ensures CountFrom(c, []) == c
  {
    var none: seq<Event> := [];
    assert none[0..] == none;
  }

  lemma CountMore(c: int, all: seq<Event>)
    requires all != []
    ensures CountFrom(c, all) == CountFrom(CountAfter(c, all[0]), all[1..])
  {
    var e, tr := all[0], all[1..];
    EventMore(e, tr, all);
    LevelMore(c, e, InError(tr), LastReset(tr) >= 0, ShiftedSince(tr), InError(all), LastReset(all) >= 0,
      ShiftedSince(all));
  }

  lemma EventMore(e: Event, tr: seq<Event>, all: seq<Event>)
    requires all == [e] + tr
    ensures Step(e, InError(tr), LastReset(tr) >= 0, ShiftedSince(tr), InError(all), LastReset(all) >= 0,
      ShiftedSince(all))
  {
    LastResetMore(e, tr);
    if LastReset(tr) >= 0 {
      LaterReset(e, tr);
    } else if Resets(e) {
      FirstReset(e, tr);
    } else {
      NoReset(e, tr);
    }
  }

  /** What an event at the beginning changes. */
  predicate Step(e: Event, inError: bool, reset: bool, shifted: nat, inError': bool, reset': bool, shifted': nat) {
    if reset then inError' == inError && reset' && shifted' == shifted
    else if Resets(e) then inError' == (e == Discarded) && reset' && shifted' == shifted
    else !inError' && !reset' && shifted' == shifted + if e == Shifted then 1 else 0
  }

  lemma LevelMore(c: int, e: Event, inError: bool, reset: bool, shifted: nat, inError': bool, reset': bool,
          shifted': nat)
    requires Step(e, inError, reset, shifted, inError', reset', shifted') && (inError ==> reset)
    ensures Level(c, inError', reset', shifted') == Level(CountAfter(c, e), inError, reset, shifted)
  {
  }

  /** One event after the other. */
  function CountAll(c: int, tr: seq<Event>): int
    decreases |tr|
  {
    if tr == [] then c else CountAll(CountAfter(c, tr[0]), tr[1..])
  }

  lemma {:induction false} CountClosed(c: int, tr: seq<Event>)
    ensures CountAll(c, tr) == CountFrom(c, tr)
    decreases |tr|
  {
    if tr == [] {
      CountNone(c);
    } else {
      CountMore(c, tr);
      CountClosed(CountAfter(c, tr[0]), tr[1..]);
    }
  }

  lemma {:induction false} Countdown(T: Tables, depth: nat, k: Run, n: nat)
    ensures After(T, depth, k, n).s.errcnt == CountAll(k.s.errcnt, Trace(T, depth, k, n))
    decreases n
  {
    if n > 0 {
      var k', e := FirstStep(T, depth, k, n);
      Countdown(T, depth, k', n - 1);
      assert ([e] + Trace(T, depth, k', n - 1))[1..] == Trace(T, depth, k', n - 1);
    }
  }

  /** In every run yyerrcnt is 3 less the tokens shifted since the last error; without an error since the last parse
      ended it is -1 less the tokens shifted. So it is positive exactly after an error that fewer than three shifted
      tokens follow. */
  lemma CountdownExact(T: Tables, depth: nat, w: seq<nat>, n: nat)
    ensures var tr, c := Trace(T, depth, Start(w), n), After(T, depth, Start(w), n).s.errcnt;
      && (InError(tr) ==> c == 3 - ShiftedSince(tr))
      && (!InError(tr) ==> c == -1 - ShiftedSince(tr))
      && (c > 0 <==> InError(tr) && ShiftedSince(tr) < 3)
  {
    Countdown(T, depth, Start(w), n);
    CountClosed(-1, Trace(T, depth, Start(w), n));
  }

  /** The error that comes next in a run is reported exactly if there was none since the run began or a parse ended,
      or if at least three tokens have been shifted since the last one. */
  lemma ReportedExactly(T: Tables, depth: nat, w: seq<nat>, n: nat)
    ensures var tr, k := Trace(T, depth, Start(w), n), After(T, depth, Start(w), n);
      k.status == Going && k.input != [] && Iterate(T, depth, k.s, k.input[0]).1 == TokenRejected ==>
        (Reports(T, depth, k.s, k.input[0]) <==> !InError(tr) || ShiftedSince(tr) >= 3)
  {
    CountdownExact(T, depth, w, n);
  }
}
