/** Whole runs of the table-driven parser over any token sequence: it never crashes, what it accepts is
a sentence, and without conflicts it accepts every sentence when its stack is deep enough. */
module ParserRuns {
  import opened Grammars
  import opened Automata
  import opened Machine
  import opened Seals
  import Lalr
  import opened Simulation
  import D = Driver

  /** Between two iterations: the stack stands for a path that derives the tokens kept so far, or the
      start symbol has just been recognised; after accepting, only the bottom entry is left. */
  ghost predicate Tracks(x: Ctx, w: seq<nat>, k: D.Run, path: seq<nat>) {
    && 0 !in k.done && AllTerminal(x.g, k.input) && (k.clean ==> k.done + k.input == w)
    && match k.status
       case Going =>
         || (Rel(x, k.s, path) && Derives(x.g, path, k.done))
         || (Accepting(x, k.s) && AtEnd(x.g, k))
       case Accepted => |k.s.stack| == 1 && k.s.stack[0].stateno == 0 && AtEnd(x.g, k)
       case Crashed => false
  }

  ghost predicate AtEnd(g: Grammar, k: D.Run) {
    k.input != [] && k.input[0] == 0 && Derives(g, [g.start], k.done)
  }

  /** The machine's invariant, carried over the steps of one iteration. */
  lemma MachineKeeps(x: Ctx, path: seq<nat>, done: seq<nat>, input: seq<nat>, n: nat, k': Conf)
    returns (done': seq<nat>)
    requires Ready(x) && Live(x.states, path) && Derives(x.g, path, done) && 0 !in done && AllTerminal(x.g, input)
    requires Reaches(x.g, x.states, x.dec, Running(path, input), n, k')
    ensures Inv(x.g, x.states, done', k') && Splits(done + input, done', k')
  {
    assert Open(x);
    done' := RunInv(x.g, x.states, x.dec, done, Running(path, input), n);
    RunReaches(x.g, x.states, x.dec, Running(path, input), n, k');
  }

  lemma SameLeft(a: seq<nat>, b: seq<nat>, c: seq<nat>)
    requires a + c == b + c
    ensures a == b
  {
    assert |a| == |b|;
    assert forall i :: 0 <= i < |a| ==> a[i] == (a + c)[i];
    assert forall i :: 0 <= i < |b| ==> b[i] == (b + c)[i];
  }

  lemma TracksAgain(x: Ctx, w: seq<nat>, k: D.Run, path: seq<nat>, t: nat, rest: seq<nat>, path': seq<nat>, n: nat)
    requires Ready(x) && Tracks(x, w, k, path) && k.status == D.Going && Rel(x, k.s, path) && Derives(x.g, path, k.done)
    requires k.input == [t] + rest && Reaches(x.g, x.states, x.dec, Running(path, k.input), n, Running(path', k.input))
    ensures Derives(x.g, path', k.done)
  {
    var done' := MachineKeeps(x, path, k.done, k.input, n, Running(path', k.input));
    SameLeft(k.done, done', k.input);
  }

  lemma TracksAccept(x: Ctx, w: seq<nat>, k: D.Run, path: seq<nat>, t: nat, rest: seq<nat>, n: nat)
    requires Ready(x) && Tracks(x, w, k, path) && k.status == D.Going && Rel(x, k.s, path) && Derives(x.g, path, k.done)
    requires k.input == [t] + rest
    requires Reaches(x.g, x.states, x.dec, Running(path, k.input), n, Machine.Accepted(k.input))
    ensures AtEnd(x.g, k)
  {
    var done' := MachineKeeps(x, path, k.done, k.input, n, Machine.Accepted(k.input));
    SameLeft(k.done, done', k.input);
  }

  lemma TracksShift(x: Ctx, w: seq<nat>, k: D.Run, path: seq<nat>, t: nat, rest: seq<nat>, path': seq<nat>)
    requires Ready(x) && Tracks(x, w, k, path) && k.status == D.Going && Rel(x, k.s, path) && Derives(x.g, path, k.done)
    requires k.input == [t] + rest && Reaches(x.g, x.states, x.dec, Running(path, k.input), 1, Running(path', rest))
    ensures Derives(x.g, path', k.done + [t]) && 0 !in k.done + [t] && (k.done + [t]) + rest == k.done + k.input
  {
    var done' := MachineKeeps(x, path, k.done, k.input, 1, Running(path', rest));
    assert (k.done + [t]) + rest == k.done + k.input;
    SameLeft(k.done + [t], done', rest);
  }

  /** Every iteration keeps the invariant, whatever the token: no assertion of the driver fails. */
  lemma NextTracks(x: Ctx, depth: nat, w: seq<nat>, k: D.Run, path: seq<nat>) returns (path': seq<nat>)
    requires Ready(x) && Tracks(x, w, k, path)
    ensures Tracks(x, w, D.Next(x.T, depth, k), path')
  {
    path' := path;
    if k.status == D.Going && k.input != [] {
      if Accepting(x, k.s) && AtEnd(x.g, k) {
        AcceptNow(x, depth, k.s, k.input[0]);
      } else {
        path' := NextRel(x, depth, w, k, path);
      }
    }
  }

  lemma NextRel(x: Ctx, depth: nat, w: seq<nat>, k: D.Run, path: seq<nat>) returns (path': seq<nat>)
    requires Ready(x) && Tracks(x, w, k, path) && k.status == D.Going && k.input != []
    requires Rel(x, k.s, path) && Derives(x.g, path, k.done)
    ensures Tracks(x, w, D.Next(x.T, depth, k), path')
  {
    var t, rest := k.input[0], k.input[1..];
    assert k.input == [t] + rest;
    var n;
    path', n := SimStep(x, depth, k.s, path, t, rest);
    var r := D.Iterate(x.T, depth, k.s, t);
    match r.1 {
      case Again =>
        if Rel(x, r.0, path') && Reaches(x.g, x.states, x.dec, Running(path, k.input), n, Running(path', k.input)) {
          TracksAgain(x, w, k, path, t, rest, path', n);
        } else {
          TracksAccept(x, w, k, path, t, rest, n);
        }
      case TokenShifted => TracksShift(x, w, k, path, t, rest, path');
      case TokenRejected => DerivesRefl(x.g, []);
      case StackOverflowed => DerivesRefl(x.g, []);
    }
  }

  lemma {:induction false} AfterTracks(x: Ctx, depth: nat, w: seq<nat>, k: D.Run, path: seq<nat>, n: nat)
    returns (path': seq<nat>)
    requires Ready(x) && Tracks(x, w, k, path)
    ensures Tracks(x, w, D.After(x.T, depth, k, n), path')
    decreases n
  {
    path' := path;
    if n > 0 {
      path' := NextTracks(x, depth, w, k, path);
      path' := AfterTracks(x, depth, w, D.Next(x.T, depth, k), path', n - 1);
    }
  }

  lemma StartTracks(x: Ctx, w: seq<nat>)
    requires Ready(x) && AllTerminal(x.g, w)
    ensures Tracks(x, w, D.Start(w), [])
  {
    RelInit(x);
    DerivesRefl(x.g, []);
    assert [] + w == w;
  }

  /** What holds of any point of a run over w: no assertion has failed, and nothing was popped below
      the bottom; on accepting, the stack is exactly its bottom entry, the token at hand is $, and the
      tokens kept since the stack was last emptied are a sentence; without any error or overflow these
      are all the tokens before the $. */
  ghost predicate SoundRun(g: Grammar, w: seq<nat>, k: D.Run) {
    && k.status != D.Crashed && 0 !in k.done
    && (k.status == D.Accepted ==>
          && |k.s.stack| == 1 && k.input != [] && k.input[0] == 0
          && Derives(g, [g.start], k.done)
          && (k.clean ==> w == k.done + k.input))
  }

  /** Safety and soundness of the generated parser, for every token sequence, valid or not, every stack
      depth and every number of iterations. */
  lemma DriverSound(x: Ctx, depth: nat, w: seq<nat>, n: nat)
    requires Ready(x) && AllTerminal(x.g, w)
    ensures SoundRun(x.g, w, D.After(x.T, depth, D.Start(w), n))
  {
    StartTracks(x, w);
    var path := AfterTracks(x, depth, w, D.Start(w), [], n);
  }

  // ---- completeness ----

  lemma {:induction false} ReachesSplit(x: Ctx, k: Conf, n: nat, k': Conf, m: nat, k'': Conf)
    requires n <= m && Reaches(x.g, x.states, x.dec, k, n, k') && Reaches(x.g, x.states, x.dec, k, m, k'')
    ensures Reaches(x.g, x.states, x.dec, k', m - n, k'')
    decreases n
  {
    if n > 0 {
      ReachesSplit(x, Step1(x.g, x.states, x.dec, k), n - 1, k', m - 1, k'');
    }
  }

  /** A configuration that a step does not change is never left. */
  lemma {:induction false} Stays(x: Ctx, k: Conf, n: nat, k': Conf)
    requires Step1(x.g, x.states, x.dec, k) == k && Reaches(x.g, x.states, x.dec, k, n, k')
    ensures k' == k
    decreases n
  {
    if n > 0 { Stays(x, k, n - 1, k'); }
  }

  /** What is reached on the way to acceptance is reached before it, unless it is acceptance. */
  lemma OnTheWay(x: Ctx, k: Conf, n: nat, k': Conf, m: nat, z: seq<nat>)
    requires Reaches(x.g, x.states, x.dec, k, n, k') && Reaches(x.g, x.states, x.dec, k, m, Machine.Accepted(z))
    ensures k' == Machine.Accepted(z) || (n <= m && Reaches(x.g, x.states, x.dec, k', m - n, Machine.Accepted(z)))
  {
    if n <= m {
      ReachesSplit(x, k, n, k', m, Machine.Accepted(z));
    } else {
      ReachesSplit(x, k, m, Machine.Accepted(z), n, k');
      Stays(x, Machine.Accepted(z), n - m, k');
    }
  }

  /** The run has ended in acceptance, without an error, with z left. */
  ghost predicate Succeeds(T: D.Tables, depth: nat, k: D.Run, m: nat, z: seq<nat>) {
    var e := D.After(T, depth, k, m);
    e.status == D.Accepted && e.clean && e.input == z
  }

  lemma SucceedsLater(T: D.Tables, depth: nat, k: D.Run, m: nat, z: seq<nat>)
    requires Succeeds(T, depth, D.Next(T, depth, k), m, z)
    ensures Succeeds(T, depth, k, m + 1, z)
  {
  }

  /** What the driver does while the machine is on its way to acceptance: it follows it. */
  lemma {:induction false} Follow(x: Ctx, depth: nat, k: D.Run, path: seq<nat>, n: nat, z: seq<nat>) returns (m: nat)
    requires Ready(x) && Rel(x, k.s, path) && k.status == D.Going && k.clean && AllTerminal(x.g, k.input)
    requires Reaches(x.g, x.states, x.dec, Running(path, k.input), n, Machine.Accepted(z)) && depth >= |path| + n + 2
    ensures Succeeds(x.T, depth, k, m, z)
    decreases n, 1
  {
    if k.input == [] {
      Stays(x, Running(path, []), n, Machine.Accepted(z));
      assert false;
    }
    var t, rest := k.input[0], k.input[1..];
    assert k.input == [t] + rest;
    var path', c := SimStep(x, depth, k.s, path, t, rest);
    var r := D.Iterate(x.T, depth, k.s, t);
    match r.1 {
      case Again =>
        if Rel(x, r.0, path') && c > 0 && |path'| <= |path| + 1
            && Reaches(x.g, x.states, x.dec, Running(path, k.input), c, Running(path', k.input)) {
          m := FollowOn(x, depth, k, path, c, path', n, z);
        } else {
          m := FollowAccept(x, depth, k, path, c, n, z);
        }
      case TokenShifted =>
        m := FollowOn(x, depth, k, path, 1, path', n, z);
      case TokenRejected =>
        NotRejected(x, path, k.input, n, z);
        assert false;
    }
  }

  /** One iteration that takes the machine c steps further. */
  lemma {:induction false} FollowOn(x: Ctx, depth: nat, k: D.Run, path: seq<nat>, c: nat, path': seq<nat>, n: nat,
          z: seq<nat>)
    returns (m: nat)
    requires var k' := D.Next(x.T, depth, k);
      && Ready(x) && Rel(x, k'.s, path') && k'.status == D.Going && k'.clean && AllTerminal(x.g, k'.input)
      && c > 0 && |path'| <= |path| + 1
      && Reaches(x.g, x.states, x.dec, Running(path, k.input), c, Running(path', k'.input))
    requires Reaches(x.g, x.states, x.dec, Running(path, k.input), n, Machine.Accepted(z)) && depth >= |path| + n + 2
    ensures Succeeds(x.T, depth, k, m, z)
    decreases n, 0
  {
    var k' := D.Next(x.T, depth, k);
    OnTheWay(x, Running(path, k.input), c, Running(path', k'.input), n, z);
    m := Follow(x, depth, k', path', n - c, z);
    SucceedsLater(x.T, depth, k, m, z);
    m := m + 1;
  }

  lemma NotRejected(x: Ctx, path: seq<nat>, input: seq<nat>, n: nat, z: seq<nat>)
    requires Reaches(x.g, x.states, x.dec, Running(path, input), n, Machine.Accepted(z))
    ensures Step1(x.g, x.states, x.dec, Running(path, input)) != Rejected
  {
    var k := Running(path, input);
    if Step1(x.g, x.states, x.dec, k) == Rejected && n > 0 {
      Stays(x, Rejected, n - 1, Machine.Accepted(z));
    }
  }

  lemma FollowAccept(x: Ctx, depth: nat, k: D.Run, path: seq<nat>, c: nat, n: nat, z: seq<nat>) returns (m: nat)
    requires Ready(x) && k.status == D.Going && k.clean && k.input != []
    requires D.Iterate(x.T, depth, k.s, k.input[0]).1 == D.Again
    requires Accepting(x, D.Iterate(x.T, depth, k.s, k.input[0]).0)
    requires Reaches(x.g, x.states, x.dec, Running(path, k.input), c, Machine.Accepted(k.input))
    requires Reaches(x.g, x.states, x.dec, Running(path, k.input), n, Machine.Accepted(z))
    ensures Succeeds(x.T, depth, k, m, z)
  {
    OnTheWay(x, Running(path, k.input), c, Machine.Accepted(k.input), n, z);
    if c <= n && Reaches(x.g, x.states, x.dec, Machine.Accepted(k.input), n - c, Machine.Accepted(z)) {
      Stays(x, Machine.Accepted(k.input), n - c, Machine.Accepted(z));
    }
    var k' := D.Next(x.T, depth, k);
    AcceptNow(x, depth, k'.s, k'.input[0]);
    var k'' := D.Next(x.T, depth, k');
    assert Succeeds(x.T, depth, k'', 0, z);
    SucceedsLater(x.T, depth, k', 0, z);
    SucceedsLater(x.T, depth, k, 1, z);
    m := 2;
  }

  /** With a stack of `depth` entries, the tokens are accepted without error, with z left. */
  ghost predicate AcceptsAt(T: D.Tables, depth: nat, tokens: seq<nat>, z: seq<nat>) {
    exists m: nat :: Succeeds(T, depth, D.Start(tokens), m, z)
  }

  /** Completeness: every sentence followed by $ is accepted, when the stack is deep enough. */
  lemma DriverComplete(x: Ctx, fws: map<Lalr.Node, set<nat>>, w: seq<nat>, z: seq<nat>) returns (need: nat)
    requires Ready(x) && Prepared(Machine.Parser(x.g, x.states, fws, x.dec))
    requires Derives(x.g, [x.g.start], w) && AllTerminal(x.g, w + ([0] + z))
    ensures forall depth: nat :: depth >= need ==> AcceptsAt(x.T, depth, w + ([0] + z), [0] + z)
  {
    var input := w + ([0] + z);
    assert forall i :: 0 <= i < |w| ==> w[i] == input[i];
    var n := Machine.Completeness(Machine.Parser(x.g, x.states, fws, x.dec), w, z);
    RunReaches(x.g, x.states, x.dec, Running([], input), n, Machine.Accepted([0] + z));
    need := n + 2;
    RelInit(x);
    forall depth: nat | depth >= need ensures AcceptsAt(x.T, depth, input, [0] + z) {
      var m := Follow(x, depth, D.Start(input), [], n, [0] + z);
    }
  }

  /** The parser accepts w, without error, given a deep enough stack. */
  ghost predicate Accepts(T: D.Tables, w: seq<nat>) {
    exists depth: nat :: AcceptsAt(T, depth, w + [0], [0])
  }

  /** The language of the generated parser is exactly the language of the grammar. */
  lemma DriverExact(x: Ctx, fws: map<Lalr.Node, set<nat>>, w: seq<nat>)
    requires Ready(x) && Prepared(Machine.Parser(x.g, x.states, fws, x.dec))
    requires AllTerminal(x.g, w)
    ensures Accepts(x.T, w) <==> Derives(x.g, [x.g.start], w)
  {
    assert x.g.Valid();
    if Accepts(x.T, w) {
      var depth: nat :| AcceptsAt(x.T, depth, w + [0], [0]);
      var m: nat :| Succeeds(x.T, depth, D.Start(w + [0]), m, [0]);
      DriverSound(x, depth, w + [0], m);
      SameLeft(w, D.After(x.T, depth, D.Start(w + [0]), m).done, [0]);
    }
    if Derives(x.g, [x.g.start], w) {
      assert w + ([0] + []) == w + [0] && [0] + [] == [0];
      var need := DriverComplete(x, fws, w, []);
      assert AcceptsAt(x.T, need, w + [0], [0]);
    }
  }
}
