/** A sequence of rows whose last one cannot be read: the search for a hole runs to its bound, and something is
visible at the offset that is left. */
module PackingLimit {
  import opened Acttab
  import opened Seals

  const NSYMBOL: nat := 10
  const NTERMINAL: nat := 1

  /** The table after q rows of one entry each, all on nonterminal 1. */
  function Full(q: nat): Stage {
    if q == 0 then Stage([], 0) else Stage(seq(31, k => if 0 <= k < q then Slot(1, k) else EMPTY), q)
  }

  function Row(q: nat): seq<Slot> { [Slot(1, q)] }

  const LAST: seq<Slot> := [Slot(9, 99)]

  lemma RowEnds(q: nat)
    ensures Row(q)[0] == Slot(1, q) && IsMin(Row(q), 1) && IsMax(Row(q), 1)
  {
    assert Row(q)[0].lookahead == 1;
  }

  lemma LastEnds()
    ensures LAST[0] == Slot(9, 99) && IsMin(LAST, 9) && IsMax(LAST, 9)
  {
    assert LAST[0].lookahead == 9;
  }

  /** The table in which row q is placed. */
  function Room(q: nat): seq<Slot> { Grown(Full(q).slots, q, NSYMBOL) }

  lemma RoomIs(q: nat)
    requires q < 20
    ensures |Room(q)| == 31 && forall k :: 0 <= k < 31 ==> Room(q)[k] == if k < q then Slot(1, k) else EMPTY
  {
  }

  lemma RowChosen(q: nat)
    requires q < 19
    ensures Chosen(Room(q), q, Row(q), 1, 1, 0, q - 1, true)
  {
    RoomIs(q);
    RowEnds(q);
    var tab := Room(q);
    forall o | -1 <= o < q - 1 ensures !Matches(tab, q, o, Row(q)) && !Fits(tab, q, o, Row(q)) {
      assert tab[o + 1] == Slot(1, o + 1);
    }
    assert Fits(tab, q, q - 1, Row(q));
  }

  /** The rows go into the table one after the other. */
  lemma RowInserted(q: nat)
    requires q < 19
    ensures Inserts(NSYMBOL, NTERMINAL, Full(q), Row(q), 1, 1, false, q - 1, true, Full(q + 1))
  {
    RoomIs(q);
    RowEnds(q);
    RowChosen(q);
    var w := Written(Room(q), q - 1, Row(q), 1);
    assert w == Written(Room(q), q - 1, Row(q), 0)[q := Slot(1, q)];
    assert w == Full(q + 1).slots;
    assert Places(NSYMBOL, Full(q), Row(q), 1, 1, false, q - 1, true, Stage(w, q + 1));
  }

  lemma LastChosen()
    ensures Chosen(Room(19), 19, LAST, 9, 9, 0, 13, false)
  {
    RoomIs(19);
    LastEnds();
    var tab := Room(19);
    forall o | -9 <= o < 10 ensures !Matches(tab, 19, o, LAST) {
      assert tab[o + 9] != LAST[0];
    }
    forall o | -9 <= o < 13 ensures !Fits(tab, 19, o, LAST) {
      if o < 10 {
        assert tab[o + 9].lookahead == 1;
      } else {
        assert tab[o + 1].lookahead == (o + 1) - o;
      }
    }
  }

  /** After nineteen of them, the last row is written where another row is visible, and cannot be read. */
  lemma LastLost()
    ensures var s := Stage(Room(19)[22 := Slot(9, 99)], 23);
      && Inserts(NSYMBOL, NTERMINAL, Full(19), LAST, 9, 9, false, 13, false, s)
      && !Clear(Full(19).slots, 13) && !Holds(s.slots, 13, LAST)
  {
    RoomIs(19);
    LastEnds();
    LastChosen();
    var s := Stage(Room(19)[22 := Slot(9, 99)], 23);
    assert s.slots == Written(Room(19), 13, LAST, 0)[13 + LAST[0].lookahead := LAST[0]]
      == Written(Room(19), 13, LAST, 1);
    assert Places(NSYMBOL, Full(19), LAST, 9, 9, false, 13, false, s);
    assert Visible(Full(19).slots, 14, 13) && Visible(s.slots, 14, 13);
    assert !HasEntry(LAST, 14 - 13);
  }

  // ---- past the allocation ----

  const TOKENS: nat := 30
  const LONE: seq<Slot> := [Slot(29, 5)]

  /** With thirty terminals and one nonterminal, a first row on the last terminal alone is padded past the
      allocation. */
  lemma LonePast()
    ensures var s := Stage(Grown([], 0, 31)[29 := Slot(29, 5)], 60);
      Inserts(31, TOKENS, Stage([], 0), LONE, 29, 29, true, 0, false, s) && s.nAction > |s.slots| == 52
  {
    var g := Grown([], 0, 31);
    var s := Stage(g[29 := Slot(29, 5)], 60);
    assert LONE[0] == Slot(29, 5) && LONE[0].lookahead == 29;
    assert IsMin(LONE, 29) && IsMax(LONE, 29);
    assert Chosen(g, 0, LONE, 29, 29, 29, 0, false);
    assert s.slots == Written(g, 0, LONE, 0)[0 + LONE[0].lookahead := LONE[0]] == Written(g, 0, LONE, 1);
    assert Places(31, Stage([], 0), LONE, 29, 29, true, 0, false, Stage(s.slots, 30));
  }
}
