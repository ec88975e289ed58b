/**
 * The session protocol of src/ftp.c as data: event codes, states and the
 * constant transition table `stt` driven by the engine of module Fsm.
 */
module FtpProto {
  import opened Wrappers
  import opened Fsm

  // Event codes.
  const E_OPEN: int := 0
  const E_RECV: int := 1
  const E_TIMEOUT: int := 2
  const C_USER: int := 3
  const C_PASS: int := 4

  // States.
  const S_IDLE: int := 0
  const S_WAIT_USER: int := 1
  const S_WAIT_PASS: int := 2
  const S_OPEN: int := 3

  /** on_open: writes the reply "200 command successful." and returns write's byte count (or its error). */
  const ON_OPEN: ActionName := "on_open"

  /** stt: one list per state, each ending with a default entry that keeps the state. */
  const Stt: Table := [
    /* S_IDLE */      [Trans(E_OPEN, Some(ON_OPEN), S_WAIT_USER),
                       Trans(DEFAULT, None, S_IDLE)],
    /* S_WAIT_USER */ [Trans(E_RECV, None, S_WAIT_USER),
                       Trans(C_USER, None, S_WAIT_PASS),
                       Trans(DEFAULT, None, S_WAIT_USER)],
    /* S_WAIT_PASS */ [Trans(E_RECV, None, S_WAIT_PASS),
                       Trans(E_TIMEOUT, None, S_WAIT_USER),
                       Trans(C_PASS, None, S_OPEN),
                       Trans(DEFAULT, None, S_WAIT_PASS)],
    /* S_OPEN */      [Trans(E_RECV, None, S_OPEN),
                       Trans(DEFAULT, None, S_OPEN)]
  ]

  predicate IsState(s: int)
  {
    S_IDLE <= s <= S_OPEN
  }

  /**
   * Reference definition of the session lifecycle: the four explicit
   * transitions; every other (state, event) pair keeps the state.
   */
  function Next(s: int, e: int): (s': int)
  {
    if s == S_IDLE && e == E_OPEN then S_WAIT_USER
    else if s == S_WAIT_USER && e == C_USER then S_WAIT_PASS
    else if s == S_WAIT_PASS && e == E_TIMEOUT then S_WAIT_USER
    else if s == S_WAIT_PASS && e == C_PASS then S_OPEN
    else s
  }

  /**
   * The table has one list per state; each list ends with a default entry
   * that has no action and keeps the state; the only action is on_open, on
   * the first entry of S_IDLE's list.
   */
  lemma SttWellFormed()
    ensures |Stt| == 4 && TableOk(Stt)
    ensures forall s :: 0 <= s < |Stt| ==>
      Stt[s][|Stt[s]| - 1] == Trans(DEFAULT, None, s)
    ensures forall s, k :: 0 <= s < |Stt| && 0 <= k < |Stt[s]| && Stt[s][k].act.Some? ==>
      s == S_IDLE && k == 0 && Stt[s][k].act == Some(ON_OPEN)
  {
    forall s | 0 <= s < |Stt|
      ensures RowOk(Stt[s]) && forall k :: 0 <= k < |Stt[s]| ==> 0 <= Stt[s][k].next < |Stt|
    {
      assert s == 0 || s == 1 || s == 2 || s == 3;
    }
  }

  /**
   * Any event other than E_OPEN in S_IDLE reaches no action: the trigger
   * returns 0, uses no action result, and moves to the state Next gives.
   */
  lemma QuietDispatch(s: int, e: int, cth: Option<int -> int>, acts: seq<int>)
    requires IsState(s) && e >= 0 && !(s == S_IDLE && e == E_OPEN)
    ensures RowOk(Stt[s])
    ensures var o := Dispatch(Stt[s], 0, e, cth, acts, 0);
      o.Done? && o.code == 0 && o.used == 0 && Stt[s][o.entry].next == Next(s, e)
  {
    var row := Stt[s];
    SttWellFormed();
    var k := Scan(row, 0, e);
    if s == S_IDLE {
      assert k == 1;
    } else if s == S_WAIT_USER {
      if e != E_RECV {
        assert row[0].ecode != e;
        if e != C_USER { assert row[1].ecode != e; }
      }
    } else if s == S_WAIT_PASS {
      if e != E_RECV {
        assert row[0].ecode != e;
        if e != E_TIMEOUT {
          assert row[1].ecode != e;
          if e != C_PASS { assert row[2].ecode != e; }
        }
      }
    } else {
      assert k == (if e == E_RECV then 0 else 1);
    }
  }

  /**
   * E_OPEN in S_IDLE runs on_open once, and what follows depends on the byte
   * count n that write gave back: a positive count is dispatched again from
   * the on_open entry and lands on the default entry, back in S_IDLE; zero
   * moves to S_WAIT_USER; an error moves to S_WAIT_USER and is returned.
   */
  lemma OpenFromIdle(n: int)
    ensures RowOk(Stt[S_IDLE])
    ensures var o := Dispatch(Stt[S_IDLE], 0, E_OPEN, None, [n], 0);
      o.Done? && o.used == 1 &&
      (n > 0 ==> o.code == 0 && Stt[S_IDLE][o.entry].next == S_IDLE) &&
      (n == 0 ==> o.code == 0 && Stt[S_IDLE][o.entry].next == S_WAIT_USER) &&
      (n < 0 ==> o.code == n && Stt[S_IDLE][o.entry].next == S_WAIT_USER)
  {
    var row := Stt[S_IDLE];
    assert Scan(row, 0, E_OPEN) == 0;
    if n > 0 {
      assert Scan(row, 0, n) == 1;
      assert Dispatch(row, 0, n, None, [n], 1) == Done(0, 1, 1);
    }
  }

  /**
   * In this table the cursor carried across chained dispatches is harmless:
   * every trigger agrees with a lookup from the start of the list.
   */
  lemma SttCursorHarmless(s: int, e: int, cth: Option<int -> int>, acts: seq<int>)
    requires IsState(s)
    ensures RowOk(Stt[s])
    ensures Dispatch(Stt[s], 0, e, cth, acts, 0) == DispatchFromStart(Stt[s], e, cth, acts, 0)
  {
    SttWellFormed();
    HeadActionAgrees(Stt[s], e, cth, acts, 0);
  }
}
