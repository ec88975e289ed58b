/**
 * The table-driven finite state machine engine of src/fsm.h.
 *
 * A transition table gives, for every state, an ordered list of transitions
 * that ends with the default entry.  Actions are not code in this model: the
 * k-th action call made by one trigger returns the k-th element of a finite
 * sequence of results chosen in advance (the "action results").  A trigger
 * that would need more action calls than there are results is reported as
 * Exhausted; this is how the model speaks about a trigger that, in the C code,
 * keeps re-dispatching and never returns.
 */
module Fsm {
  import opened Wrappers

  /** FSM_E_DEFAULT: ends every state's transition list and collects unhandled events. */
  const DEFAULT: int := -1

  /** An action is known by its name; the engine only asks whether one is bound. */
  type ActionName = string

  /** struct fsm_trans: event code, optional action, next state. */
  datatype Trans = Trans(ecode: int, act: Option<ActionName>, next: int)

  /** The per-state transition lists, indexed by state. */
  type Table = seq<seq<Trans>>

  /** A state's list is usable by the engine when it ends with the default entry. */
  predicate RowOk(row: seq<Trans>)
  {
    |row| > 0 && row[|row| - 1].ecode == DEFAULT
  }

  /** Every list ends with the default entry and every next state indexes the table. */
  predicate TableOk(stt: Table)
  {
    forall s :: 0 <= s < |stt| ==>
      RowOk(stt[s]) && forall k :: 0 <= k < |stt[s]| ==> 0 <= stt[s][k].next < |stt|
  }

  /**
   * The cursor scan of one dispatch: starting at `cur`, the first entry whose
   * code is `e` or the default code.
   */
  function Scan(row: seq<Trans>, cur: nat, e: int): (k: nat)
    requires RowOk(row) && cur < |row|
    ensures cur <= k < |row|
    ensures row[k].ecode == e || row[k].ecode == DEFAULT
    ensures forall j :: cur <= j < k ==> row[j].ecode != e && row[j].ecode != DEFAULT
    decreases |row| - cur
  {
    if row[cur].ecode == e || row[cur].ecode == DEFAULT then cur else Scan(row, cur + 1, e)
  }

  /** A negative action result is handed to the catch hook, when one is registered. */
  function Intercept(cth: Option<int -> int>, r: int): (code: int)
  {
    if r < 0 && cth.Some? then cth.value(r) else r
  }

  /**
   * What one trigger does: it returns `code`, leaves the machine in the next
   * state of entry `entry`, and has used the action results before `used`.
   */
  datatype Outcome = Done(code: int, entry: nat, used: nat) | Exhausted

  /**
   * The dispatch loop of fsm_trigger from cursor `cur`, pending code `e`, and
   * the action results from index `i` on.  A positive result is dispatched
   * again from the entry just matched: the cursor is never reset.
   */
  function Dispatch(row: seq<Trans>, cur: nat, e: int, cth: Option<int -> int>, acts: seq<int>, i: nat): (o: Outcome)
    requires RowOk(row) && cur < |row| && i <= |acts|
    ensures o.Done? ==> o.code <= 0 && cur <= o.entry < |row| && i <= o.used <= |acts|
    decreases |acts| - i
  {
    var k := Scan(row, cur, e);
    if row[k].act.None? then Done(0, k, i)
    else if i == |acts| then Exhausted
    else
      var r := Intercept(cth, acts[i]);
      if r > 0 then Dispatch(row, k, r, cth, acts, i + 1) else Done(r, k, i + 1)
  }

  /**
   * Reference definition: the same loop, but every dispatched code, chained
   * ones included, is looked up from the start of the state's list.
   */
  function DispatchFromStart(row: seq<Trans>, e: int, cth: Option<int -> int>, acts: seq<int>, i: nat): (o: Outcome)
    requires RowOk(row) && i <= |acts|
    ensures o.Done? ==> o.code <= 0 && o.entry < |row| && i <= o.used <= |acts|
    decreases |acts| - i
  {
    var k := Scan(row, 0, e);
    if row[k].act.None? then Done(0, k, i)
    else if i == |acts| then Exhausted
    else
      var r := Intercept(cth, acts[i]);
      if r > 0 then DispatchFromStart(row, r, cth, acts, i + 1) else Done(r, k, i + 1)
  }

  /** An event with no explicit entry in a list is governed by a default entry. */
  lemma DefaultFallback(row: seq<Trans>, cur: nat, e: int)
    requires RowOk(row) && cur < |row|
    requires forall j :: 0 <= j < |row| ==> row[j].ecode != e
    ensures row[Scan(row, cur, e)].ecode == DEFAULT
    ensures forall j :: cur <= j < Scan(row, cur, e) ==> row[j].ecode != DEFAULT
  {
  }

  /** A matched entry without an action ends the trigger with 0, whatever the event code. */
  lemma NoActionYieldsZero(row: seq<Trans>, cur: nat, e: int, cth: Option<int -> int>, acts: seq<int>, i: nat)
    requires RowOk(row) && cur < |row| && i <= |acts|
    requires row[Scan(row, cur, e)].act.None?
    ensures Dispatch(row, cur, e, cth, acts, i) == Done(0, Scan(row, cur, e), i)
  {
  }

  /**
   * A negative action result is replaced by the catch hook's value when a hook
   * is registered, and returned unchanged otherwise.
   */
  lemma CatchSubstitutes(row: seq<Trans>, cur: nat, e: int, cth: Option<int -> int>, acts: seq<int>, i: nat)
    requires RowOk(row) && cur < |row| && i < |acts|
    requires row[Scan(row, cur, e)].act.Some? && acts[i] < 0
    ensures cth.None? ==> Dispatch(row, cur, e, cth, acts, i) == Done(acts[i], Scan(row, cur, e), i + 1)
    ensures cth.Some? && cth.value(acts[i]) <= 0 ==>
      Dispatch(row, cur, e, cth, acts, i) == Done(cth.value(acts[i]), Scan(row, cur, e), i + 1)
    ensures cth.Some? && cth.value(acts[i]) > 0 ==>
      Dispatch(row, cur, e, cth, acts, i) == Dispatch(row, Scan(row, cur, e), cth.value(acts[i]), cth, acts, i + 1)
  {
  }

  /**
   * The cursor is not reset between chained dispatches: a positive result is
   * looked up from the entry that produced it, so entries before that one are
   * never consulted for it.
   */
  lemma ChainStartsAtMatch(row: seq<Trans>, cur: nat, e: int, cth: Option<int -> int>, acts: seq<int>, i: nat)
    requires RowOk(row) && cur < |row| && i < |acts|
    requires row[Scan(row, cur, e)].act.Some? && Intercept(cth, acts[i]) > 0
    ensures var k := Scan(row, cur, e);
      Dispatch(row, cur, e, cth, acts, i) == Dispatch(row, k, Intercept(cth, acts[i]), cth, acts, i + 1)
    ensures var k := Scan(row, cur, e);
      var o := Dispatch(row, cur, e, cth, acts, i);
      o.Done? ==> k <= o.entry
  {
  }

  /**
   * The cursor quirk is observable: with an entry for the chained code placed
   * before the action that produces it, the engine reaches the default entry
   * where a lookup from the start would have taken the earlier entry.
   */
  lemma CursorQuirkObservable()
    ensures var row := [Trans(1, None, 1), Trans(0, Some("act"), 2), Trans(DEFAULT, None, 0)];
      Dispatch(row, 0, 0, None, [1], 0) == Done(0, 2, 1) &&
      DispatchFromStart(row, 0, None, [1], 0) == Done(0, 0, 1)
  {
    var row := [Trans(1, None, 1), Trans(0, Some("act"), 2), Trans(DEFAULT, None, 0)];
    assert Scan(row, 0, 0) == 1;
    assert Scan(row, 1, 1) == 2;
    assert Scan(row, 0, 1) == 0;
  }

  /**
   * When only the first entry of a list may carry an action, every chained
   * dispatch starts at the list's start anyway, so the engine agrees with the
   * from-the-start lookup.
   */
  lemma {:induction false} HeadActionAgrees(row: seq<Trans>, e: int, cth: Option<int -> int>, acts: seq<int>, i: nat)
    requires RowOk(row) && i <= |acts|
    requires forall k :: 0 < k < |row| ==> row[k].act.None?
    ensures Dispatch(row, 0, e, cth, acts, i) == DispatchFromStart(row, e, cth, acts, i)
    decreases |acts| - i
  {
    var k := Scan(row, 0, e);
    if row[k].act.Some? && i < |acts| {
      assert k == 0;
      var r := Intercept(cth, acts[i]);
      if r > 0 {
        HeadActionAgrees(row, r, cth, acts, i + 1);
      }
    }
  }

  /**
   * A default entry whose action keeps returning positive values makes the
   * trigger loop for ever: however many results are supplied, they run out.
   */
  lemma {:induction false} PositiveDefaultNeverReturns(row: seq<Trans>, e: int, cth: Option<int -> int>, acts: seq<int>, i: nat)
    requires RowOk(row) && i <= |acts|
    requires row[|row| - 1].act.Some?
    requires forall j :: i <= j < |acts| ==> Intercept(cth, acts[j]) > 0
    ensures Dispatch(row, |row| - 1, e, cth, acts, i) == Exhausted
    decreases |acts| - i
  {
    assert Scan(row, |row| - 1, e) == |row| - 1;
    if i < |acts| {
      PositiveDefaultNeverReturns(row, Intercept(cth, acts[i]), cth, acts, i + 1);
    }
  }

  /**
   * Reached from the start of a list: when no entry before the last carries
   * the event's code, the trigger lands on the acting default entry and, with
   * positive results, never returns.
   */
  lemma DefaultLoopFromStart(row: seq<Trans>, e: int, cth: Option<int -> int>, acts: seq<int>, i: nat)
    requires RowOk(row) && i < |acts|
    requires row[|row| - 1].act.Some?
    requires forall j :: 0 <= j < |row| - 1 ==> row[j].ecode != e && row[j].ecode != DEFAULT
    requires forall j :: i <= j < |acts| ==> Intercept(cth, acts[j]) > 0
    ensures Dispatch(row, 0, e, cth, acts, i) == Exhausted
  {
    assert Scan(row, 0, e) == |row| - 1;
    PositiveDefaultNeverReturns(row, Intercept(cth, acts[i]), cth, acts, i + 1);
  }

  /** struct fsm: the transition table, the catch hook and the current state. */
  class Machine {
    var stt: Table
    var cth: Option<int -> int>
    var state: int

    /** The machine can be triggered: a well-formed table and a state that indexes it. */
    ghost predicate Valid()
      reads this
    {
      TableOk(stt) && 0 <= state < |stt|
    }

    /** A zero-filled struct fsm: no table (NULL), no hook, state 0. */
    constructor ()
      ensures stt == [] && cth.None? && state == 0
    {
      stt := [];
      cth := None;
      state := 0;
    }

    /** fsm_init: overwrite the whole record; the catch hook is cleared. */
    method Init(initial: int, table: Table)
      modifies this
      ensures stt == table && state == initial && cth.None?
      ensures Valid() <==> TableOk(table) && 0 <= initial < |table|
    {
      stt := table;
      cth := None;
      state := initial;
    }

    /** fsm_catch: register (or clear) the catch hook; nothing else changes. */
    method Catch(hook: Option<int -> int>)
      modifies this
      ensures cth == hook && stt == old(stt) && state == old(state)
    {
      cth := hook;
    }

    /** fsm_state: the current state, read without changing the machine. */
    function State(): (s: int)
      reads this
      ensures s == state
    {
      state
    }

    /**
     * fsm_trigger: dispatch event `ecode` with the action results `acts`.
     * When the trigger returns, the state is written once, to the next state
     * of the last matched entry; the table and the hook never change.
     */
    method Trigger(ecode: int, acts: seq<int>) returns (o: Outcome)
      requires Valid() && ecode >= 0
      modifies this
      ensures Valid() && stt == old(stt) && cth == old(cth)
      ensures o == Dispatch(stt[old(state)], 0, ecode, cth, acts, 0)
      ensures o.Done? ==> state == stt[old(state)][o.entry].next
      ensures o.Exhausted? ==> state == old(state)
    {
      var row := stt[state];
      ghost var goal := Dispatch(row, 0, ecode, cth, acts, 0);
      var trans: nat := 0;
      var e := ecode;
      var i: nat := 0;
      while true
        invariant trans < |row| && i <= |acts|
        invariant Dispatch(row, trans, e, cth, acts, i) == goal
        decreases |acts| - i
      {
        ghost var from := trans;
        while row[trans].ecode != e && row[trans].ecode != DEFAULT
          invariant from <= trans <= Scan(row, from, e)
          invariant Scan(row, trans, e) == Scan(row, from, e)
          decreases |row| - trans
        {
          trans := trans + 1;
        }
        if row[trans].act.None? {
          e := 0;
        } else {
          if i == |acts| {
            o := Exhausted;
            return;
          }
          e := acts[i];
          i := i + 1;
          if e < 0 && cth.Some? {
            e := cth.value(e);
          }
        }
        if e <= 0 {
          break;
        }
      }
      state := row[trans].next;
      o := Done(e, trans, i);
    }
  }
}
