/**
 * The loop of `main` at the level of Python values, as written: the
 * previous state is whatever `load_previous_state` returned, each answer
 * is whatever `check_stock` returned, and the raw answer (not just its
 * truthiness) is what gets saved. `None` as a result stands for the
 * `AttributeError` raised when `previous_state` is not a dict.
 */
module RawCycle {
  import opened Wrappers
  import opened Json
  import opened Catalog
  import Detect
  import Fetch

  /** `current_state`, `available_models` and `newly_available` as Python values. */
  datatype RawCycle = RawCycle(state: map<string, Value>, inStock: seq<string>, newly: seq<string>)

  /** `previous_state.get(pkg_id, False)`; None when `previous_state` has no `.get`. */
  function PreviousGet(previous: Value, id: string): Option<Value> {
    if previous.Object? then Some(GetOr(previous.fields, id, Bool(false))) else None
  }

  /** One iteration of the loop, with answer `available` for package `p`. */
  function RawStep(previous: Value, acc: RawCycle, p: Product, available: Value): (r: Option<RawCycle>)
    ensures previous.Object? ==> r.Some?
    ensures r.None? <==> !previous.Object? && (available.Null? || Truthy(available))
    ensures r.Some? ==> r.value.state.Keys == acc.state.Keys + {p.id}
    ensures r.Some? ==> r.value.state[p.id] == (if available.Null? then GetOr(previous.fields, p.id, Bool(false)) else available)
    ensures r.Some? ==> r.value.inStock == acc.inStock + (if Truthy(available) then [p.name] else [])
    ensures r.Some? ==> r.value.newly == acc.newly + (if Truthy(available) && !Truthy(GetOr(previous.fields, p.id, Bool(false)))
                                                      then [p.name] else [])
  {
    if available.Null? then
      if previous.Object? then Some(acc.(state := acc.state[p.id := PreviousGet(previous, p.id).value]))
      else None
    else
      var state := acc.state[p.id := available];
      if !Truthy(available) then Some(acc.(state := state))
      else if !previous.Object? then None
      else if Truthy(PreviousGet(previous, p.id).value) then Some(RawCycle(state, acc.inStock + [p.name], acc.newly))
      else Some(RawCycle(state, acc.inStock + [p.name], acc.newly + [p.name]))
  }

  /** The whole loop, in table order; None once an iteration raised. */
  function RawPoll(previous: Value, table: seq<Product>, checks: seq<Value>): (r: Option<RawCycle>)
    requires |checks| == |table|
    ensures previous.Object? ==> r.Some?
    ensures r.Some? ==> r.value.state.Keys == Ids(table)
    ensures r.Some? ==> |r.value.newly| <= |r.value.inStock| <= |table|
    decreases |table|
  {
    if |table| == 0 then Some(RawCycle(map[], [], []))
    else
      Detect.IdsFront(table);
      var acc := RawPoll(previous, Detect.Front(table), Detect.Front(checks));
      if acc.None? then None else RawStep(previous, acc.value, Detect.Last(table), Detect.Last(checks))
  }

  /** The truthiness view of a saved state: what every later `if` reads of it. */
  function Abstract(state: map<string, Value>): (s: Detect.State)
    ensures s.Keys == state.Keys
    ensures forall id :: id in state ==> s[id] == Truthy(state[id])
  {
    map id | id in state :: Truthy(state[id])
  }

  lemma {:induction false} OutcomesFront(checks: seq<Value>)
    requires |checks| > 0
    ensures Fetch.Outcomes(Detect.Front(checks)) == Detect.Front(Fetch.Outcomes(checks))
    ensures Fetch.Outcome(Detect.Last(checks)) == Detect.Last(Fetch.Outcomes(checks))
  {
  }

  /** The abstract view of an accumulator. */
  function View(acc: RawCycle): Detect.Cycle {
    Detect.Cycle(Abstract(acc.state), acc.inStock, acc.newly)
  }

  /** Truthiness commutes with writing one entry. */
  lemma {:induction false} AbstractUpdate(state: map<string, Value>, id: string, v: Value)
    ensures Abstract(state[id := v]) == Abstract(state)[id := Truthy(v)]
  {
  }

  /** With a dict as previous state, one raw iteration never raises and matches the abstract one. */
  lemma {:induction false} RawStepRefines(previous: map<string, Value>, acc: RawCycle, p: Product, v: Value)
    ensures RawStep(Object(previous), acc, p, v).Some?
    ensures View(RawStep(Object(previous), acc, p, v).value)
         == Detect.Step(Abstract(previous), View(acc), p, Fetch.Outcome(v))
  {
    var prev := Object(previous);
    var old_ := GetOr(previous, p.id, Bool(false));
    assert PreviousGet(prev, p.id) == Some(old_);
    assert Truthy(old_) == Detect.Get(Abstract(previous), p.id);
    if v.Null? {
      AbstractUpdate(acc.state, p.id, old_);
      assert RawStep(prev, acc, p, v) == Some(acc.(state := acc.state[p.id := old_]));
    } else {
      AbstractUpdate(acc.state, p.id, v);
      var state := acc.state[p.id := v];
      if !Truthy(v) {
        assert RawStep(prev, acc, p, v) == Some(acc.(state := state));
      } else if Truthy(old_) {
        assert RawStep(prev, acc, p, v) == Some(RawCycle(state, acc.inStock + [p.name], acc.newly));
      } else {
        assert RawStep(prev, acc, p, v) == Some(RawCycle(state, acc.inStock + [p.name], acc.newly + [p.name]));
      }
    }
  }

  /**
   * With a dict as previous state the loop never raises, and it computes the
   * abstract fold: the saved values' truthiness is the abstract state, and the
   * two name lists are the same.
   */
  lemma {:induction false} RawPollRefines(previous: map<string, Value>, table: seq<Product>, checks: seq<Value>)
    requires |checks| == |table|
    ensures RawPoll(Object(previous), table, checks).Some?
    ensures View(RawPoll(Object(previous), table, checks).value)
         == Detect.Poll(Abstract(previous), table, Fetch.Outcomes(checks))
    decreases |table|
  {
    if |table| > 0 {
      var front, frontChecks := Detect.Front(table), Detect.Front(checks);
      RawPollRefines(previous, front, frontChecks);
      OutcomesFront(checks);
      var acc := RawPoll(Object(previous), front, frontChecks).value;
      RawStepRefines(previous, acc, Detect.Last(table), Detect.Last(checks));
    }
  }

  /** Some iteration consults `previous_state.get`: an answer that is unknown or truthy. */
  predicate ConsultsPrevious(checks: seq<Value>) {
    exists i :: 0 <= i < |checks| && (checks[i].Null? || Truthy(checks[i]))
  }

  /**
   * As written, a previous state that is not a dict makes the loop raise
   * exactly when some answer is unknown or truthy; when every answer is a
   * falsy non-`None` value the run goes through and overwrites the file.
   */
  lemma {:induction false} NonDictRaises(previous: Value, table: seq<Product>, checks: seq<Value>)
    requires |checks| == |table|
    requires !previous.Object?
    ensures RawPoll(previous, table, checks).None? <==> ConsultsPrevious(checks)
    decreases |table|
  {
    if |table| > 0 {
      var front, frontChecks := Detect.Front(table), Detect.Front(checks);
      NonDictRaises(previous, front, frontChecks);
      ConsultsSnoc(checks);
      var acc := RawPoll(previous, front, frontChecks);
      assert RawPoll(previous, table, checks)
          == if acc.None? then None else RawStep(previous, acc.value, Detect.Last(table), Detect.Last(checks));
    }
  }

  /** Some iteration consults the previous state iff an earlier one does or the last one does. */
  lemma {:induction false} ConsultsSnoc(checks: seq<Value>)
    requires |checks| > 0
    ensures ConsultsPrevious(checks)
        <==> ConsultsPrevious(Detect.Front(checks)) || Detect.Last(checks).Null? || Truthy(Detect.Last(checks))
  {
    var front, last := Detect.Front(checks), |checks| - 1;
    if ConsultsPrevious(front) {
      var i :| 0 <= i < |front| && (front[i].Null? || Truthy(front[i]));
      assert checks[i] == front[i];
    }
    if ConsultsPrevious(checks) && !(checks[last].Null? || Truthy(checks[last])) {
      var i :| 0 <= i < |checks| && (checks[i].Null? || Truthy(checks[i]));
      assert front[i] == checks[i];
    }
  }
}
