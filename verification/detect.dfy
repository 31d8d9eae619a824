/**
 * The change detector: the per-package fold at the heart of `main`. Given
 * the previous state, one tri-state fetch answer per package and the
 * package table, it yields the state to save, the names in stock and the
 * names newly in stock.
 */
module Detect {
  import opened Wrappers
  import opened Catalog

  /** Last-known availability per package id. */
  type State = map<string, bool>

  /** `previous_state.get(pkg_id, False)`: an absent id reads as unavailable. */
  function Get(s: State, id: string): bool {
    if id in s then s[id] else false
  }

  /** What one run of the loop produces. */
  datatype Cycle = Cycle(state: State, inStock: seq<string>, newly: seq<string>)

  function Front<T>(s: seq<T>): seq<T>
    requires |s| > 0
  {
    s[..|s| - 1]
  }

  function Last<T>(s: seq<T>): T
    requires |s| > 0
  {
    s[|s| - 1]
  }

  /**
   * One iteration of the loop for package `p`: an unknown answer carries the
   * previous value forward; a known answer is saved as is, and a positive one
   * is listed as in stock, and as new unless it was already available.
   */
  function Step(previous: State, acc: Cycle, p: Product, outcome: Option<bool>): Cycle {
    match outcome
    case None => acc.(state := acc.state[p.id := Get(previous, p.id)])
    case Some(available) =>
      var state := acc.state[p.id := available];
      if !available then acc.(state := state)
      else if Get(previous, p.id) then Cycle(state, acc.inStock + [p.name], acc.newly)
      else Cycle(state, acc.inStock + [p.name], acc.newly + [p.name])
  }

  lemma {:induction false} IdsFront(table: seq<Product>)
    requires |table| > 0
    ensures Ids(table) == Ids(Front(table)) + {Last(table).id}
  {
  }

  /**
   * The loop over the whole table, in table order, starting from an empty
   * `current_state`. Whatever the previous state held, the new state has one
   * entry per package of the table and no other.
   */
  function Poll(previous: State, table: seq<Product>, outcomes: seq<Option<bool>>): (c: Cycle)
    requires |outcomes| == |table|
    ensures c.state.Keys == Ids(table)
    ensures |c.newly| <= |c.inStock| <= |table|
    decreases |table|
  {
    if |table| == 0 then Cycle(map[], [], [])
    else
      IdsFront(table);
      Step(previous, Poll(previous, Front(table), Front(outcomes)), Last(table), Last(outcomes))
  }

  // ---------------------------------------------------------------------
  // A reference definition of the two name lists, by selection over the table.
  // ---------------------------------------------------------------------

  /** The names of the packages whose flag in `keep` is set, in table order. */
  function Select(table: seq<Product>, keep: seq<bool>): seq<string>
    requires |keep| == |table|
    decreases |table|
  {
    if |table| == 0 then []
    else (if keep[0] then [table[0].name] else []) + Select(table[1..], keep[1..])
  }

  /** The package was fetched successfully and is available. */
  predicate InStock(outcome: Option<bool>) {
    outcome == Some(true)
  }

  /** The package is available now and was unavailable (or absent) before. */
  predicate IsNew(previous: State, p: Product, outcome: Option<bool>) {
    outcome == Some(true) && !Get(previous, p.id)
  }

  function InStockFlags(outcomes: seq<Option<bool>>): (keep: seq<bool>)
    ensures |keep| == |outcomes|
    ensures forall i :: 0 <= i < |outcomes| ==> keep[i] == InStock(outcomes[i])
  {
    seq(|outcomes|, i requires 0 <= i < |outcomes| => InStock(outcomes[i]))
  }

  function NewFlags(previous: State, table: seq<Product>, outcomes: seq<Option<bool>>): (keep: seq<bool>)
    requires |outcomes| == |table|
    ensures |keep| == |table|
    ensures forall i :: 0 <= i < |table| ==> keep[i] == IsNew(previous, table[i], outcomes[i])
  {
    seq(|table|, i requires 0 <= i < |table| => IsNew(previous, table[i], outcomes[i]))
  }

  /** `a` can be obtained from `b` by deleting elements. */
  predicate Subsequence<T(==)>(a: seq<T>, b: seq<T>)
    decreases |b|
  {
    if |a| == 0 then true
    else if |b| == 0 then false
    else (a[0] == b[0] && Subsequence(a[1..], b[1..])) || Subsequence(a, b[1..])
  }

  lemma {:induction false} SelectSnoc(table: seq<Product>, keep: seq<bool>, p: Product, b: bool)
    requires |keep| == |table|
    ensures Select(table + [p], keep + [b]) == Select(table, keep) + (if b then [p.name] else [])
    decreases |table|
  {
    if |table| == 0 {
      assert table + [p] == [p];
      assert keep + [b] == [b];
    } else {
      assert (table + [p])[1..] == table[1..] + [p];
      assert (keep + [b])[1..] == keep[1..] + [b];
      SelectSnoc(table[1..], keep[1..], p, b);
    }
  }

  /** A name is selected exactly when some package carrying it is flagged. */
  lemma {:induction false} SelectMembership(table: seq<Product>, keep: seq<bool>, n: string)
    requires |keep| == |table|
    ensures n in Select(table, keep) <==> exists i :: 0 <= i < |table| && keep[i] && table[i].name == n
    decreases |table|
  {
    if |table| > 0 {
      SelectMembership(table[1..], keep[1..], n);
      if n in Select(table[1..], keep[1..]) {
        var j :| 0 <= j < |table| - 1 && keep[1..][j] && table[1..][j].name == n;
        assert keep[j + 1] && table[j + 1].name == n;
      }
      if exists i :: 0 <= i < |table| && keep[i] && table[i].name == n {
        var i :| 0 <= i < |table| && keep[i] && table[i].name == n;
        if i > 0 {
          assert keep[1..][i - 1] && table[1..][i - 1].name == n;
        }
      }
    }
  }

  /** Selecting by a weaker flag set keeps the names in the same relative order. */
  lemma {:induction false} SelectSubsequence(table: seq<Product>, fewer: seq<bool>, more: seq<bool>)
    requires |fewer| == |table| && |more| == |table|
    requires forall i :: 0 <= i < |table| && fewer[i] ==> more[i]
    ensures Subsequence(Select(table, fewer), Select(table, more))
    decreases |table|
  {
    if |table| > 0 {
      SelectSubsequence(table[1..], fewer[1..], more[1..]);
      var a := Select(table[1..], fewer[1..]);
      var b := Select(table[1..], more[1..]);
      var n := table[0].name;
      if fewer[0] {
        assert more[0];
        assert ([n] + a)[1..] == a;
        assert ([n] + b)[1..] == b;
      } else if more[0] {
        assert Select(table, fewer) == a;
        assert Select(table, more) == [n] + b;
        assert ([n] + b)[1..] == b;
      } else {
        assert Select(table, fewer) == a;
        assert Select(table, more) == b;
      }
    }
  }

  /** The number of set flags. */
  function CountSet(keep: seq<bool>): nat
    decreases |keep|
  {
    if |keep| == 0 then 0 else (if keep[0] then 1 else 0) + CountSet(keep[1..])
  }

  /** One name is selected per set flag. */
  lemma {:induction false} SelectLength(table: seq<Product>, keep: seq<bool>)
    requires |keep| == |table|
    ensures |Select(table, keep)| == CountSet(keep)
    decreases |table|
  {
    if |table| > 0 {
      SelectLength(table[1..], keep[1..]);
    }
  }

  /** Nothing is selected when no flag is set. */
  lemma {:induction false} SelectNothing(table: seq<Product>, keep: seq<bool>)
    requires |keep| == |table|
    requires forall i :: 0 <= i < |table| ==> !keep[i]
    ensures Select(table, keep) == []
    decreases |table|
  {
    if |table| > 0 {
      SelectNothing(table[1..], keep[1..]);
    }
  }

  // ---------------------------------------------------------------------
  // Properties of the fold.
  // ---------------------------------------------------------------------

  lemma {:induction false} InStockFlagsFront(outcomes: seq<Option<bool>>)
    requires |outcomes| > 0
    ensures InStockFlags(outcomes) == InStockFlags(Front(outcomes)) + [InStock(Last(outcomes))]
  {
  }

  lemma {:induction false} NewFlagsFront(previous: State, table: seq<Product>, outcomes: seq<Option<bool>>)
    requires |outcomes| == |table| > 0
    ensures NewFlags(previous, table, outcomes)
         == NewFlags(previous, Front(table), Front(outcomes)) + [IsNew(previous, Last(table), Last(outcomes))]
  {
  }

  /** The lists one iteration leaves: the package's name is appended to those it qualifies for. */
  lemma {:induction false} StepLists(previous: State, acc: Cycle, p: Product, outcome: Option<bool>)
    ensures Step(previous, acc, p, outcome).inStock == acc.inStock + (if InStock(outcome) then [p.name] else [])
    ensures Step(previous, acc, p, outcome).newly == acc.newly + (if IsNew(previous, p, outcome) then [p.name] else [])
  {
  }

  /** The in-stock list the loop builds is the available packages' names, in table order. */
  lemma {:induction false} PollInStock(previous: State, table: seq<Product>, outcomes: seq<Option<bool>>)
    requires |outcomes| == |table|
    ensures Poll(previous, table, outcomes).inStock == Select(table, InStockFlags(outcomes))
    decreases |table|
  {
    if |table| > 0 {
      var front, frontOutcomes := Front(table), Front(outcomes);
      PollInStock(previous, front, frontOutcomes);
      StepLists(previous, Poll(previous, front, frontOutcomes), Last(table), Last(outcomes));
      assert table == front + [Last(table)];
      InStockFlagsFront(outcomes);
      SelectSnoc(front, InStockFlags(frontOutcomes), Last(table), InStock(Last(outcomes)));
    }
  }

  /** The new list the loop builds is the newly available packages' names, in table order. */
  lemma {:induction false} PollNewly(previous: State, table: seq<Product>, outcomes: seq<Option<bool>>)
    requires |outcomes| == |table|
    ensures Poll(previous, table, outcomes).newly == Select(table, NewFlags(previous, table, outcomes))
    decreases |table|
  {
    if |table| > 0 {
      var front, frontOutcomes := Front(table), Front(outcomes);
      PollNewly(previous, front, frontOutcomes);
      StepLists(previous, Poll(previous, front, frontOutcomes), Last(table), Last(outcomes));
      assert table == front + [Last(table)];
      NewFlagsFront(previous, table, outcomes);
      SelectSnoc(front, NewFlags(previous, front, frontOutcomes), Last(table),
                 IsNew(previous, Last(table), Last(outcomes)));
    }
  }

  /** The state one iteration leaves: the package's entry is (re)written, nothing else changes. */
  lemma {:induction false} StepState(previous: State, acc: Cycle, p: Product, outcome: Option<bool>)
    ensures Step(previous, acc, p, outcome).state == acc.state[p.id := outcome.GetOr(Get(previous, p.id))]
  {
  }

  /** The last iteration leaves the entries of the earlier packages alone. */
  lemma {:induction false} PollKeepsEarlier(previous: State, table: seq<Product>, outcomes: seq<Option<bool>>, i: nat)
    requires |outcomes| == |table| > 0
    requires DistinctIds(table)
    requires i < |table| - 1
    ensures table[i].id in Poll(previous, Front(table), Front(outcomes)).state
    ensures Poll(previous, table, outcomes).state[table[i].id]
         == Poll(previous, Front(table), Front(outcomes)).state[table[i].id]
  {
    var front := Front(table);
    assert front[i] == table[i];
    assert front[i].id in Ids(front);
    assert table[i].id != Last(table).id;
    StepState(previous, Poll(previous, front, Front(outcomes)), Last(table), Last(outcomes));
  }

  lemma {:induction false} DistinctFront(table: seq<Product>)
    requires |table| > 0 && DistinctIds(table)
    ensures DistinctIds(Front(table))
  {
    var front := Front(table);
    forall i, j | 0 <= i < j < |front| ensures front[i].id != front[j].id {
      assert front[i] == table[i] && front[j] == table[j];
    }
  }

  /** The saved value of the package at index `i`. */
  lemma {:induction false} PollValue(previous: State, table: seq<Product>, outcomes: seq<Option<bool>>, i: nat)
    requires |outcomes| == |table|
    requires DistinctIds(table)
    requires i < |table|
    ensures table[i].id in Poll(previous, table, outcomes).state
    ensures Poll(previous, table, outcomes).state[table[i].id] == outcomes[i].GetOr(Get(previous, table[i].id))
    decreases |table|
  {
    var front, frontOutcomes := Front(table), Front(outcomes);
    assert table[i].id in Ids(table);
    StepState(previous, Poll(previous, front, frontOutcomes), Last(table), Last(outcomes));
    if i < |table| - 1 {
      DistinctFront(table);
      PollKeepsEarlier(previous, table, outcomes, i);
      PollValue(previous, front, frontOutcomes, i);
      assert front[i] == table[i] && frontOutcomes[i] == outcomes[i];
    }
  }

  /**
   * The saved value of each package: on an unknown answer the previous value
   * (absent reads as false), on a known answer exactly the fetched value,
   * whatever the previous one was.
   */
  lemma {:induction false} PollValues(previous: State, table: seq<Product>, outcomes: seq<Option<bool>>)
    requires |outcomes| == |table|
    requires DistinctIds(table)
    ensures forall i :: 0 <= i < |table| ==>
              Poll(previous, table, outcomes).state[table[i].id] == outcomes[i].GetOr(Get(previous, table[i].id))
  {
    forall i | 0 <= i < |table|
      ensures Poll(previous, table, outcomes).state[table[i].id] == outcomes[i].GetOr(Get(previous, table[i].id))
    {
      PollValue(previous, table, outcomes, i);
    }
  }

  /**
   * Carry-forward and overwrite: on an unknown answer a package keeps its
   * previous value (absent reads as false); on a known answer it is saved
   * with exactly the fetched value, whatever the previous one was.
   */
  lemma {:induction false} SavedValue(previous: State, table: seq<Product>, outcomes: seq<Option<bool>>, i: nat)
    requires |outcomes| == |table|
    requires DistinctIds(table)
    requires i < |table|
    ensures outcomes[i].None? ==> Poll(previous, table, outcomes).state[table[i].id] == Get(previous, table[i].id)
    ensures outcomes[i].Some? ==> Poll(previous, table, outcomes).state[table[i].id] == outcomes[i].value
  {
    PollValues(previous, table, outcomes);
  }

  /** A package is listed in stock exactly when its fetch answered available. */
  lemma {:induction false} InStockExactly(previous: State, table: seq<Product>, outcomes: seq<Option<bool>>, n: string)
    requires |outcomes| == |table|
    ensures n in Poll(previous, table, outcomes).inStock <==>
              exists i :: 0 <= i < |table| && outcomes[i] == Some(true) && table[i].name == n
  {
    PollInStock(previous, table, outcomes);
    SelectMembership(table, InStockFlags(outcomes), n);
  }

  /**
   * A package is listed as new exactly when its fetch answered available and
   * its previous value (absent reads as false) was unavailable.
   */
  lemma {:induction false} NewlyExactly(previous: State, table: seq<Product>, outcomes: seq<Option<bool>>, n: string)
    requires |outcomes| == |table|
    ensures n in Poll(previous, table, outcomes).newly <==>
              exists i :: 0 <= i < |table| && outcomes[i] == Some(true)
                          && !Get(previous, table[i].id) && table[i].name == n
  {
    PollNewly(previous, table, outcomes);
    SelectMembership(table, NewFlags(previous, table, outcomes), n);
  }

  /** Something is reported new exactly when some package is newly available. */
  lemma {:induction false} SomethingNew(previous: State, table: seq<Product>, outcomes: seq<Option<bool>>)
    requires |outcomes| == |table|
    ensures |Poll(previous, table, outcomes).newly| > 0 <==>
              exists i :: 0 <= i < |table| && IsNew(previous, table[i], outcomes[i])
  {
    var c := Poll(previous, table, outcomes);
    if |c.newly| > 0 {
      NewlyExactly(previous, table, outcomes, c.newly[0]);
    }
    if exists i :: 0 <= i < |table| && IsNew(previous, table[i], outcomes[i]) {
      var i :| 0 <= i < |table| && IsNew(previous, table[i], outcomes[i]);
      NewlyExactly(previous, table, outcomes, table[i].name);
    }
  }

  /** Something is listed in stock exactly when some fetch answered available. */
  lemma {:induction false} SomethingInStock(previous: State, table: seq<Product>, outcomes: seq<Option<bool>>)
    requires |outcomes| == |table|
    ensures |Poll(previous, table, outcomes).inStock| > 0 <==>
              exists i :: 0 <= i < |table| && InStock(outcomes[i])
  {
    var c := Poll(previous, table, outcomes);
    if |c.inStock| > 0 {
      InStockExactly(previous, table, outcomes, c.inStock[0]);
    }
    if exists i :: 0 <= i < |table| && InStock(outcomes[i]) {
      var i :| 0 <= i < |table| && InStock(outcomes[i]);
      InStockExactly(previous, table, outcomes, table[i].name);
    }
  }

  /** A package whose fetch failed is never reported as new, whatever it was before. */
  lemma {:induction false} FailedNeverNew(previous: State, table: seq<Product>, outcomes: seq<Option<bool>>, i: nat)
    requires |outcomes| == |table|
    requires DistinctNames(table)
    requires i < |table| && outcomes[i].None?
    ensures table[i].name !in Poll(previous, table, outcomes).newly
  {
    NewlyExactly(previous, table, outcomes, table[i].name);
  }

  /** The new names are the in-stock names with some deleted, order preserved. */
  lemma {:induction false} NewlyWithinInStock(previous: State, table: seq<Product>, outcomes: seq<Option<bool>>)
    requires |outcomes| == |table|
    ensures Subsequence(Poll(previous, table, outcomes).newly, Poll(previous, table, outcomes).inStock)
  {
    PollInStock(previous, table, outcomes);
    PollNewly(previous, table, outcomes);
    SelectSubsequence(table, NewFlags(previous, table, outcomes), InStockFlags(outcomes));
  }

  /** The state saved after a re-run on the saved state is that same state. */
  lemma {:induction false} StableState(previous: State, table: seq<Product>, outcomes: seq<Option<bool>>)
    requires |outcomes| == |table|
    requires DistinctIds(table)
    ensures var c := Poll(previous, table, outcomes);
            Poll(c.state, table, outcomes).state == c.state
  {
    var c := Poll(previous, table, outcomes);
    var again := Poll(c.state, table, outcomes);
    PollValues(previous, table, outcomes);
    PollValues(c.state, table, outcomes);
    assert again.state.Keys == c.state.Keys;
    forall id | id in again.state ensures again.state[id] == c.state[id] {
      var i :| 0 <= i < |table| && table[i].id == id;
      assert Get(c.state, id) == c.state[id];
      if outcomes[i].None? {
        assert again.state[id] == Get(c.state, id);
      } else {
        assert again.state[id] == outcomes[i].value == c.state[id];
      }
    }
  }

  /**
   * No re-alerting: re-running the fold on the state it saved, with the same
   * answers, reports nothing new and keeps the in-stock list.
   */
  lemma {:induction false} NoReAlert(previous: State, table: seq<Product>, outcomes: seq<Option<bool>>)
    requires |outcomes| == |table|
    requires DistinctIds(table)
    ensures var c := Poll(previous, table, outcomes);
            var again := Poll(c.state, table, outcomes);
            again.newly == [] && again.inStock == c.inStock
  {
    var c := Poll(previous, table, outcomes);
    PollValues(previous, table, outcomes);
    PollNewly(c.state, table, outcomes);
    PollInStock(c.state, table, outcomes);
    PollInStock(previous, table, outcomes);
    var flags := NewFlags(c.state, table, outcomes);
    forall i | 0 <= i < |table| ensures !flags[i] {
      assert table[i].id in Ids(table);
    }
    SelectNothing(table, flags);
  }

  /** On a first run, with no saved state, every package in stock is new. */
  lemma {:induction false} FirstRunAllNew(table: seq<Product>, outcomes: seq<Option<bool>>)
    requires |outcomes| == |table|
    ensures Poll(map[], table, outcomes).newly == Poll(map[], table, outcomes).inStock
  {
    PollInStock(map[], table, outcomes);
    PollNewly(map[], table, outcomes);
    assert NewFlags(map[], table, outcomes) == InStockFlags(outcomes);
  }

  /**
   * The loop of `main` as written: one pass over the table in order, filling
   * `current_state`, `available_models` and `newly_available`.
   */
  method PollLoop(previous: State, table: seq<Product>, outcomes: seq<Option<bool>>)
    returns (state: State, inStock: seq<string>, newly: seq<string>)
    requires |outcomes| == |table|
    ensures Cycle(state, inStock, newly) == Poll(previous, table, outcomes)
    ensures state.Keys == Ids(table)
    ensures inStock == Select(table, InStockFlags(outcomes))
    ensures newly == Select(table, NewFlags(previous, table, outcomes))
  {
    state, inStock, newly := map[], [], [];
    var i := 0;
    while i < |table|
      invariant 0 <= i <= |table|
      invariant Cycle(state, inStock, newly) == Poll(previous, table[..i], outcomes[..i])
    {
      var p := table[i];
      match outcomes[i] {
        case None =>
          state := state[p.id := Get(previous, p.id)];
        case Some(available) =>
          state := state[p.id := available];
          if available {
            inStock := inStock + [p.name];
            if !Get(previous, p.id) {
              newly := newly + [p.name];
            }
          }
      }
      assert table[..i + 1][..i] == table[..i];
      assert outcomes[..i + 1][..i] == outcomes[..i];
      i := i + 1;
    }
    assert table[..i] == table;
    assert outcomes[..i] == outcomes;
    PollInStock(previous, table, outcomes);
    PollNewly(previous, table, outcomes);
  }
}
