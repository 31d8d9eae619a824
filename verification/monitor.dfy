/**
 * One invocation of the monitor (`main`): load the previous state, poll
 * every package in table order, save the new state, notify on new stock,
 * summarise, and exit with status 0.
 */
module Monitor {
  import opened Wrappers
  import opened Json
  import opened Catalog
  import Detect
  import Fetch
  import StateStore
  import RawCycle
  import Notify

  /** The closing console line of a run. */
  datatype Summary =
    | NewStock(models: seq<string>)   // "NOUVEAU STOCK DÉTECTÉ!" and the notifications
    | StillInStock(count: nat)        // "<count> modèle(s) en stock (pas de changement)"
    | NoneAvailable                   // "Aucun modèle disponible"

  /**
   * The three-way summary: new stock when something is new; otherwise the
   * number of models in stock when there are any; otherwise none available.
   */
  function Summarize(inStock: seq<string>, newly: seq<string>): (s: Summary)
    ensures s.NewStock? <==> |newly| > 0
    ensures s.NewStock? ==> s.models == newly
    ensures s.StillInStock? <==> |newly| == 0 && |inStock| > 0
    ensures s.StillInStock? ==> s.count == |inStock|
    ensures s.NoneAvailable? <==> |newly| == 0 && |inStock| == 0
  {
    if |newly| > 0 then NewStock(newly)
    else if |inStock| > 0 then StillInStock(|inStock|)
    else NoneAvailable
  }

  /** What a run leaves behind: the saved file, the notification attempts, the summary and the exit status. */
  datatype Report = Report(saved: StateStore.StateFile, requests: seq<Notify.Request>, summary: Summary, exitCode: int)

  /** Everything `main` does after the loop; the status is 0 whether or not anything is new. */
  function Finish(cfg: Notify.Config, c: RawCycle.RawCycle): Report {
    Report(StateStore.Save(c.state), Notify.Dispatch(cfg, c.newly), Summarize(c.inStock, c.newly),
           if |c.newly| == 0 then 0 else 0)
  }

  /** The previous state as the fold reads it. */
  function Previous(file: StateStore.StateFile): Detect.State {
    RawCycle.Abstract(StateStore.Load(file))
  }

  /** The tri-state answers of the fetches, one per package. */
  function Answers(replies: seq<Fetch.Reply>): seq<Option<bool>> {
    Fetch.Outcomes(Fetch.Checks(replies))
  }

  /**
   * `main` as written: `None` when the loop raises because the loaded state
   * is not a dict; then nothing is saved or sent and Python exits with status 1.
   */
  function RunAsWritten(cfg: Notify.Config, file: StateStore.StateFile, replies: seq<Fetch.Reply>): (r: Option<Report>)
    requires |replies| == |Products|
    ensures r.Some? ==> r.value.exitCode == 0
  {
    var c := RawCycle.RawPoll(StateStore.LoadAsWritten(file), Products, Fetch.Checks(replies));
    if c.None? then None else Some(Finish(cfg, c.value))
  }

  /**
   * `main` with the previous state always a dict. It always completes with
   * status 0 and saves one entry per package of the table, whatever the file
   * held before.
   */
  function Run(cfg: Notify.Config, file: StateStore.StateFile, replies: seq<Fetch.Reply>): (r: Report)
    requires |replies| == |Products|
    ensures r.exitCode == 0
    ensures StateStore.Load(r.saved).Keys == Ids(Products)
  {
    var checks := Fetch.Checks(replies);
    RawCycle.RawPollRefines(StateStore.Load(file), Products, checks);
    var c := RawCycle.RawPoll(Object(StateStore.Load(file)), Products, checks);
    Finish(cfg, c.value)
  }

  /** A run is the fold over the previous state and the answers, followed by dispatch and summary. */
  lemma {:induction false} RunIsPoll(cfg: Notify.Config, file: StateStore.StateFile, replies: seq<Fetch.Reply>)
    requires |replies| == |Products|
    ensures var r := Run(cfg, file, replies);
            var c := Detect.Poll(Previous(file), Products, Answers(replies));
            && Previous(r.saved) == c.state
            && r.requests == Notify.Dispatch(cfg, c.newly)
            && r.summary == Summarize(c.inStock, c.newly)
  {
    RawCycle.RawPollRefines(StateStore.Load(file), Products, Fetch.Checks(replies));
  }

  /** When the loaded state is a dict, or the file is missing or unreadable, both readings agree. */
  lemma {:induction false} RunMatchesAsWritten(cfg: Notify.Config, file: StateStore.StateFile, replies: seq<Fetch.Reply>)
    requires |replies| == |Products|
    requires StateStore.LoadAsWritten(file).Object?
    ensures RunAsWritten(cfg, file, replies) == Some(Run(cfg, file, replies))
  {
    RawCycle.RawPollRefines(StateStore.Load(file), Products, Fetch.Checks(replies));
  }

  /**
   * As written, a state file holding the JSON list `[]` and a run in which
   * the API cannot be reached raises (`list` has no `.get`) instead of
   * treating the file as empty state; the intended run completes with status 0.
   */
  lemma NonDictStateRaises(cfg: Notify.Config)
    ensures var file := StateStore.Present(Some(Array([])));
            var replies := seq(|Products|, _ => Fetch.Unreachable);
            RunAsWritten(cfg, file, replies).None? && Run(cfg, file, replies).exitCode == 0
  {
    var file := StateStore.Present(Some(Array([])));
    var replies := seq(|Products|, _ => Fetch.Unreachable);
    var checks := Fetch.Checks(replies);
    assert checks[0].Null?;
    RawCycle.NonDictRaises(Array([]), Products, checks);
  }

  /**
   * The summary reports new stock exactly when some package was fetched as
   * available after being unavailable (or absent) before; otherwise it
   * counts the packages fetched as available, and reports none available
   * exactly when no fetch answered available.
   */
  lemma {:induction false} RunSummary(cfg: Notify.Config, file: StateStore.StateFile, replies: seq<Fetch.Reply>)
    requires |replies| == |Products|
    ensures var s := Run(cfg, file, replies).summary;
            var answers := Answers(replies);
            && (s.NewStock? <==> exists i :: 0 <= i < |Products| && answers[i] == Some(true)
                                              && !Detect.Get(Previous(file), Products[i].id))
            && (s.StillInStock? ==> s.count == Detect.CountSet(Detect.InStockFlags(answers)))
            && (s.NoneAvailable? <==> forall i :: 0 <= i < |Products| ==> answers[i] != Some(true))
  {
    RunIsPoll(cfg, file, replies);
    PollSummary(Previous(file), Products, Answers(replies));
  }

  /** `RunSummary` for any table, stated on the fold. */
  lemma {:induction false} PollSummary(previous: Detect.State, table: seq<Product>, answers: seq<Option<bool>>)
    requires |answers| == |table|
    ensures var c := Detect.Poll(previous, table, answers);
            var s := Summarize(c.inStock, c.newly);
            && (s.NewStock? <==> exists i :: 0 <= i < |table| && answers[i] == Some(true)
                                              && !Detect.Get(previous, table[i].id))
            && (s.StillInStock? ==> s.count == Detect.CountSet(Detect.InStockFlags(answers)))
            && (s.NoneAvailable? <==> forall i :: 0 <= i < |table| ==> answers[i] != Some(true))
  {
    Detect.PollInStock(previous, table, answers);
    Detect.SelectLength(table, Detect.InStockFlags(answers));
    Detect.SomethingNew(previous, table, answers);
    Detect.SomethingInStock(previous, table, answers);
  }

  /**
   * No re-alerting across runs: a second run on the file the first one saved,
   * with the same answers, sends nothing, does not report new stock, and
   * saves the same availability.
   */
  lemma {:induction false} RunNoReAlert(cfg: Notify.Config, file: StateStore.StateFile, replies: seq<Fetch.Reply>)
    requires |replies| == |Products|
    ensures var first := Run(cfg, file, replies);
            var second := Run(cfg, first.saved, replies);
            && second.requests == []
            && !second.summary.NewStock?
            && Previous(second.saved) == Previous(first.saved)
  {
    var first := Run(cfg, file, replies);
    RunIsPoll(cfg, file, replies);
    RunIsPoll(cfg, first.saved, replies);
    Catalog.ProductsWellFormed();
    Detect.NoReAlert(Previous(file), Products, Answers(replies));
    Detect.StableState(Previous(file), Products, Answers(replies));
  }
}

/** Worked runs over the shipped package table. */
module Scenarios {
  import opened Wrappers
  import opened Json
  import opened Catalog
  import Detect
  import Fetch
  import StateStore
  import Notify
  import Monitor

  /** A 200 reply whose body carries `inventory_available: flag`. */
  function Answer(flag: bool): Fetch.Reply {
    Fetch.Response(200, Some(Object(map["response" := Object(map["inventory_available" := Bool(flag)])])))
  }

  /** The new list in `OneNewPackage`. */
  lemma {:induction false} OneNewPackageNewly(previous: Detect.State, answers: seq<Option<bool>>)
    requires previous == map["903905" := false, "903906" := false]
    requires answers == [Some(true), Some(false), Some(false), Some(false), Some(false)]
    ensures Detect.Poll(previous, Products, answers).newly == ["Steam Deck 64GB LCD"]
  {
    Detect.PollNewly(previous, Products, answers);
    assert Detect.NewFlags(previous, Products, answers) == [true, false, false, false, false];
  }

  /** The saved values in `OneNewPackage`. */
  lemma {:induction false} OneNewPackageState(previous: Detect.State, answers: seq<Option<bool>>)
    requires previous == map["903905" := false, "903906" := false]
    requires answers == [Some(true), Some(false), Some(false), Some(false), Some(false)]
    ensures var state := Detect.Poll(previous, Products, answers).state;
            "903905" in state && state["903905"] && "903906" in state && !state["903906"]
  {
    ProductsWellFormed();
    assert Products[0].id == "903905" && Products[1].id == "903906";
    Detect.SavedValue(previous, Products, answers, 0);
    Detect.SavedValue(previous, Products, answers, 1);
  }

  /**
   * Previous state {64GB LCD: false, 256GB LCD: false}; only the 64GB LCD is
   * fetched as available: it alone is reported new, and it alone is saved as available.
   */
  lemma {:induction false} OneNewPackage(cfg: Notify.Config, file: StateStore.StateFile, replies: seq<Fetch.Reply>)
    requires file == StateStore.Present(Some(Object(map["903905" := Bool(false), "903906" := Bool(false)])))
    requires replies == [Answer(true), Answer(false), Answer(false), Answer(false), Answer(false)]
    ensures var r := Monitor.Run(cfg, file, replies);
            && r.summary == Monitor.NewStock(["Steam Deck 64GB LCD"])
            && "903905" in Monitor.Previous(r.saved) && Monitor.Previous(r.saved)["903905"]
            && "903906" in Monitor.Previous(r.saved) && !Monitor.Previous(r.saved)["903906"]
  {
    var previous := Monitor.Previous(file);
    assert previous == map["903905" := false, "903906" := false];
    var answers := Monitor.Answers(replies);
    assert answers == [Some(true), Some(false), Some(false), Some(false), Some(false)];
    OneNewPackageNewly(previous, answers);
    OneNewPackageState(previous, answers);
    Monitor.RunIsPoll(cfg, file, replies);
  }

  /** The new list in `FailedFetchCarriesForward`. */
  lemma {:induction false} FailedFetchNewly(previous: Detect.State, answers: seq<Option<bool>>)
    requires previous == map["903905" := true]
    requires answers == [None, Some(false), Some(false), Some(false), Some(false)]
    ensures Detect.Poll(previous, Products, answers).newly == []
  {
    var keep := Detect.NewFlags(previous, Products, answers);
    assert forall i :: 0 <= i < |Products| ==> !keep[i] by {
      forall i | 0 <= i < |Products| ensures !keep[i] {
        assert answers[i] != Some(true);
      }
    }
    Detect.PollNewly(previous, Products, answers);
    Detect.SelectNothing(Products, keep);
  }

  /** The in-stock list in `FailedFetchCarriesForward`. */
  lemma {:induction false} FailedFetchInStock(previous: Detect.State, answers: seq<Option<bool>>)
    requires previous == map["903905" := true]
    requires answers == [None, Some(false), Some(false), Some(false), Some(false)]
    ensures Detect.Poll(previous, Products, answers).inStock == []
  {
    var keep := Detect.InStockFlags(answers);
    assert forall i :: 0 <= i < |Products| ==> !keep[i] by {
      forall i | 0 <= i < |Products| ensures !keep[i] {
        assert answers[i] != Some(true);
      }
    }
    Detect.PollInStock(previous, Products, answers);
    Detect.SelectNothing(Products, keep);
  }

  /** The carried-forward value in `FailedFetchCarriesForward`. */
  lemma {:induction false} FailedFetchState(previous: Detect.State, answers: seq<Option<bool>>)
    requires previous == map["903905" := true]
    requires answers == [None, Some(false), Some(false), Some(false), Some(false)]
    ensures var state := Detect.Poll(previous, Products, answers).state;
            "903905" in state && state["903905"]
  {
    ProductsWellFormed();
    assert Products[0].id == "903905";
    Detect.SavedValue(previous, Products, answers, 0);
  }

  /**
   * Previous state {64GB LCD: true}; its fetch fails and the others answer
   * unavailable: it stays saved as available, nothing is sent, and the run
   * reports no model in stock.
   */
  lemma {:induction false} FailedFetchCarriesForward(cfg: Notify.Config, file: StateStore.StateFile, replies: seq<Fetch.Reply>)
    requires file == StateStore.Present(Some(Object(map["903905" := Bool(true)])))
    requires replies == [Fetch.Unreachable, Answer(false), Answer(false), Answer(false), Answer(false)]
    ensures var r := Monitor.Run(cfg, file, replies);
            && "903905" in Monitor.Previous(r.saved) && Monitor.Previous(r.saved)["903905"]
            && r.requests == []
            && r.summary == Monitor.NoneAvailable
  {
    var previous := Monitor.Previous(file);
    assert previous == map["903905" := true];
    var answers := Monitor.Answers(replies);
    assert answers == [None, Some(false), Some(false), Some(false), Some(false)];
    FailedFetchNewly(previous, answers);
    FailedFetchInStock(previous, answers);
    FailedFetchState(previous, answers);
    Monitor.RunIsPoll(cfg, file, replies);
  }
}
