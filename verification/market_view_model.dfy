/**
  The market download controller (Algoloop.ViewModel.MarketViewModel): it owns one market's
  model, mirrors it into lists of view objects, and runs the download loop, one job per pass,
  until the market is deactivated or the current cancellation source is cancelled.

  The job itself runs in an isolated application domain; here it is an abstract outcome per
  pass. The one point where the user interface can act while the loop runs is the `await` of
  the job, so a pass is the UI action taken during the job together with the job's outcome.
*/
module Markets {
  import Wrappers
  import opened Text
  import opened Symbols

  /** A folder (a named list of symbols); its own view logic is not part of this model. */
  datatype FolderModel = FolderModel(name: string, symbols: seq<SymbolModel>)

  /** The market record: identifiers, the Active flag, and the inventory of symbols and folders. */
  datatype MarketModel = MarketModel(
    name: string,
    provider: string,
    active: bool,
    symbols: seq<SymbolModel>,
    folders: seq<FolderModel>)

  /** A view object (SymbolViewModel, FolderViewModel) wrapping a model; `key` is its object identity. */
  datatype View<T> = View(key: nat, model: T)

  /** Fresh view objects for the models, in order, with identities first, first + 1, ... */
  function Wrap<T>(ms: seq<T>, first: nat): (vs: seq<View<T>>)
    ensures |vs| == |ms|
    ensures forall i :: 0 <= i < |ms| ==> vs[i] == View(first + i, ms[i])
  {
    if ms == [] then [] else [View(first, ms[0])] + Wrap(ms[1..], first + 1)
  }

  /** The models behind a list of view objects, in order. */
  function Models<T>(vs: seq<View<T>>): (ms: seq<T>)
    ensures |ms| == |vs|
    ensures forall i :: 0 <= i < |vs| ==> ms[i] == vs[i].model
  {
    if vs == [] then [] else [vs[0].model] + Models(vs[1..])
  }

  /** Wrapping one more model appends one view with the next identity. */
  lemma WrapSnoc<T>(ms: seq<T>, first: nat, i: nat)
    requires i < |ms|
    ensures Wrap(ms[..i + 1], first) == Wrap(ms[..i], first) + [View(first + i, ms[i])]
  {
    var a, b := Wrap(ms[..i + 1], first), Wrap(ms[..i], first) + [View(first + i, ms[i])];
    assert forall k :: 0 <= k < |a| ==> a[k] == b[k];
  }

  /** The loop that adds one new view object per model, handing out identities from `first` on. */
  method NewViews<T>(ms: seq<T>, first: nat) returns (vs: seq<View<T>>)
    ensures vs == Wrap(ms, first)
  {
    vs := [];
    var key := first;
    var i := 0;
    while i < |ms|
      invariant 0 <= i <= |ms| && key == first + i
      invariant vs == Wrap(ms[..i], first)
    {
      WrapSnoc(ms, first, i);
      vs := vs + [View(key, ms[i])];
      key := key + 1;
      i := i + 1;
    }
    assert ms[..i] == ms;
  }

  /** Unwrapping freshly wrapped models gives the models back. */
  lemma ModelsOfWrap<T>(ms: seq<T>, first: nat)
    ensures Models(Wrap(ms, first)) == ms
  {
    assert forall i :: 0 <= i < |ms| ==> Models(Wrap(ms, first))[i] == ms[i];
  }

  /** Collection<T>.Remove: drops the first occurrence, if any. */
  function RemoveFirst<T(==)>(s: seq<T>, x: T): seq<T> {
    var i := FirstIndexOf(s, x);
    if i < 0 then s else s[..i] + s[i + 1..]
  }

  /** Removal takes out exactly one occurrence when there is one and nothing otherwise. */
  lemma RemoveFirstCount<T>(s: seq<T>, x: T)
    ensures x !in s ==> RemoveFirst(s, x) == s
    ensures x in s ==> |RemoveFirst(s, x)| == |s| - 1
    ensures x in s ==> multiset(RemoveFirst(s, x)) == multiset(s) - multiset{x}
  {
    if x in s {
      var i := FirstIndexOf(s, x);
      assert s == s[..i] + [x] + s[i + 1..];
    }
  }

  /** Removing an element that was just appended, and occurs nowhere else, undoes the append. */
  lemma RemoveFirstAppended<T>(s: seq<T>, x: T)
    requires x !in s
    ensures RemoveFirst(s + [x], x) == s
  {
    FirstIndexOfSplit(s, x, []);
    assert (s + [x])[..|s|] == s;
  }

  /**
    The identities of a list of view objects are below `bound` (the next identity to be
    handed out) and no two view objects of the list share one.
  */
  ghost predicate KeysBelow<T>(vs: seq<View<T>>, bound: nat) {
    (forall i :: 0 <= i < |vs| ==> vs[i].key < bound) &&
    (forall i, j :: 0 <= i < j < |vs| ==> vs[i].key != vs[j].key)
  }

  /**
    Object identity across both view lists: every view object has its own identity, below
    `bound`, and no symbol view shares one with a folder view.
  */
  ghost predicate DistinctIdentities<S, F>(symbols: seq<View<S>>, folders: seq<View<F>>, bound: nat) {
    KeysBelow(symbols, bound) && KeysBelow(folders, bound) &&
    forall i, j :: 0 <= i < |symbols| && 0 <= j < |folders| ==> symbols[i].key != folders[j].key
  }

  /** Views built one after the other from a counter have distinct identities below the new counter. */
  lemma WrapIdentities<S, F>(ss: seq<S>, fs: seq<F>, first: nat)
    ensures DistinctIdentities(Wrap(ss, first), Wrap(fs, first + |ss|), first + |ss| + |fs|)
  {
  }

  /** Removal keeps identities below the bound and distinct, and keeps only elements that were there. */
  lemma RemoveFirstKeysBelow<T>(vs: seq<View<T>>, x: View<T>, bound: nat)
    requires KeysBelow(vs, bound)
    ensures KeysBelow(RemoveFirst(vs, x), bound)
    ensures forall k :: 0 <= k < |RemoveFirst(vs, x)| ==> exists k' :: 0 <= k' < |vs| && RemoveFirst(vs, x)[k] == vs[k']
  {
    var i := FirstIndexOf(vs, x);
    if i >= 0 {
      var r := RemoveFirst(vs, x);
      forall k | 0 <= k < |r| ensures r[k] == vs[if k < i then k else k + 1] {
      }
      forall k, l | 0 <= k < l < |r| ensures r[k].key != r[l].key {
        assert r[k] == vs[if k < i then k else k + 1] && r[l] == vs[if l < i then l else l + 1];
      }
    }
  }

  /** What the user interface does while the job of a pass is awaited. */
  datatype UiAction =
    | Idle
    | StopCommand       // OnStopCommand: StopTask, then Active = false
    | ActiveCommandOff  // OnActiveCommand(false): StopTask alone

  /** How the job of one pass ends. */
  datatype JobOutcome =
    | Completed(result: MarketModel)  // Toolbox.Run returned a model
    | Unloaded                        // AppDomainUnloadedException: the domain was torn down
    | Faulted                         // any other exception

  datatype Pass = Pass(during: UiAction, outcome: JobOutcome)

  /** A CancellationTokenSource, by whether cancellation was requested. */
  datatype Cancellation = Cancellation(requested: bool)

  /** An Isolated<Toolbox>, by whether it was disposed. */
  datatype Toolbox = Toolbox(disposed: bool)

  /** Where the download loop stands when it stops or when the script of passes runs out. */
  datatype LoopEnd =
    | Exited(model: MarketModel, cancelled: bool)
    | Exhausted(model: MarketModel)

  /** The model after the UI action taken during the job. */
  function Interrupted(m: MarketModel, a: UiAction): MarketModel {
    if a == StopCommand then m.(active := false) else m
  }

  /** Whether the UI action cancels the pass's cancellation source. */
  predicate Cancels(a: UiAction) {
    a != Idle
  }

  /**
    The model installed at the end of a pass from the model m current when the job ends: the
    job's result replaces it whole; on either exception the market is deactivated and the
    model kept (the loop's local `model` is the same object as `Model`).
  */
  function Installed(m: MarketModel, o: JobOutcome): MarketModel {
    match o
    case Completed(r) => r
    case _ => m.(active := false)
  }

  /** The download loop as a function of the model, the cancellation flag and the passes to come. */
  function Run(m: MarketModel, cancelled: bool, ps: seq<Pass>): LoopEnd
    decreases |ps|
  {
    if cancelled || !m.active then Exited(m, cancelled)
    else if ps == [] then Exhausted(m)
    else Run(Installed(Interrupted(m, ps[0].during), ps[0].outcome), Cancels(ps[0].during), ps[1..])
  }

  /** Equal apart from the Active flag: same identifiers and the same inventory. */
  ghost predicate SameInventory(a: MarketModel, b: MarketModel) {
    a.(active := b.active) == b
  }

  /** The model holds the inventory of m or of one of the completed jobs among ps. */
  ghost predicate FromGeneration(x: MarketModel, m: MarketModel, ps: seq<Pass>) {
    SameInventory(x, m) ||
    exists k :: 0 <= k < |ps| && ps[k].outcome.Completed? && SameInventory(x, ps[k].outcome.result)
  }

  /** The loop stops only when its guard fails: cancellation requested or the market inactive. */
  lemma {:induction false} RunStopsOnlyOnGuard(m: MarketModel, cancelled: bool, ps: seq<Pass>)
    ensures Run(m, cancelled, ps).Exited? ==>
      Run(m, cancelled, ps).cancelled || !Run(m, cancelled, ps).model.active
    ensures Run(m, cancelled, ps).Exhausted? ==> Run(m, cancelled, ps).model.active
    decreases |ps|
  {
    if !cancelled && m.active && ps != [] {
      RunStopsOnlyOnGuard(Installed(Interrupted(m, ps[0].during), ps[0].outcome), Cancels(ps[0].during), ps[1..]);
    }
  }

  /**
    Reconciliation is a whole replacement: whatever the passes, the final model carries the
    inventory of the starting model or of exactly one completed job, never a mixture.
  */
  lemma {:induction false} RunInstallsWholeResults(m: MarketModel, cancelled: bool, ps: seq<Pass>)
    ensures FromGeneration(Run(m, cancelled, ps).model, m, ps)
    decreases |ps|
  {
    if !cancelled && m.active && ps != [] {
      var next := Installed(Interrupted(m, ps[0].during), ps[0].outcome);
      RunInstallsWholeResults(next, Cancels(ps[0].during), ps[1..]);
      var x := Run(m, cancelled, ps).model;
      assert x == Run(next, Cancels(ps[0].during), ps[1..]).model;
      if SameInventory(x, next) {
        if ps[0].outcome.Completed? {
          assert SameInventory(x, ps[0].outcome.result);
        } else {
          assert SameInventory(x, m);
        }
      } else {
        var k :| 0 <= k < |ps[1..]| && ps[1..][k].outcome.Completed? && SameInventory(x, ps[1..][k].outcome.result);
        assert ps[k + 1] == ps[1..][k];
      }
    }
  }

  /** A pass whose job throws ends the loop, deactivated, with the inventory it started with. */
  lemma RunFailedPass(m: MarketModel, ps: seq<Pass>)
    requires m.active && |ps| > 0 && !ps[0].outcome.Completed?
    ensures Run(m, false, ps) == Exited(m.(active := false), Cancels(ps[0].during))
  {
  }

  /**
    A stop during a pass ends the loop after that pass, whatever the job does; if the job
    still completes, its result is installed as it is, Active flag included.
  */
  lemma RunStoppedPass(m: MarketModel, ps: seq<Pass>)
    requires m.active && |ps| > 0 && Cancels(ps[0].during)
    ensures Run(m, false, ps) == Exited(Installed(Interrupted(m, ps[0].during), ps[0].outcome), true)
    ensures ps[0].outcome.Completed? ==> Run(m, false, ps).model == ps[0].outcome.result
  {
  }

  /** All passes undisturbed, all jobs returning an active market: the loop goes on with the last result. */
  lemma {:induction false} RunKeepsDownloading(m: MarketModel, ps: seq<Pass>)
    requires m.active
    requires forall k :: 0 <= k < |ps| ==>
      ps[k].during == Idle && ps[k].outcome.Completed? && ps[k].outcome.result.active
    ensures Run(m, false, ps) == Exhausted(if ps == [] then m else ps[|ps| - 1].outcome.result)
    decreases |ps|
  {
    if ps != [] {
      RunKeepsDownloading(ps[0].outcome.result, ps[1..]);
      if |ps| > 1 { assert ps[1..][|ps[1..]| - 1] == ps[|ps| - 1]; }
    }
  }

  class MarketViewModel {
    var model: MarketModel
    var symbols: seq<View<SymbolModel>>
    var folders: seq<View<FolderModel>>
    var cancel: Wrappers.Option<Cancellation>
    var toolbox: Wrappers.Option<Toolbox>
    /** The identity the next view object gets. */
    var nextKey: nat

    /**
      Object identity of the view objects: every view object in either list has its own
      identity, handed out before nextKey.
    */
    ghost predicate Valid()
      reads this`symbols, this`folders, this`nextKey
    {
      DistinctIdentities(symbols, folders, nextKey)
    }

    constructor (marketModel: MarketModel)
      ensures model == marketModel && cancel.None? && toolbox.None?
      ensures symbols == Wrap(marketModel.symbols, 0)
      ensures folders == Wrap(marketModel.folders, |marketModel.symbols|)
      ensures nextKey == |marketModel.symbols| + |marketModel.folders|
      ensures Valid()
    {
      model := marketModel;
      symbols, folders := [], [];
      cancel, toolbox := Wrappers.None, Wrappers.None;
      nextKey := 0;
      new;
      DataFromModel();
    }

    /** The Active property reads the model's flag. */
    function Active(): bool
      reads this
    {
      model.active
    }

    /** The Active setter writes through to the model and changes nothing else. */
    method SetActive(value: bool)
      modifies this`model
      ensures model == old(model).(active := value)
      ensures Active() == value
    {
      model := model.(active := value);
    }

    /** Copies the view lists back into the model, in order. */
    method DataToModel()
      modifies this`model
      ensures model == old(model).(symbols := Models(symbols), folders := Models(folders))
    {
      model := model.(symbols := []);
      var i := 0;
      while i < |symbols|
        invariant 0 <= i <= |symbols|
        invariant model == old(model).(symbols := model.symbols)
        invariant |model.symbols| == i
        invariant forall j :: 0 <= j < i ==> model.symbols[j] == symbols[j].model
      {
        model := model.(symbols := model.symbols + [symbols[i].model]);
        i := i + 1;
      }
      assert model.symbols == Models(symbols);
      model := model.(folders := []);
      i := 0;
      while i < |folders|
        invariant 0 <= i <= |folders|
        invariant model == old(model).(symbols := Models(symbols), folders := model.folders)
        invariant |model.folders| == i
        invariant forall j :: 0 <= j < i ==> model.folders[j] == folders[j].model
      {
        model := model.(folders := model.folders + [folders[i].model]);
        i := i + 1;
      }
      assert model.folders == Models(folders);
    }

    /**
      Rebuilds both view lists, one fresh view object per model entry. Its first statement,
      `Active = Model.Active`, writes the model's own flag back and only raises notifications,
      so the model is unchanged.
    */
    method DataFromModel()
      modifies this`symbols, this`folders, this`nextKey
      ensures model == old(model)
      ensures symbols == Wrap(model.symbols, old(nextKey))
      ensures folders == Wrap(model.folders, old(nextKey) + |model.symbols|)
      ensures nextKey == old(nextKey) + |model.symbols| + |model.folders|
      ensures Valid()
    {
      var ms, fs := model.symbols, model.folders;
      symbols := NewViews(ms, nextKey);
      folders := NewViews(fs, nextKey + |ms|);
      nextKey := nextKey + |ms| + |fs|;
      WrapIdentities(ms, fs, old(nextKey));
    }

    /** Removes the folder view and tells whether it was in the list. */
    method DeleteFolder(folder: View<FolderModel>) returns (found: bool)
      requires Valid()
      modifies this`folders
      ensures found == (folder in old(folders))
      ensures folders == RemoveFirst(old(folders), folder)
      ensures Valid()
    {
      found := folder in folders;
      RemoveFirstKeysBelow(folders, folder, nextKey);
      folders := RemoveFirst(folders, folder);
    }

    /** Removes the symbol view and tells whether it was in the list. */
    method DeleteSymbol(symbol: View<SymbolModel>) returns (found: bool)
      requires Valid()
      modifies this`symbols
      ensures found == (symbol in old(symbols))
      ensures symbols == RemoveFirst(old(symbols), symbol)
      ensures Valid()
    {
      found := symbol in symbols;
      RemoveFirstKeysBelow(symbols, symbol, nextKey);
      symbols := RemoveFirst(symbols, symbol);
    }

    /**
      Appends one new view of a default symbol. The new view object is distinct from every
      other one, so deleting it restores the list as it was.
    */
    method AddSymbol()
      requires Valid()
      modifies this`symbols, this`nextKey
      ensures symbols == old(symbols) + [View(old(nextKey), Default())]
      ensures nextKey == old(nextKey) + 1
      ensures Valid()
      ensures RemoveFirst(symbols, symbols[|symbols| - 1]) == old(symbols)
    {
      var added := View(nextKey, Default());
      assert added !in symbols;
      RemoveFirstAppended(symbols, added);
      symbols := symbols + [added];
      nextKey := nextKey + 1;
    }

    /** The start of a pass: a new isolated toolbox and a new cancellation source. */
    method StartPass()
      modifies this`toolbox, this`cancel
      ensures toolbox == Wrappers.Some(Toolbox(false))
      ensures cancel == Wrappers.Some(Cancellation(false))
    {
      toolbox := Wrappers.Some(Toolbox(false));
      cancel := Wrappers.Some(Cancellation(false));
    }

    /**
      The end of a pass, once the job has ended: the toolbox is released, the model is
      replaced or the market deactivated, and the views are rebuilt. The general catch
      disposes the toolbox, so a toolbox must exist.
    */
    method CompletePass(outcome: JobOutcome)
      requires toolbox.Some?
      modifies this`model, this`toolbox, this`symbols, this`folders, this`nextKey
      ensures toolbox.None?
      ensures model == Installed(old(model), outcome)
      ensures symbols == Wrap(model.symbols, old(nextKey))
      ensures folders == Wrap(model.folders, old(nextKey) + |model.symbols|)
      ensures nextKey == old(nextKey) + |model.symbols| + |model.folders|
      ensures Valid()
    {
      var result := model;
      match outcome {
        case Completed(r) =>
          result := r;
          toolbox := Wrappers.Some(toolbox.value.(disposed := true));
          toolbox := Wrappers.None;
        case Unloaded =>
          toolbox := Wrappers.None;
          SetActive(false);
          result := model;
        case Faulted =>
          toolbox := Wrappers.Some(toolbox.value.(disposed := true));
          toolbox := Wrappers.None;
          SetActive(false);
          result := model;
      }
      model := result;
      DataFromModel();
    }

    /** Cancels the current source and disposes the current toolbox, each only if there is one. */
    method StopTask()
      modifies this`cancel, this`toolbox
      ensures cancel == if old(cancel).Some? then Wrappers.Some(Cancellation(true)) else Wrappers.None
      ensures toolbox == if old(toolbox).Some? then Wrappers.Some(Toolbox(true)) else Wrappers.None
    {
      if cancel.Some? {
        cancel := Wrappers.Some(Cancellation(true));
      }
      if toolbox.Some? {
        toolbox := Wrappers.Some(Toolbox(true));
      }
    }

    /**
      One turn of the loop body: a new toolbox and source, the UI action taken while the job
      is awaited, then the end of the job.
    */
    method RunPass(pass: Pass)
      modifies this`model, this`cancel, this`toolbox, this`symbols, this`folders, this`nextKey
      ensures model == Installed(Interrupted(old(model), pass.during), pass.outcome)
      ensures cancel == Wrappers.Some(Cancellation(Cancels(pass.during)))
      ensures toolbox.None?
      ensures Models(symbols) == model.symbols && Models(folders) == model.folders
      ensures Valid()
    {
      StartPass();
      match pass.during {
        case Idle =>
        case StopCommand => OnStopCommand();
        case ActiveCommandOff => StopTask();
      }
      CompletePass(pass.outcome);
      ModelsOfWrap(model.symbols, nextKey - |model.symbols| - |model.folders|);
      ModelsOfWrap(model.folders, nextKey - |model.folders|);
    }

    /**
      The download loop. `passes` scripts the passes to come; when it runs out while the loop
      would go on, `done` is false and the loop is left at its guard.
    */
    method StartTaskAsync(passes: seq<Pass>) returns (done: bool)
      requires Valid()
      modifies this`model, this`cancel, this`toolbox, this`symbols, this`folders, this`nextKey
      ensures var m0 := old(model).(symbols := Models(old(symbols)), folders := Models(old(folders)));
        done == Run(m0, false, passes).Exited? && model == Run(m0, false, passes).model
      ensures done ==> cancel.None?
      ensures !done ==> cancel == Wrappers.Some(Cancellation(false))
      ensures Models(symbols) == model.symbols && Models(folders) == model.folders
      ensures old(model).active && |passes| > 0 ==> toolbox.None?
      ensures !(old(model).active && |passes| > 0) ==> toolbox == old(toolbox)
      ensures Valid()
    {
      DataToModel();
      ghost var m0 := model;
      cancel := Wrappers.Some(Cancellation(false));
      var i := 0;
      while !cancel.value.requested && model.active && i < |passes|
        invariant 0 <= i <= |passes|
        invariant cancel.Some?
        invariant Run(m0, false, passes) == Run(model, cancel.value.requested, passes[i..])
        invariant Models(symbols) == model.symbols && Models(folders) == model.folders
        invariant Valid()
        invariant i == 0 ==> model == m0 && !cancel.value.requested && toolbox == old(toolbox)
        invariant i > 0 ==> toolbox.None? && m0.active && m0.active == old(model).active
      {
        assert passes[i..][1..] == passes[i + 1..];
        RunPass(passes[i]);
        i := i + 1;
      }
      done := cancel.value.requested || !model.active;
      if done {
        cancel := Wrappers.None;
      }
    }

    /** OnActiveCommand: true runs the loop; false only calls StopTask (then `done` is true). */
    method OnActiveCommand(value: bool, passes: seq<Pass>) returns (done: bool)
      requires Valid()
      modifies this`model, this`cancel, this`toolbox, this`symbols, this`folders, this`nextKey
      ensures var m0 := old(model).(symbols := Models(old(symbols)), folders := Models(old(folders)));
        value ==> done == Run(m0, false, passes).Exited? && model == Run(m0, false, passes).model
      ensures Valid()
      ensures value && done ==> cancel.None?
      ensures value && !done ==> cancel == Wrappers.Some(Cancellation(false))
      ensures value ==> Models(symbols) == model.symbols && Models(folders) == model.folders
      ensures value && old(model).active && |passes| > 0 ==> toolbox.None?
      ensures value && !(old(model).active && |passes| > 0) ==> toolbox == old(toolbox)
      ensures !value ==> done && model == old(model)
      ensures !value ==> symbols == old(symbols) && folders == old(folders) && nextKey == old(nextKey)
      ensures !value ==> cancel == if old(cancel).Some? then Wrappers.Some(Cancellation(true)) else Wrappers.None
      ensures !value ==> toolbox == if old(toolbox).Some? then Wrappers.Some(Toolbox(true)) else Wrappers.None
    {
      if value {
        done := StartTaskAsync(passes);
      } else {
        StopTask();
        done := true;
      }
    }

    /** OnStartCommand: activates the market, then runs the loop. */
    method OnStartCommand(passes: seq<Pass>) returns (done: bool)
      requires Valid()
      modifies this`model, this`cancel, this`toolbox, this`symbols, this`folders, this`nextKey
      ensures var m0 := old(model).(active := true, symbols := Models(old(symbols)), folders := Models(old(folders)));
        done == Run(m0, false, passes).Exited? && model == Run(m0, false, passes).model
      ensures done ==> cancel.None?
      ensures !done ==> cancel == Wrappers.Some(Cancellation(false))
      ensures Models(symbols) == model.symbols && Models(folders) == model.folders
      ensures |passes| > 0 ==> toolbox.None?
      ensures |passes| == 0 ==> toolbox == old(toolbox)
      ensures Valid()
    {
      SetActive(true);
      done := StartTaskAsync(passes);
    }

    /** OnStopCommand: StopTask, then deactivates the market. */
    method OnStopCommand()
      modifies this`model, this`cancel, this`toolbox
      ensures cancel == if old(cancel).Some? then Wrappers.Some(Cancellation(true)) else Wrappers.None
      ensures toolbox == if old(toolbox).Some? then Wrappers.Some(Toolbox(true)) else Wrappers.None
      ensures model == old(model).(active := false) && !Active()
    {
      StopTask();
      SetActive(false);
    }
  }
}
