# Algoloop market download controller, symbol ordering and research page rules, in Dafny

This project models three parts of Algoloop, a trading-research desktop application:

- **The market download controller** (`MarketViewModel`). It owns one market's model and mirrors
  the model's symbols and folders into lists of view objects. It runs the download loop: in each
  pass a fresh isolated toolbox and a fresh cancellation source are created and the download job
  runs. A completed job's model replaces the market model whole. On either exception the market
  is deactivated and the model is kept. The views are then rebuilt, and the loop goes on while
  the current cancellation source is not cancelled and the market is active. Stop, Start and the
  Active toggle drive the flag and the cancellation.
- **A market symbol** (`SymbolModel`). Its constructors, the string conversion used when
  upgrading an old database, its display text and its ordering: by name, then market (both
  ordinal, ignoring case, null first), then security type.
- **The research page** (`ResearchViewModel`). The standard-output handler captures the
  notebook URL once. PYTHONPATH gets the program folder in front. The Lean configuration gets
  forward-slash paths. The notebook folder defaults to a folder under the user data folder.
  The Initialized and disposed flags guard start, stop and disposal.

Files: `wrappers.dfy` (Option, Result), `text.dfy` (the .NET string rules used: nullable
strings, `string.Compare` and `string.IndexOf` with `StringComparison.OrdinalIgnoreCase`),
`symbol_model.dfy`, `market_view_model.dfy`, `research_view_model.dfy`.

How things are modelled:

- The download job is an abstract outcome per pass: `Completed(model)`, `Unloaded` (the
  `AppDomainUnloadedException` branch) or `Faulted` (any other exception).
- The only point where the user interface can act while the loop runs is the `await` of the
  job. A pass therefore pairs the UI action taken during the job (none, `OnStopCommand`, or
  `OnActiveCommand(false)`) with the job's outcome.
- `StartPass` and `CompletePass` are the halves of a pass on either side of the `await`.
  `StopTask` and `OnStopCommand` are separate methods called between them.
- The loop is specified by the function `Markets.Run`, and `StartTaskAsync` is proved equal to it.
- Models are values. The job runs in another application domain and receives a serialised copy,
  so it cannot change the caller's object. The loop's local `model` is the same object as `Model`
  at the start of every pass. So on an exception, re-installing it keeps the `Active = false`
  written through `Model`.
- View objects are `View(key, model)`. `key` is the object identity that
  `Collection.Remove` compares, taken from a counter.
- `MarketViewModel.Valid` is the invariant that object identity gives the real program: no two
  view objects share a key, and every key is below the counter. The constructor establishes it
  and every method that touches the views keeps it.
- `DataFromModel` starts with `Active = Model.Active`. That writes the model's own flag back, so
  in the model it changes nothing; the notifications it raises are not modelled.

## Model

| member | source | states |
|---|---|---|
| `Text.CompareIgnoreCase` | Algoloop/Model/SymbolModel.cs:82-84 | null sorts before any string and two nulls compare equal |
| `Text.CompareIgnoreCaseAntisymmetric` | Algoloop/Model/SymbolModel.cs:82-84 | swapping the two strings negates the result |
| `Text.CompareIgnoreCaseZeroIff` | Algoloop/Model/SymbolModel.cs:82-84 | 0 exactly when both are null or both are equal ignoring case |
| `Text.CompareIgnoreCaseTransitive` | Algoloop/Model/SymbolModel.cs:82-84 | the comparison is transitive, and a 0 at the ends forces 0 at both links |
| `Text.CompareFoldedNegativeIff` | Algoloop/Model/SymbolModel.cs:82-84 | a negative result means exactly that the first string sorts first: after a common case-folded prefix it ends while the other goes on, or its next upper-cased code unit is the smaller |
| `Text.IndexOfIgnoreCase` | Algoloop.Wpf/ViewModel/ResearchViewModel.cs:121 | the first index where the pattern occurs ignoring case, or -1 exactly when it occurs nowhere |
| `Symbols.Default` | Algoloop/Model/SymbolModel.cs:57-70 | Active true, Name "symbol"; Id and Market null, Security Base |
| `Symbols.Create` | Algoloop/Model/SymbolModel.cs:31-36 | sets Name, Market and Security, everything else is the default |
| `Symbols.Copy` | Algoloop/Model/SymbolModel.cs:38-46 | null throws ArgumentNullException; otherwise Active, Name, Market and Security are copied and Id is left at null |
| `Symbols.FromString` | Algoloop/Model/SymbolModel.cs:52-55 | the string becomes Name, Market is "", Security Base, Active true |
| `Symbols.CompareSecurity` | Algoloop/Model/SymbolModel.cs:86 | a null target gives 1; otherwise -1, 0 or 1 by the enum value |
| `Symbols.CompareToNull` | Algoloop/Model/SymbolModel.cs:79-87 | every symbol sorts after null or a non-symbol |
| `Symbols.CompareToLexicographic` | Algoloop/Model/SymbolModel.cs:79-87 | the name decides first; the market only on equal names; the security only on equal markets |
| `Symbols.CompareToZeroIff` | Algoloop/Model/SymbolModel.cs:79-87 | 0 exactly when names and markets are equal ignoring case and securities are equal |
| `Symbols.CompareToSelf` | Algoloop/Model/SymbolModel.cs:79-87 | a symbol compares 0 with itself |
| `Symbols.CompareToAntisymmetric` | Algoloop/Model/SymbolModel.cs:79-87 | swapping two symbols negates the result |
| `Symbols.CompareToTransitive` | Algoloop/Model/SymbolModel.cs:79-87 | transitive with its strict part: CompareTo is a total preorder |
| `Symbols.CopyComparesEqual` | Algoloop/Model/SymbolModel.cs:38-46 | a copy compares 0 with its original, and copying a copy changes nothing |
| `Symbols.FromStringOrder` | Algoloop/Model/SymbolModel.cs:52-55 | symbols made from strings order exactly as the strings do |
| `Symbols.ToStringRoundTrip` | Algoloop/Model/SymbolModel.cs:89-92 | the text is security, market and name joined by spaces, and all three can be read back when the market has no space |
| `Markets.ModelsOfWrap` | Algoloop/ViewModel/MarketViewModel.cs:92-124 | rebuilding the views and copying them back gives the same symbol and folder lists |
| `Markets.RemoveFirstCount` | Algoloop/ViewModel/MarketViewModel.cs:126-135 | removal drops exactly one occurrence when there is one, and nothing otherwise |
| `Markets.RemoveFirstAppended` | Algoloop/ViewModel/MarketViewModel.cs:132-135 | removing an element just appended, which occurs nowhere else, gives the list back |
| `Markets.RemoveFirstKeysBelow` | Algoloop/ViewModel/MarketViewModel.cs:126-135 | removal keeps the view objects distinct and their identities below the counter, and leaves only views that were there |
| `Markets.NewViews` | Algoloop/ViewModel/MarketViewModel.cs:111-122 | the loop adds one new view per model entry, in order, with identities handed out from the counter |
| `Markets.RunStopsOnlyOnGuard` | Algoloop/ViewModel/MarketViewModel.cs:142 | the loop ends only when cancellation is requested or the market is inactive |
| `Markets.RunInstallsWholeResults` | Algoloop/ViewModel/MarketViewModel.cs:149-169 | the final model has the inventory of the start model or of one completed job, never a mixture |
| `Markets.RunFailedPass` | Algoloop/ViewModel/MarketViewModel.cs:153-165 | a pass whose job throws ends the loop, inactive, with the inventory it started with |
| `Markets.RunStoppedPass` | Algoloop/ViewModel/MarketViewModel.cs:177-188 | a stop during a pass ends the loop after it; a job that still completes has its result installed as is |
| `Markets.RunKeepsDownloading` | Algoloop/ViewModel/MarketViewModel.cs:142-171 | undisturbed passes whose jobs return active markets keep the loop going with the latest result |
| `Markets.MarketViewModel.constructor` | Algoloop/ViewModel/MarketViewModel.cs:36-51 | keeps the model and builds one view per symbol and folder, with distinct identities; no task and no toolbox |
| `Markets.MarketViewModel.SetActive` | Algoloop/ViewModel/MarketViewModel.cs:64-75 | writes through: the model's flag becomes the value and nothing else changes |
| `Markets.MarketViewModel.DataToModel` | Algoloop/ViewModel/MarketViewModel.cs:92-106 | the model's symbols and folders become the views' models, in order |
| `Markets.MarketViewModel.DataFromModel` | Algoloop/ViewModel/MarketViewModel.cs:108-124 | one fresh view per model entry, in order, every view object with its own identity; the model is unchanged |
| `Markets.MarketViewModel.DeleteFolder` | Algoloop/ViewModel/MarketViewModel.cs:126-129 | removes the first occurrence, returns whether there was one, and keeps the view objects distinct |
| `Markets.MarketViewModel.DeleteSymbol` | Algoloop/ViewModel/MarketViewModel.cs:132-135 | removes the first occurrence, returns whether there was one, and keeps the view objects distinct |
| `Markets.MarketViewModel.AddSymbol` | Algoloop/ViewModel/MarketViewModel.cs:214-219 | appends exactly one view of a default symbol, distinct from every other view, so deleting it gives the old list back |
| `Markets.MarketViewModel.StartPass` | Algoloop/ViewModel/MarketViewModel.cs:147-148 | a new undisposed toolbox and a new uncancelled source |
| `Markets.MarketViewModel.CompletePass` | Algoloop/ViewModel/MarketViewModel.cs:149-170 | needs a toolbox; releases it, installs the result or deactivates, rebuilds the views |
| `Markets.MarketViewModel.RunPass` | Algoloop/ViewModel/MarketViewModel.cs:145-170 | one pass: the model becomes `Installed` of the model after the UI action, the source is cancelled exactly when the UI acted, no toolbox is left and the views match the model |
| `Markets.MarketViewModel.StopTask` | Algoloop/ViewModel/MarketViewModel.cs:177-188 | cancels the source and disposes the toolbox where they exist, and is a no-op where they do not |
| `Markets.MarketViewModel.StartTaskAsync` | Algoloop/ViewModel/MarketViewModel.cs:137-175 | equals `Run` from the model after `DataToModel`; the source is cleared exactly when the loop ended, no toolbox is left after a pass, the views match the model and keep distinct identities |
| `Markets.MarketViewModel.OnActiveCommand` | Algoloop/ViewModel/MarketViewModel.cs:190-200 | true runs the loop, with all of `StartTaskAsync`'s guarantees; false only calls StopTask and leaves the model and the views alone |
| `Markets.MarketViewModel.OnStartCommand` | Algoloop/ViewModel/MarketViewModel.cs:202-206 | sets Active before the loop, so the loop starts from an active model; then all of `StartTaskAsync`'s guarantees |
| `Markets.MarketViewModel.OnStopCommand` | Algoloop/ViewModel/MarketViewModel.cs:208-212 | calls StopTask and always leaves Active false |
| `Research.CaptureSource` | Algoloop.Wpf/ViewModel/ResearchViewModel.cs:117-125 | null or empty lines change nothing; Source changes exactly when it is empty and the first "http" is past index 0, and then becomes the rest of the line from there |
| `Research.FeedKeepsCapturedSource` | Algoloop.Wpf/ViewModel/ResearchViewModel.cs:122-125 | once Source is non-empty, no later line changes it |
| `Research.FeedCapturesFirst` | Algoloop.Wpf/ViewModel/ResearchViewModel.cs:119-125 | over many lines Source is captured at most once, from the first line that qualifies |
| `Research.ComposePythonPath` | Algoloop.Wpf/ViewModel/ResearchViewModel.cs:131-140 | the program folder comes first; an inherited value follows after ";" and is kept whole |
| `Research.PythonPathRoundTrip` | Algoloop.Wpf/ViewModel/ResearchViewModel.cs:131-140 | folder and inherited value can be read back when the folder has no ";" |
| `Research.ReplaceBackslashes` | Algoloop.Wpf/ViewModel/ResearchViewModel.cs:146-147 | same length, no backslash left, each backslash becomes '/' and all else is kept |
| `Research.ReplaceBackslashesIdempotent` | Algoloop.Wpf/ViewModel/ResearchViewModel.cs:146-147 | normalising twice is normalising once |
| `Research.LanguageConfig` | Algoloop.Wpf/ViewModel/ResearchViewModel.cs:143-146 | the language is Python and the DLL directory the program folder with forward slashes; every other entry is kept |
| `Research.Combine` | Algoloop.Wpf/ViewModel/ResearchViewModel.cs:169 | an empty second path gives the first; an empty first or a rooted second gives the second; otherwise the first, at most one separator, then the second |
| `Research.LeanConfig` | Algoloop.Wpf/ViewModel/ResearchViewModel.cs:143-150 | the six entries the page writes, with their values; both paths have no backslash; every other entry of the child's configuration is kept |
| `Research.StartedProcess` | Algoloop.Wpf/ViewModel/ResearchViewModel.cs:112-153 | the configured child: PYTHONPATH starts with the program folder, not disposed, running exactly when the data folder is set and the launch succeeds |
| `Research.NotebookFolder` | Algoloop.Wpf/ViewModel/ResearchViewModel.cs:164-172 | a set folder is kept; an empty one becomes a path that starts with the user data folder and ends with "Notebook" |
| `Research.ResearchViewModel.constructor` | Algoloop.Wpf/ViewModel/ResearchViewModel.cs:39-43 | keeps the settings; no process, not initialized, not disposed |
| `Research.ResearchViewModel.SetInitialized` | Algoloop.Wpf/ViewModel/ResearchViewModel.cs:62-66 | the public setter sets the flag and nothing else |
| `Research.ResearchViewModel.OnOutputLine` | Algoloop.Wpf/ViewModel/ResearchViewModel.cs:117-128 | Source becomes `CaptureSource` of the old Source and the line |
| `Research.ResearchViewModel.SetNotebookFolder` | Algoloop.Wpf/ViewModel/ResearchViewModel.cs:164-172 | Notebook becomes `NotebookFolder` of the old value |
| `Research.ResearchViewModel.StopJupyter` | Algoloop.Wpf/ViewModel/ResearchViewModel.cs:156-162 | does nothing unless Initialized; then stops the process, or fails with nothing changed when there is none |
| `Research.ResearchViewModel.StartJupyter` | Algoloop.Wpf/ViewModel/ResearchViewModel.cs:108-154 | fails with nothing changed when StopJupyter fails; otherwise the notebook folder is filled in and the process is `StartedProcess`; it succeeds exactly when the data folder is set and the launch succeeds |
| `Research.ResearchViewModel.Initialize` | Algoloop.Wpf/ViewModel/ResearchViewModel.cs:94-106 | the state `StartJupyter` leaves; Initialized ends true exactly when starting did not throw, and then the server runs |
| `Research.ResearchViewModel.Dispose` | Algoloop.Wpf/ViewModel/ResearchViewModel.cs:77-92 | idempotent once disposed; without a process it fails on `disposing` or when Initialized, and is marked disposed only when it did not fail; with one it disposes it on `disposing`, stops it when Initialized, and sets the flag |

## Behaviour of the code worth noting

- A stop during a pass whose job still completes does not keep the market inactive. The code
  installs the job's result anyway (MarketViewModel.cs:168-170), and `DataFromModel` then reads
  Active back from that result. So Active can be true again after `OnStopCommand`. The loop
  still ends, because the pass's cancellation source was cancelled (line 142).
  `Markets.RunStoppedPass` states this.
- A cancellation source is created before the loop (line 141) and again in every pass
  (line 148). The loop guard reads the newest one.
- A second loop can start after a Stop during a pass. The Stop leaves the first loop waiting
  for its job, and only the enabled state of the Start command (`!Active`) guards against a
  new `StartTaskAsync`. Two loops running at once are not modelled: `Start` and
  `OnActiveCommand(true)` are not among the UI actions a pass can carry.
- `Initialized` has a public setter (ResearchViewModel.cs:62-66). Set to true while there is no
  process, it makes `StopJupyter` throw a `NullReferenceException`, and with it `StartJupyter`,
  `Initialize` and `Dispose`. The model keeps this case: those methods then fail with `ok`
  false.

## Left out

- Threads, `Task.Run`, `await` and `async void` are left out. The only interleaving modelled is
  a UI action at the await point of a pass.
- The insides of `CancellationTokenSource` and `Isolated<Toolbox>`, and application-domain
  isolation, are left out. A source is a cancelled flag and a toolbox a disposed flag.
- `Toolbox.Run` and the data providers are not part of this model (network I/O). Each pass's
  outcome is an input.
- Failures of `new Isolated<Toolbox>()` and of `_toolbox.Dispose()` in the success branch are left
  out. `CompletePass` requires the toolbox that line 162 dereferences.
- Markets.MarketViewModel.StartTaskAsync: the loop runs on a finite script of passes. When the
  script runs out while the guard still holds, it returns `done == false` at the guard. A
  download that never ends is not modelled beyond that point.
- Logging, `RaisePropertyChanged`, `RaiseCanExecuteChanged`, the `RelayCommand` wiring and its
  enabled-state lambdas, and the transient `Model = null` are left out (UI plumbing).
- `SymbolViewModel` and `FolderViewModel` are not part of this model. They are wrappers around a
  model. `folder.DataToModel()` (line 104), `Refresh` and the folder refresh in `AddSymbol` have
  no effect here.
- The `DeleteCommand`, `NewListCommand` and `ImportSymbols` handlers are left out. They call into
  the parent view model or `FolderModel`'s defaults, which are not part of this model, or do
  nothing.
- `FolderModel` and `MarketModel` are records with only the fields the controller touches.
  Resolution and FromDate appear only in log lines.
- Text.Upper: ordinal ignore-case is modelled with ASCII upper-casing only (the .NET path for
  ASCII text). Case mapping of non-ASCII characters is not modelled.
- `SecurityType` has the eight QuantConnect members Base through Crypto, with values 0 to 7.
  The enum is not part of this model.
- SymbolModel's `Properties` dictionary and its serialisation attributes are left out.
- The research page's process is abstract. The `Host` value supplies the program and user data
  folders, the inherited PYTHONPATH, the child's initial configuration and whether the launch
  succeeds. `Directory.CreateDirectory`, the process's own start and stop logic, `HtmlText`, the
  public `Dispose()` with `GC.SuppressFinalize`, and the finaliser are left out.
- The `NullReferenceException`s of `Dispose` and `StopJupyter` on a missing process are modelled
  as `ok == false`. Dispose then leaves the page not disposed, as the exception skips the
  assignment of the flag.
