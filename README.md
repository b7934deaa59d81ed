# SignalVisualizer core, modelled in Dafny

SignalVisualizer is a WPF application that plots live signals. A data source
pushes vectors of samples. A `SignalView` projects one component of each vector
and multicasts it to its subscribers. Each subscribed `SignalViewViewModel`
runs the value through an ordered, user-reorderable pipeline of signal filters
(low-pass, high-pass, hysteresis, inverser). It then writes the result, with
the elapsed time, into a fixed-capacity ring buffer that the curve renderer
reads newest first. The rest of the core is:

- a document state machine (modified flag and file name) behind open, save,
  save-as and close;
- a scale bar that converts between units and screen points and rounds its
  tick interval to 1-2-5 steps;
- a small fraction parser used by the Fourier data source's sine-wave
  parameters;
- the validated `PathLookupInfo` that names an extension directory.

The model has one Dafny module per area:

| module | file | models |
|---|---|---|
| `Wrappers` | wrappers.dfy | `Option`, `Result` and `Outcome` for nulls and exceptions |
| `Doubles` | doubles.dfy | the IEEE results that matter (±∞, NaN of a division) over `real` |
| `Text` | text.dfy | `String.IsNullOrWhiteSpace`, `Trim`, `IndexOf`, `Split` |
| `RingBuffers` | ring_buffer.dfy | `RingBuffer<T>` |
| `Multicast` | multicast.dfy | `MulticastObservable<T>`, its `Disposer` and `NullDisposer` |
| `SignalViews` | signal_view.dfy | `SignalView` |
| `LowPass`, `HighPass`, `Hysteresis`, `Inverser` | low_pass.dfy, high_pass.dfy, hysteresis.dfy, inverser.dfy | the four default filters |
| `SignalFilters` | signal_filters.dfy | the filter factories and one filter of any of the four kinds |
| `Documents` | file_manager.dfy | `FileManagerBase` |
| `FilterPipeline` | filter_pipeline.dfy | `ReorderableObservableCollection`, `SignalFilterViewModel`, `SignalFiltersPipelineViewModel` |
| `SignalViewModels` | signal_view_view_model.dfy | `SignalViewViewModel` |
| `ScaleBars` | scale_bar.dfy | the arithmetic of `ScaleBar` |
| `SineWaves` | sine_wave_parameters.dfy | `SineWaveParametersViewModel` |
| `PathLookup` | path_lookup_info.dfy | `PathLookupInfo` |

Classes whose fields the source updates in place are Dafny classes. Their
methods are proved against specification functions or against a ghost history.

- **Ring buffer.** The ghost history `Written` is every value written since
  construction or the last `Clear`. The invariant `Valid` ties the array slots,
  `position` and `iterateLength` to the newest `min(|Written|, Length)` values.
- **Multicast dispatcher.** Deliveries go to an event log.
- **Filters.** Each filter's `ProcessValue` is a step function on a state
  value.
- **Document.** Raised events are a trace of effects.

Values the source reads from the outside are parameters:

- the answers of dialogs and message boxes;
- `double.TryParse`;
- the stopwatch time;
- the exception passed to `OnError`.

`double` is `real`, so every recurrence is exact.

`RootViewModel.IsDataModified` forwards to the layout file manager's
`IsModified`. So the "root" that the view models mark modified is a
`Documents.FileManager`.

## Model

| member | source | states |
|---|---|---|
| Doubles.Divide | SignalVisualizer/ViewModels/SignalViewViewModel.cs:132 | An IEEE division is finite exactly when the divisor is non-zero, and then it is the exact quotient. A zero divisor gives +∞, −∞ or NaN by the sign of the dividend. |
| Doubles.Abs | FourierDataSourceExtension/SineWaveParametersViewModel.cs:99 | `Math.Abs`: non-negative, and equal to x or −x. |
| Text.TrimStartShape | FourierDataSourceExtension/SineWaveParametersViewModel.cs:88 | `TrimStart` removes a white-space prefix and nothing more: what is left is a suffix that does not start with white space. |
| Text.TrimEndShape | FourierDataSourceExtension/SineWaveParametersViewModel.cs:88 | `TrimEnd` removes a white-space suffix and nothing more: what is left is a prefix that does not end with white space. |
| Text.TrimIsInfix | FourierDataSourceExtension/SineWaveParametersViewModel.cs:88 | `Trim` yields a contiguous slice with only white space cut on either side, and the slice neither starts nor ends with white space. |
| Text.TrimIdempotent | FourierDataSourceExtension/SineWaveParametersViewModel.cs:88 | Trimming twice is trimming once. |
| Text.WhiteSpaceIffTrimEmpty | SignalVisualizer/PathLookupInfo.cs:30-31 | A string is all white space exactly when it trims to the empty string. So `IsNullOrWhiteSpace` agrees with "nothing left once trimmed". |
| Text.WhiteSpaceTrimStart | FourierDataSourceExtension/SineWaveParametersViewModel.cs:88 | `TrimStart` empties an all-white-space string. |
| Text.IndexOf | FourierDataSourceExtension/SineWaveParametersViewModel.cs:90 | `IndexOf(c)` finds the first occurrence. The index is in range exactly when `c` occurs, so the test `IndexOf('/') >= 0` means "contains a slash". |
| Text.CountZero | FourierDataSourceExtension/SineWaveParametersViewModel.cs:90 | A character occurs zero times exactly when it does not occur. |
| Text.SplitCount | FourierDataSourceExtension/SineWaveParametersViewModel.cs:92-93 | `Split(c)` returns one more part than there are separators, and no part contains the separator. |
| Text.SplitOnce | FourierDataSourceExtension/SineWaveParametersViewModel.cs:92-96 | With exactly one separator, `Split` returns the text before it and the text after it. |
| RingBuffers.RetainedOverflow | SignalVisualizer/RingBuffer.cs:104-108 | When a batch is at least as long as the capacity, only its last `Length` items survive, whatever was written before. |
| RingBuffers.RetainedAppend | SignalVisualizer/RingBuffer.cs:99-131 | Keeping the last n of (the last n of s) followed by t is keeping the last n of s followed by t. So a batch leaves the same logical contents as its items written one by one. |
| RingBuffers.RetainedTwice | SignalVisualizer/ViewModels/SignalViewViewModel.cs:28-31 | Keeping the last m of the last n values is keeping the last min(n, m). This is the resize property. |
| RingBuffers.NewestFirstAt | SignalVisualizer/RingBuffer.cs:175-192 | Position j of the newest-first view is the j-th newest value written. |
| RingBuffers.RetainedExample | SignalVisualizer/RingBuffer.cs:202-224 | With capacity 3 and writes 1..5, the buffer retains [3,4,5] and reverse enumeration yields [5,4,3]. |
| RingBuffers.RingBuffer.constructor | SignalVisualizer/RingBuffer.cs:17-23 | A buffer of the requested positive capacity with every slot at the default value, position 0, nothing written and no reverse pass open. |
| RingBuffers.RingBuffer.Create | SignalVisualizer/RingBuffer.cs:17-23 | Construction fails with `ArgumentOutOfRange` exactly when the capacity is ≤ 0. Otherwise it yields a fresh valid buffer of that capacity. The capacity is a `const` array, so `Length` never changes. |
| RingBuffers.RingBuffer.Clear | SignalVisualizer/RingBuffer.cs:25-38 | Every slot becomes the default, the count becomes 0 and the history empties, while `position` keeps its value. Both enumerations then yield nothing. |
| RingBuffers.RingBuffer.Write | SignalVisualizer/RingBuffer.cs:40-66 | One write appends the value to the history and keeps the invariant. It goes into slot `position`, or slot 0 when the cursor is at the end, and the cursor moves on by one. No other slot changes. |
| RingBuffers.RingBuffer.WriteAll | SignalVisualizer/RingBuffer.cs:68-71 | A null array fails with `NullReferenceException` and changes nothing. Otherwise the whole array is appended to the history, its last min(length, capacity) items are placed at the cursor with wrap-around, and the cursor advances by that many. |
| RingBuffers.RingBuffer.WriteRange | SignalVisualizer/RingBuffer.cs:73-97 | The outcome is `ArgumentNull` for null data, and `ArgumentOutOfRange` for a negative count or offset or for offset + count beyond the array. Otherwise it passes and appends `data[offset..offset+count]`. Its last min(count, capacity) items go into the slots from the cursor on, wrapping to slot 0, and the cursor advances by that many. A failing or zero-count call changes nothing. |
| RingBuffers.RingBuffer.CopyIn | SignalVisualizer/RingBuffer.cs:111 | `Array.Copy` replaces exactly the target range with the source range. |
| RingBuffers.RingBuffer.Grow | SignalVisualizer/RingBuffer.cs:114-116 | The count grows by the copied length, capped at the capacity. |
| RingBuffers.RingBuffer.WriteMultipleInternal | SignalVisualizer/RingBuffer.cs:99-131 | A non-empty in-range batch appends exactly those items to the history, with the invariant kept across the wrap-around. Only its last min(count, capacity) items are copied, into the slots from the cursor on. The cursor ends just after the last of them. |
| RingBuffers.RingBuffer.WriteAround | SignalVisualizer/RingBuffer.cs:110-121 | The copy in at most two pieces: the history is extended by the batch, the copied items land as `Placed` describes, and the cursor moves to `Advance` of the old one. |
| RingBuffers.RingBuffer.WriteStraight | SignalVisualizer/RingBuffer.cs:110-119 | A piece that fits before the array end is copied at the cursor, and the cursor moves on by its length. |
| RingBuffers.RingBuffer.WriteWrapped | SignalVisualizer/RingBuffer.cs:110-130 | A piece that runs past the array end fills the slots to the end, then the rest from slot 0 on. The cursor ends at the length of the rest. |
| RingBuffers.Placed | SignalVisualizer/RingBuffer.cs:110-130 | The slot layout after a write at the cursor keeps the capacity. |
| RingBuffers.RingBuffer.WriteRemainder | SignalVisualizer/RingBuffer.cs:123-130 | The rest of the batch is written from slot 0 with position = remainder, completing the history extended by the batch. |
| RingBuffers.RingBuffer.Forward | SignalVisualizer/RingBuffer.cs:133-154 | `GetEnumerator` yields `iterateLength` slots starting at `position` (0 when at the end), wrapping. For a partly filled buffer this starts at a stale slot, as in the source. |
| RingBuffers.PartialForwardExample | SignalVisualizer/RingBuffer.cs:139-141 | In a fresh buffer of 3 after writing 1 and 2, `GetEnumerator` yields [0, 1]: it starts at the cursor on an unwritten slot and misses the newest value. |
| RingBuffers.RingBuffer.ForwardWhenFull | SignalVisualizer/RingBuffer.cs:139-147 | When the buffer is full, forward enumeration yields the last `Length` writes, oldest to newest. |
| RingBuffers.RingBuffer.ReverseEnumerate | SignalVisualizer/RingBuffer.cs:202-224 | Yields exactly the last min(writes, Length) values, newest first, in every state. |
| RingBuffers.RingBuffer.BeginReverseEnumerate | SignalVisualizer/RingBuffer.cs:164-173 | Opens a reverse pass at count 0 with the index on the newest slot, and changes no contents. |
| RingBuffers.RingBuffer.GetReverseEnumerateValue | SignalVisualizer/RingBuffer.cs:175-192 | Returns true with the k-th newest value while k < `iterateLength`, and advances k. Afterwards it returns false with the default value. |
| RingBuffers.RingBuffer.EndReverseEnumerate | SignalVisualizer/RingBuffer.cs:194-200 | Resets both cursor fields to -1 and changes no contents. |
| Multicast.RemoveFirst | SignalVisualizer.Contracts/MulticastObservable.cs:66 | `List.Remove` drops one element exactly when the observer is present, and leaves the list as it is otherwise. |
| Multicast.RemoveFirstCount | SignalVisualizer.Contracts/MulticastObservable.cs:66 | `List.Remove` takes exactly one occurrence out of the multiset. |
| Multicast.RemoveEach | SignalVisualizer.Contracts/MulticastObservable.cs:61-69 | Applying a queue of removals never lengthens the list. |
| Multicast.RemoveEachCount | SignalVisualizer.Contracts/MulticastObservable.cs:61-69 | Processing the queue removes exactly the multiset of queued observers. |
| Multicast.Deliver | SignalVisualizer.Contracts/MulticastObservable.cs:116-117 | One delivery of the event per observer, in list order. |
| Multicast.UnsubscribedReceivesNothing | SignalVisualizer.Contracts/MulticastObservable.cs:44-47 | An observer queued for removal as often as it was subscribed is gone after processing and receives no delivery. |
| Multicast.StillSubscribedReceives | SignalVisualizer.Contracts/MulticastObservable.cs:61-69 | A subscribed observer that was not queued still receives the event. |
| Multicast.MulticastObservable.constructor | SignalVisualizer.Contracts/MulticastObservable.cs:13-16 | No observers, no queued removal, not done, empty log. |
| Multicast.MulticastObservable.Subscribe | SignalVisualizer.Contracts/MulticastObservable.cs:25-41 | A null observer fails with `ArgumentNull`. A done dispatcher returns the shared null handle and adds nothing. Otherwise the observer is appended once (and `Subscribed` recorded once), and a fresh undisposed handle for it is returned. |
| Multicast.MulticastObservable.RequestUnsubscription | SignalVisualizer.Contracts/MulticastObservable.cs:49-59 | Null fails with `ArgumentNull`. The observer is queued only while not done, and no delivery or list change happens. |
| Multicast.MulticastObservable.ProcessUnsubscriptions | SignalVisualizer.Contracts/MulticastObservable.cs:61-69 | Removes the first occurrence of each queued observer, in queue order, then empties the queue. |
| Multicast.MulticastObservable.Broadcast | SignalVisualizer.Contracts/MulticastObservable.cs:116-117 | The `foreach` over the observers appends one delivery per observer to the log. |
| Multicast.MulticastObservable.ForEachObserver | SignalVisualizer.Contracts/MulticastObservable.cs:89-101 | A null action fails with `ArgumentNull` and changes nothing. Otherwise it processes the queue, then applies the action to each remaining observer in order. |
| Multicast.MulticastObservable.NotifyNext | SignalVisualizer.Contracts/MulticastObservable.cs:107-119 | A no-op once done. Otherwise it processes the queue first, then delivers the value once to each remaining observer in subscription order. |
| Multicast.MulticastObservable.NotifyCompleted | SignalVisualizer.Contracts/MulticastObservable.cs:124-139 | Once not-done, it processes the queue and delivers `Completed` to each remaining observer. It then clears the list and sets `isDone`. Later calls change nothing. |
| Multicast.MulticastObservable.NotifyError | SignalVisualizer.Contracts/MulticastObservable.cs:145-160 | As `NotifyCompleted`, with the error delivered. |
| Multicast.Disposer.constructor | SignalVisualizer.Contracts/MulticastObservable.cs:169-178 | A handle on this observer and dispatcher, not yet disposed. |
| Multicast.Disposer.Dispose | SignalVisualizer.Contracts/MulticastObservable.cs:180-194 | Only the first call queues an unsubscription (and only if the dispatcher is not done), so disposing is idempotent. Observers, log, `isDone` and the subscription record stay as they were. |
| Multicast.Dispose | SignalVisualizer.Contracts/MulticastObservable.cs:197-205 | Disposing the shared null handle fails with `NotImplemented`. Disposing an active handle marks it disposed and queues its observer exactly when this is the first call and the dispatcher is not done. Nothing else of the dispatcher changes. |
| SignalViews.SignalView.constructor | SignalVisualizer/ISignalView.cs:28-32 | `Name` and `ComponentIndex` are fixed (`const`) at the given values, on a fresh dispatcher that is not done. |
| SignalViews.SignalView.OnNext | SignalVisualizer/ISignalView.cs:34-37 | An index outside the vector fails with `IndexOutOfRange` and changes nothing. Otherwise exactly one `NotifyNext(v[ComponentIndex])` happens. The queued unsubscriptions are processed, the queue empties, and each remaining observer receives the projected scalar in subscription order, while `isDone` and the subscription record stay the same. |
| SignalViews.OnNextTwice | SignalVisualizer/ISignalView.cs:22-37 | Two vectors in a row reach the subscribers as the first projected component followed by the second: the arrival order is kept. |
| SignalViews.SignalView.OnCompleted | SignalVisualizer/ISignalView.cs:39-42 | Forwards completion. The view's dispatcher is then done with no observers and no queued removal, and the subscription record stays the same. |
| SignalViews.SignalView.OnError | SignalVisualizer/ISignalView.cs:44-47 | Forwards the error. The view's dispatcher is then done with no observers and no queued removal, and the subscription record stays the same. |
| LowPass.Step | SignalVisualizer.DefaultExtensions/LowPassFilter.cs:62-85 | A step keeps mode and slider value and returns the new previous value. |
| LowPass.SeedPassesThrough | SignalVisualizer.DefaultExtensions/LowPassFilter.cs:64-69 | The first call returns the input unchanged and seeds the previous value and time. |
| LowPass.AlphaIgnoresTime | SignalVisualizer.DefaultExtensions/LowPassFilter.cs:73-74 | In Alpha mode the time does not matter and `previousTime` is not updated. |
| LowPass.OutputBetween | SignalVisualizer.DefaultExtensions/LowPassFilter.cs:82-84 | With a coefficient in [0,1], the output lies between the previous output and the input. |
| LowPass.SteadyState | SignalVisualizer.DefaultExtensions/LowPassFilter.cs:82-84 | Feeding the previous output back leaves it unchanged. |
| LowPass.AlphaConvergence | SignalVisualizer.DefaultExtensions/LowPassFilter.cs:82-84 | For a constant input in Alpha mode, after k steps the distance to the input is (1−c)^k times the initial distance. |
| LowPass.HalfAlphaExample | SignalVisualizer.DefaultExtensions/LowPassFilter.cs:62-85 | With Alpha c = 0.5, the inputs (0,0), (0.01,10), (0.02,10) give 0, 5, 7.5. |
| LowPass.LowPassFilter.constructor | SignalVisualizer.DefaultExtensions/LowPassFilter.cs:24-42 | Mode Alpha, coefficient 0.05, previous time −1, no observable configuration event. |
| LowPass.LowPassFilter.SetMode | SignalVisualizer.DefaultExtensions/LowPassFilter.cs:44-51 | Sets the mode, and raises `ConfigurationChanged` exactly when it changes. |
| LowPass.LowPassFilter.SetSliderValue | SignalVisualizer.DefaultExtensions/LowPassFilter.cs:53-60 | Sets the coefficient, and raises `ConfigurationChanged` exactly when it changes. |
| LowPass.LowPassFilter.ProcessValue | SignalVisualizer.DefaultExtensions/LowPassFilter.cs:62-85 | The field updates and the result are the step function. In RC mode c = a/(a+dt) and `previousTime` advances. |
| LowPass.LowPassFilter.Save | SignalVisualizer.DefaultExtensions/LowPassFilter.cs:124-130 | Writes the mode and the slider value. |
| LowPass.LowPassFilter.Load | SignalVisualizer.DefaultExtensions/LowPassFilter.cs:117-122 | Goes through the two setters, so it raises one event per changed setting. |
| LowPass.SaveLoadRoundTrip | SignalVisualizer.DefaultExtensions/LowPassFilter.cs:117-130 | Loading what was saved changes no state and raises no event. |
| HighPass.Step | SignalVisualizer.DefaultExtensions/HighPassFilter.cs:63-89 | A step keeps mode and slider, returns the new previous value and records the raw input. |
| HighPass.SeedPassesThrough | SignalVisualizer.DefaultExtensions/HighPassFilter.cs:65-71 | The first call returns the input and seeds the time. |
| HighPass.IgnoresOffset | SignalVisualizer.DefaultExtensions/HighPassFilter.cs:84-88 | Shifting the input and the remembered raw input by the same offset does not change the output, because a DC shift is filtered out. |
| HighPass.ConstantInputDecays | SignalVisualizer.DefaultExtensions/HighPassFilter.cs:84 | For a constant input after seeding in Alpha mode, the k-th output is c^k times the seeded output. |
| HighPass.HalfAlphaExample | SignalVisualizer.DefaultExtensions/HighPassFilter.cs:63-89 | With Alpha c = 0.5, the inputs 0, 10, 10 give 0, 5, 2.5. |
| HighPass.HighPassFilter.constructor | SignalVisualizer.DefaultExtensions/HighPassFilter.cs:24-43 | Mode Alpha, coefficient 0.85, previous time −1. |
| HighPass.HighPassFilter.SetMode | SignalVisualizer.DefaultExtensions/HighPassFilter.cs:45-52 | Sets the mode, and raises `ConfigurationChanged` exactly when it changes. |
| HighPass.HighPassFilter.SetSliderValue | SignalVisualizer.DefaultExtensions/HighPassFilter.cs:54-61 | Sets the coefficient, and raises `ConfigurationChanged` exactly when it changes. |
| HighPass.HighPassFilter.ProcessValue | SignalVisualizer.DefaultExtensions/HighPassFilter.cs:63-89 | The field updates and the result are the step function, with the same RC rule as the low-pass. |
| HighPass.HighPassFilter.Save | SignalVisualizer.DefaultExtensions/HighPassFilter.cs:129-135 | Writes the mode and the slider value. |
| HighPass.HighPassFilter.Load | SignalVisualizer.DefaultExtensions/HighPassFilter.cs:122-127 | Goes through the two setters, raising one event per changed setting. |
| HighPass.SaveLoadRoundTrip | SignalVisualizer.DefaultExtensions/HighPassFilter.cs:122-135 | Loading what was saved changes no state and raises no event. |
| Hysteresis.Step | SignalVisualizer.DefaultExtensions/HysteresisFilter.cs:55-63 | An input ≥ high gives max, and this check comes first. Otherwise an input ≤ low gives min. An input strictly between the triggers keeps the state. |
| Hysteresis.Run | SignalVisualizer.DefaultExtensions/HysteresisFilter.cs:55-63 | One output per input. |
| Hysteresis.OutputsAreLevels | SignalVisualizer.DefaultExtensions/HysteresisFilter.cs:55-63 | Every output is max, min or the starting output (0 before any crossing). |
| Hysteresis.HoldsBetweenTriggers | SignalVisualizer.DefaultExtensions/HysteresisFilter.cs:59-62 | Inputs that stay strictly between the triggers keep the previous output throughout. |
| Hysteresis.Idempotent | SignalVisualizer.DefaultExtensions/HysteresisFilter.cs:55-63 | Repeating an input does not change the latch again. |
| Hysteresis.TriggerExample | SignalVisualizer.DefaultExtensions/HysteresisFilter.cs:55-63 | With (max 1, high 0.5, low −0.5, min −1), the inputs [0.6, 0.3, −0.6, 0] give [1, 1, −1, −1]. |
| Hysteresis.HysteresisFilter.constructor | SignalVisualizer.DefaultExtensions/HysteresisFilter.cs:24-53 | All four thresholds and the output start at 0. |
| Hysteresis.HysteresisFilter.UpdateSettings | SignalVisualizer.DefaultExtensions/HysteresisFilter.cs:43-51 | Overwrites all four parameters, keeps the output, and always raises `ConfigurationChanged`, even when nothing changed. |
| Hysteresis.HysteresisFilter.ProcessValue | SignalVisualizer.DefaultExtensions/HysteresisFilter.cs:55-63 | The latch follows the step function, and `time` is unused. |
| Hysteresis.HysteresisFilter.Save | SignalVisualizer.DefaultExtensions/HysteresisFilter.cs:103-111 | Writes the four thresholds. |
| Hysteresis.HysteresisFilter.Load | SignalVisualizer.DefaultExtensions/HysteresisFilter.cs:90-101 | Assigns the four thresholds directly, raising no event and keeping the output. |
| Hysteresis.SaveLoadRoundTrip | SignalVisualizer.DefaultExtensions/HysteresisFilter.cs:90-111 | Loading what was saved changes no state and raises no event. |
| Inverser.ProcessValue | SignalVisualizer.DefaultExtensions/InverserFilter.cs:31 | The result is the negation of the input. |
| Inverser.Involution | SignalVisualizer.DefaultExtensions/InverserFilter.cs:31 | Applying the filter twice returns the original value. |
| Inverser.TimeIndependent | SignalVisualizer.DefaultExtensions/InverserFilter.cs:24-32 | The time never affects the result, and the filter keeps no state. |
| SignalFilters.IdentifiersDistinguish | SignalVisualizer.Contracts/ISignalFilter.cs:16-20 | Two factories have the same unique identifier exactly when they are the same factory. |
| SignalFilters.NamesDistinguish | SignalVisualizer.Contracts/ISignalFilter.cs:11-14 | The four filter names are pairwise different. |
| SignalFilters.Step | SignalVisualizer.Contracts/ISignalFilter.cs:45-51 | A step keeps the filter's kind. The inverser returns −value. |
| SignalFilters.ProduceSignalFilter | SignalVisualizer.Contracts/ISignalFilter.cs:22-26 | A fresh filter of the factory's kind, in that kind's initial state, remembering its factory (so its `Name` is the factory name). |
| SignalFilters.ProcessValue | SignalVisualizer.Contracts/ISignalFilter.cs:51 | Dispatches to the filter's own `ProcessValue`: the new state and result are `Step`, and no configuration event is raised. |
| Documents.FileManager.constructor | SignalVisualizer/FileManagerBase.cs:20-53 | Not modified, no file name, no event yet. |
| Documents.FileManager.SetIsModified | SignalVisualizer/FileManagerBase.cs:20-32 | Sets the flag, and raises `IsModifiedChanged` exactly when the value changes. |
| Documents.FileManager.SetFilename | SignalVisualizer/FileManagerBase.cs:41-53 | Sets the name, and raises `FilenameChanged` exactly when the value changes. |
| Documents.FileManager.InternalSaveAs | SignalVisualizer/FileManagerBase.cs:156-175 | A cancelled dialog returns false with nothing changed. A chosen file is saved to, becomes the file name, and clears the modified flag. |
| Documents.FileManager.InternalSave | SignalVisualizer/FileManagerBase.cs:139-154 | An unmodified document returns true and does nothing. With no file name it behaves as save-as. Otherwise it saves to the file name and clears the flag. |
| Documents.FileManager.InternalClose | SignalVisualizer/FileManagerBase.cs:62-87 | Cancel on a modified document returns false and changes nothing. Yes closes only if the save (save-as when unnamed) succeeds. A successful close records exactly `CloseEffects`: the save, `OnClose`, the cleared flag and name, then `Closed`. |
| Documents.FileManager.InternalOpenWithoutConfirm | SignalVisualizer/FileManagerBase.cs:125-133 | Loads the file, names the document after it and clears the flag. |
| Documents.FileManager.InternalOpen | SignalVisualizer/FileManagerBase.cs:89-110 | Succeeds exactly when the close (if modified) succeeds and a file is chosen. A refused close changes nothing. On success the file name is the chosen file, the document is not modified, and the trace is the close (if any), then `OnLoad(file)`, the name change and `Opened`. A close followed by a cancelled dialog leaves the document closed, with only the close recorded. |
| Documents.FileManager.InternalOpenFile | SignalVisualizer/FileManagerBase.cs:112-123 | Succeeds exactly when the close (if modified) succeeds. It then loads the given file, with the close (if any) then `OnLoad`, the name change and `Opened` recorded. |
| Documents.FileManager.ApplicationClose | SignalVisualizer/FileManagerBase.cs:209-214 | `cancel` is the negation of whether the close succeeded. A refused close changes nothing, and a successful one records `CloseEffects`. |
| FilterPipeline.IndexOf | SignalVisualizer/ReorderableObservableCollection.cs:76 | `IndexOf` gives the first index holding the item, or −1 exactly when it is absent. |
| FilterPipeline.Without | SignalVisualizer/ReorderableObservableCollection.cs:84 | `Remove` drops one element when the item is present, and otherwise leaves the list unchanged. |
| FilterPipeline.InsertAt | SignalVisualizer/ReorderableObservableCollection.cs:86 | `Insert(i, x)` puts x at i, with the prefix kept and the rest shifted by one. |
| FilterPipeline.IndexOfDistinct | SignalVisualizer/ReorderableObservableCollection.cs:76 | In a list without duplicates, the element at k is found at k. |
| FilterPipeline.MovedSwaps | SignalVisualizer/ReorderableObservableCollection.cs:84-86 | Removing and re-inserting one place up (or down) swaps two neighbours. |
| FilterPipeline.MovedUpSwaps | SignalVisualizer/ReorderableObservableCollection.cs:84-86 | `Remove` then `Insert(oldIndex − 1)` swaps the item with its upper neighbour. |
| FilterPipeline.MovedDownSwaps | SignalVisualizer/ReorderableObservableCollection.cs:113-115 | `Remove` then `Insert(oldIndex + 1)` swaps the item with its lower neighbour. |
| FilterPipeline.MovedPermutes | SignalVisualizer/ReorderableObservableCollection.cs:84-86 | A remove-and-reinsert keeps the multiset of items. |
| FilterPipeline.SwapKeepsDistinct | SignalVisualizer/ReorderableObservableCollection.cs:84-86 | A move keeps the list free of duplicates. |
| FilterPipeline.MoveUpThenDown | SignalVisualizer/ReorderableObservableCollection.cs:69-125 | Moving an item up and then down again restores the list. |
| FilterPipeline.WithoutKeepsOthers | SignalVisualizer/ViewModels/SignalFiltersPipelineViewModel.cs:116 | Removing one item of a duplicate-free list keeps it duplicate-free and keeps every other item. |
| FilterPipeline.InsertKeepsDistinct | SignalVisualizer/ReorderableObservableCollection.cs:86 | Inserting a new item keeps the list duplicate-free, and adds that item only. |
| FilterPipeline.PlacementAt | SignalVisualizer/ReorderableObservableCollection.cs:141-175 | The flags of position i of n: the item can move up iff it is not first, and down iff it is not last. One item is first and last and cannot move. |
| FilterPipeline.SignalFilterViewModel.constructor | SignalVisualizer/ViewModels/SignalFilterViewModel.cs:14-22 | Wraps the filter, subscribes its configuration handler, all flags false, no reorderer. |
| FilterPipeline.SignalFilterViewModel.SetIsFirst | SignalVisualizer/ViewModels/SignalFilterViewModel.cs:41-46 | Sets `IsFirst` only. |
| FilterPipeline.SignalFilterViewModel.SetIsLast | SignalVisualizer/ViewModels/SignalFilterViewModel.cs:48-53 | Sets `IsLast` only. |
| FilterPipeline.SignalFilterViewModel.SetCanMoveUp | SignalVisualizer/ViewModels/SignalFilterViewModel.cs:55-60 | Sets `CanMoveUp`. On a change it recomputes `CanMove`, so "`CanMove` = up ∨ down" is preserved. |
| FilterPipeline.SignalFilterViewModel.SetCanMoveDown | SignalVisualizer/ViewModels/SignalFilterViewModel.cs:62-67 | Sets `CanMoveDown`. On a change it recomputes `CanMove`, preserving the same invariant. |
| FilterPipeline.SignalFilterViewModel.Place | SignalVisualizer/ReorderableObservableCollection.cs:133-136 | The four setter calls leave exactly the given flags, and `CanMove` coherent. |
| FilterPipeline.SignalFilterViewModel.OnConfigurationChanged | SignalVisualizer/ViewModels/SignalFilterViewModel.cs:24-27 | While the handler is attached, a filter's configuration change marks the document modified. After `Cleanup` it does nothing. |
| FilterPipeline.SignalFilterViewModel.ProcessValue | SignalVisualizer/ViewModels/SignalFilterViewModel.cs:29-32 | Returns exactly the wrapped filter's result for the same (time, value). |
| FilterPipeline.SignalFilterViewModel.MoveUp | SignalVisualizer/ViewModels/SignalFilterViewModel.cs:100-107 | Does nothing without a reorderer. Otherwise it delegates once: it moves exactly when the item is in the list below the top, and the move swaps it with its upper neighbour and marks the document modified. |
| FilterPipeline.SignalFilterViewModel.MoveDown | SignalVisualizer/ViewModels/SignalFilterViewModel.cs:109-116 | Does nothing without a reorderer. Otherwise it delegates once to the corrected collection `MoveDown`. |
| FilterPipeline.SignalFilterViewModel.Cleanup | SignalVisualizer/ViewModels/SignalFilterViewModel.cs:134-140 | Detaches the configuration-changed handler. |
| FilterPipeline.ReorderableCollection.constructor | SignalVisualizer/ReorderableObservableCollection.cs:44-46 | An empty collection with no reorder event and no subscriber. |
| FilterPipeline.ReorderableCollection.NotifySubscriber | SignalVisualizer/ViewModels/SignalFiltersPipelineViewModel.cs:30-33 | The `ChildReordered` subscriber marks its document modified. |
| FilterPipeline.ReorderableCollection.Subscribe | SignalVisualizer/ViewModels/SignalFiltersPipelineViewModel.cs:27 | Attaches that subscriber and changes nothing else. |
| FilterPipeline.ReorderableCollection.UpdateReorderables | SignalVisualizer/ReorderableObservableCollection.cs:127-176 | After any change, every item carries the flags of its position and this collection as its reorderer: the first item `IsFirst` and not `CanMoveUp`, the last `IsLast` and not `CanMoveDown`. On a non-remove change, all items are reset first. |
| FilterPipeline.ReorderableCollection.Insert | SignalVisualizer/ReorderableObservableCollection.cs:60-65 | Inserts at the index and re-establishes the placement invariant. |
| FilterPipeline.ReorderableCollection.Add | SignalVisualizer/ReorderableObservableCollection.cs:60-65 | Appends at the end and re-establishes the invariant. |
| FilterPipeline.ReorderableCollection.Remove | SignalVisualizer/ReorderableObservableCollection.cs:60-65 | Returns whether the item was there, and removes it. After a removal only the ends are corrected, and the invariant still holds. |
| FilterPipeline.ReorderableCollection.RemoveAt | SignalVisualizer/ReorderableObservableCollection.cs:60-65 | Removes the item at the index and keeps the invariant. |
| FilterPipeline.ReorderableCollection.Clear | SignalVisualizer/ReorderableObservableCollection.cs:60-65 | Empties the list. |
| FilterPipeline.ReorderableCollection.ReinsertAt | SignalVisualizer/ReorderableObservableCollection.cs:84-86 | Removes the item and re-inserts it at the new index, keeping the invariant. |
| FilterPipeline.ReorderableCollection.SwapUp | SignalVisualizer/ReorderableObservableCollection.cs:84-88 | The item at i swaps with the one at i−1, and `ChildReordered(i, i−1)` is raised. |
| FilterPipeline.ReorderableCollection.SwapDown | SignalVisualizer/ReorderableObservableCollection.cs:113-117 | The item at i swaps with the one at i+1, and `ChildReordered(i, i+1)` is raised. |
| FilterPipeline.ReorderableCollection.RaiseChildReordered | SignalVisualizer/ReorderableObservableCollection.cs:88 | Records the event (old index, new index) and changes no item. |
| FilterPipeline.ReorderableCollection.MoveUp | SignalVisualizer/ReorderableObservableCollection.cs:69-96 | Returns false and changes nothing unless the item is in the list at index ≥ 1. In a valid list, `CanMoveUp` false means index 0. Otherwise it moves the item from i to i−1, keeps the order of all others, and raises (i, i−1). |
| FilterPipeline.ReorderableCollection.MoveDown | SignalVisualizer/ReorderableObservableCollection.cs:98-125 | Corrected guard: returns false and changes nothing unless the item is in the list above the bottom. Otherwise it moves the item from i to i+1 and raises (i, i+1). |
| FilterPipeline.ReorderableCollection.MoveDownAsWritten | SignalVisualizer/ReorderableObservableCollection.cs:98-125 | The source's guard: it moves exactly when `CanMoveDown` and `IndexOf < Count − 1`. A member moves from i to i+1. A non-member with `CanMoveDown` is inserted at 0 with the event (−1, 0). |
| FilterPipeline.ReorderableCollection.PrependAbsent | SignalVisualizer/ReorderableObservableCollection.cs:113-117 | The non-member path: `Insert(0)` and the event (−1, 0). |
| FilterPipeline.PipelineViewModel.constructor | SignalVisualizer/ViewModels/SignalFiltersPipelineViewModel.cs:16-28 | An empty collection whose `ChildReordered` marks the document modified. Nothing is selected and all three commands are disabled. |
| FilterPipeline.PipelineViewModel.SetSelectedSignalFilterFactory | SignalVisualizer/ViewModels/SignalFiltersPipelineViewModel.cs:36-44 | The Add command is enabled iff a factory is selected. |
| FilterPipeline.PipelineViewModel.SetSelectedSignalFilter | SignalVisualizer/ViewModels/SignalFiltersPipelineViewModel.cs:47-57 | Remove and Configure are enabled iff a filter is selected. |
| FilterPipeline.PipelineViewModel.NewFilterViewModel | SignalVisualizer/ViewModels/SignalFiltersPipelineViewModel.cs:88-93 | A fresh view model on a fresh filter of the factory, in its initial state, with the collection as reorderer and its handler attached. |
| FilterPipeline.PipelineViewModel.AddSelectedFilter | SignalVisualizer/ViewModels/SignalFiltersPipelineViewModel.cs:83-97 | A no-op with no factory selected. Otherwise it appends exactly one new filter of that factory at the end, keeps the others in order, and marks the document modified. |
| FilterPipeline.PipelineViewModel.AppendNew | SignalVisualizer/ViewModels/SignalFiltersPipelineViewModel.cs:88-95 | Appends one fresh view model of the factory behind the existing ones. |
| FilterPipeline.PipelineViewModel.RemoveSelectedFilter | SignalVisualizer/ViewModels/SignalFiltersPipelineViewModel.cs:110-118 | A no-op with nothing selected. Otherwise it cleans up the selected filter (handler detached), removes it with the others kept in order, and marks the document modified. |
| FilterPipeline.PipelineViewModel.DetachSelected | SignalVisualizer/ViewModels/SignalFiltersPipelineViewModel.cs:115-116 | `Cleanup` then `Remove` of the selected filter. |
| FilterPipeline.PipelineViewModel.Cleanup | SignalVisualizer/ViewModels/SignalFiltersPipelineViewModel.cs:139-147 | Unsubscribes `ChildReordered`, detaches the handler of every filter, and leaves the list empty. |
| FilterPipeline.TwoFilters | SignalVisualizer/ReorderableObservableCollection.cs:155-175 | Two added filters get first/last flags: the first cannot move up and can move down. |
| FilterPipeline.RemovedFilterReturns | SignalVisualizer/ReorderableObservableCollection.cs:105-107 | With the source's guard, a filter removed from [a, b] whose `MoveDown` runs is put back at the front: [a, b], event (−1, 0). |
| FilterPipeline.RemovedFilterStaysOut | SignalVisualizer/ReorderableObservableCollection.cs:105-107 | With the corrected guard, the same sequence leaves [b] and raises nothing. |
| SignalViewModels.Fold | SignalVisualizer/ViewModels/SignalViewViewModel.cs:58-59 | Folding through the filters keeps one state per filter. With no filters, the raw value comes out unchanged. |
| SignalViewModels.FoldAppend | SignalVisualizer/ViewModels/SignalViewViewModel.cs:58-59 | Folding through s followed by t is folding through s, then feeding its output through t. Each filter receives the previous one's output, in list order. |
| SignalViewModels.FoldSingle | SignalVisualizer/ViewModels/SignalViewViewModel.cs:58-59 | One filter's fold is that filter's step. |
| SignalViewModels.InverserPairCancels | SignalVisualizer/ViewModels/SignalViewViewModel.cs:58-59 | Two inversers in a row give back the input. |
| SignalViewModels.StatesOf | SignalVisualizer/ViewModels/SignalViewViewModel.cs:58 | One filter state per view model of the list. |
| SignalViewModels.FoldFilters | SignalVisualizer/ViewModels/SignalViewViewModel.cs:56-60 | The `foreach` leaves the filters in the folded states and returns the folded value. |
| SignalViewModels.StepFilter | SignalVisualizer/ViewModels/SignalViewViewModel.cs:59 | One filter steps and the others keep their states. |
| SignalViewModels.MarginedRangeBounds | SignalVisualizer/ViewModels/SignalViewViewModel.cs:125-130 | For min ≤ max, the margined range contains [min, max] and is 1.2 times as wide. A reversed range is margined the same way, by 0.1·\|max − min\|. |
| SignalViewModels.PointsPerTickFinite | SignalVisualizer/ViewModels/SignalViewViewModel.cs:132 | `PointsPerTick` is finite exactly when max ≠ min, and then it equals 250·UnitsPerTick / \|margined width\|. |
| SignalViewModels.SignalViewViewModel.constructor | SignalVisualizer/ViewModels/SignalViewViewModel.cs:36-45 | 300 samples, range [−1, 1], `UnitsPerTick` 0.5, `UnitsPerSecond` 100, margined range [−1.2, 1.2], empty buffer, document marked modified. |
| SignalViewModels.SignalViewViewModel.RecomputeScaleBarValues | SignalVisualizer/ViewModels/SignalViewViewModel.cs:125-133 | The margins and points-per-tick follow the range and tick settings. |
| SignalViewModels.SignalViewViewModel.SetMinimumRange | SignalVisualizer/ViewModels/SignalViewViewModel.cs:78-87 | Sets the value. Only a change marks the document modified, and the scale values always agree with the new range. |
| SignalViewModels.SignalViewViewModel.SetMaximumRange | SignalVisualizer/ViewModels/SignalViewViewModel.cs:96-105 | As `SetMinimumRange`, for the maximum. |
| SignalViewModels.SignalViewViewModel.SetUnitsPerTick | SignalVisualizer/ViewModels/SignalViewViewModel.cs:114-123 | As `SetMinimumRange`, for `UnitsPerTick`. |
| SignalViewModels.SignalViewViewModel.SetUnitsPerSecond | SignalVisualizer/ViewModels/SignalViewViewModel.cs:142-147 | Sets the value, and marks the document modified only on a change. |
| SignalViewModels.SignalViewViewModel.SetSignalSampleCount | SignalVisualizer/ViewModels/SignalViewViewModel.cs:20-34 | The same value changes nothing. A new count ≤ 0 is stored and fails with `ArgumentOutOfRange`, as the buffer constructor throws. Otherwise the buffer is replaced by a fresh one of that capacity, filled from the old one's forward enumeration; when the old one was full, that is its last min(new, old) samples in order. |
| SignalViewModels.SignalViewViewModel.Resized | SignalVisualizer/ViewModels/SignalViewViewModel.cs:28-31 | The buffer swap in isolation: new capacity, written with the old forward view. |
| SignalViewModels.SignalViewViewModel.OnSignalViewValue | SignalVisualizer/ViewModels/SignalViewViewModel.cs:52-67 | Each scalar is folded through the filters in list order. Exactly one `TimedData` is appended to the buffer, carrying the tick's single elapsed time and the final value. |
| SignalViewModels.SignalViewViewModel.Record | SignalVisualizer/ViewModels/SignalViewViewModel.cs:62-66 | The ring-buffer write appends the sample. |
| SignalViewModels.SignalViewViewModel.OnSignalViewError | SignalVisualizer/ViewModels/SignalViewViewModel.cs:69-72 | The upstream error is stored in `Error`, and `IsError` turns true. |
| ScaleBars.DecadeOf | SignalVisualizer/ScaleBar.cs:633-634 | `Floor(Log10(v))` for v > 0: the k with 10^k ≤ v < 10^(k+1). |
| ScaleBars.DecadeUnique | SignalVisualizer/ScaleBar.cs:633-634 | That decade is the only one containing v. |
| ScaleBars.AdjustUnitInterval | SignalVisualizer/ScaleBar.cs:626-648 | The rounded interval has the sign of the input, and 0 maps to 0. |
| ScaleBars.AdjustOdd | SignalVisualizer/ScaleBar.cs:629-631 | For negative input, the result is the negation of the result for −v. |
| ScaleBars.AdjustInDecade | SignalVisualizer/ScaleBar.cs:633-642 | For 10^k ≤ v < 10^(k+1) and m = v/10^k, the result is 10^k (m < 1.5), 2·10^k (m < 3.5), 5·10^k (m < 7.5), or 10^(k+1). |
| ScaleBars.AdjustIsNice | SignalVisualizer/ScaleBar.cs:638-642 | The result is always 1, 2 or 5 times a power of ten. |
| ScaleBars.AdjustIsClose | SignalVisualizer/ScaleBar.cs:638-642 | The rounded interval r satisfies 0.7·r ≤ v < 1.75·r. |
| ScaleBars.AdjustOfNice | SignalVisualizer/ScaleBar.cs:638-642 | A value that is already 1, 2 or 5 times a power of ten is kept. |
| ScaleBars.AdjustIdempotent | SignalVisualizer/ScaleBar.cs:626-648 | Rounding twice is rounding once. |
| ScaleBars.CoerceUnitsPerTick | SignalVisualizer/ScaleBar.cs:476-479 | `Math.Max(1e-12, v)`: at least 1e-12, and equal to v when v is already that large. |
| ScaleBars.CoercePointsPerTick | SignalVisualizer/ScaleBar.cs:481-484 | `Math.Max(10, v)`: at least 10, and equal to v otherwise. |
| ScaleBars.CoerceDecimalCountRounding | SignalVisualizer/ScaleBar.cs:486-489 | Always 12, whatever the input. |
| ScaleBars.AdjustedRatio | SignalVisualizer/ScaleBar.cs:456-459 | The adjusted points per tick stay positive, and `AdjustedPointsPerUnit` equals `PointsPerUnit`, so the nice-interval rounding does not alter the scale. |
| ScaleBars.UnitPointUnit | SignalVisualizer/ScaleBar.cs:491-499 | Over the reals with positive ticks, `GetUnitAt(GetPointAt(u)) = u`. |
| ScaleBars.PointUnitPoint | SignalVisualizer/ScaleBar.cs:491-499 | Over the reals with positive ticks, `GetPointAt(GetUnitAt(p)) = p`. |
| ScaleBars.ScaleBar.constructor | SignalVisualizer/ScaleBar.cs:208-221 | The defaults after `OnLoaded`: start 0, 1 unit and 100 points per tick (adjusted the same), rounding 6. |
| ScaleBars.ScaleBar.GetPointAt | SignalVisualizer/ScaleBar.cs:491-494 | The point of a unit, inverted by `GetUnitAt`. |
| ScaleBars.ScaleBar.GetUnitAt | SignalVisualizer/ScaleBar.cs:496-499 | The unit of a point: start plus point times adjusted units per adjusted points. |
| ScaleBars.ScaleBar.PointRoundTrip | SignalVisualizer/ScaleBar.cs:491-499 | `GetPointAt(GetUnitAt(p)) = p` in every valid state. |
| ScaleBars.ScaleBar.SetUnitAt | SignalVisualizer/ScaleBar.cs:501-505 | Moves the start so that `GetUnitAt(p) = u` afterwards. |
| ScaleBars.ScaleBar.OnUnitsPerTickChanged | SignalVisualizer/ScaleBar.cs:452-460 | Rounds the units interval, rescales the points interval by the same ratio and updates both per-unit values. Afterwards `AdjustedPointsPerUnit = PointsPerUnit`. |
| ScaleBars.ScaleBar.OnPointsPerTickChanged | SignalVisualizer/ScaleBar.cs:462-469 | Rescales the adjusted points interval. Afterwards `AdjustedPointsPerUnit = PointsPerUnit`. |
| ScaleBars.ScaleBar.SetUnitsPerTick | SignalVisualizer/ScaleBar.cs:114-118 | Stores the coerced value. Only an actual change runs the change callback, as a dependency property does. |
| ScaleBars.ScaleBar.SetPointsPerTick | SignalVisualizer/ScaleBar.cs:120-124 | Stores the coerced value, and runs the callback only on an actual change. |
| ScaleBars.ScaleBar.SetDecimalCountRounding | SignalVisualizer/ScaleBar.cs:72-76 | Stores the coerced value, which is always 12. |
| ScaleBars.ScaleBar.SetUnitsPerTickAt | SignalVisualizer/ScaleBar.cs:507-512 | Zooming the units keeps the unit under point p unchanged, and leaves the coerced value stored. |
| ScaleBars.ScaleBar.SetPointsPerTickAt | SignalVisualizer/ScaleBar.cs:514-519 | Zooming the points keeps the unit under point p unchanged. |
| SineWaves.Compute | FourierDataSourceExtension/SineWaveParametersViewModel.cs:83-108 | The result is a number or +∞, and null gives 0. |
| SineWaves.Interpret | FourierDataSourceExtension/SineWaveParametersViewModel.cs:90-107 | The branch on the presence of `/` yields a number or +∞. |
| SineWaves.Fraction | FourierDataSourceExtension/SineWaveParametersViewModel.cs:92-102 | The two-part rule yields a number or +∞. |
| SineWaves.ComputeIgnoresSurroundingSpace | FourierDataSourceExtension/SineWaveParametersViewModel.cs:88 | Input is trimmed before parsing, so surrounding white space does not matter. |
| SineWaves.ComputePlain | FourierDataSourceExtension/SineWaveParametersViewModel.cs:105-107 | Text without `/` gives the parsed number, or 0 on failure. |
| SineWaves.ComputeManySlashes | FourierDataSourceExtension/SineWaveParametersViewModel.cs:92-94 | Text with two or more `/` does not split into two parts and gives 0. |
| SineWaves.ComputeFraction | FourierDataSourceExtension/SineWaveParametersViewModel.cs:96-102 | With one `/`: 0 if either trimmed side fails to parse, +∞ if \|b\| < 1e-9 whatever a is, and a/b otherwise. |
| SineWaves.InfinityIffTinyDenominator | FourierDataSourceExtension/SineWaveParametersViewModel.cs:99-100 | The result is +∞ exactly when the text is a fraction of two parseable sides with a denominator below 1e-9 in magnitude. |
| SineWaves.SineWaveParametersViewModel.constructor | FourierDataSourceExtension/SineWaveParametersViewModel.cs:58-72 | Texts "0" and active, or the saved texts restored without calling `configChanged`. Then the model is built from the three texts. |
| SineWaves.SineWaveParametersViewModel.Load | FourierDataSourceExtension/SineWaveParametersViewModel.cs:110-116 | Restores the four raw fields and calls nothing. |
| SineWaves.SineWaveParametersViewModel.Saved | FourierDataSourceExtension/SineWaveParametersViewModel.cs:118-126 | What `Save` writes: the raw texts and the active flag, not the computed values. |
| SineWaves.SineWaveParametersViewModel.Save | FourierDataSourceExtension/SineWaveParametersViewModel.cs:118-126 | Writes exactly `Saved()`. |
| SineWaves.SineWaveParametersViewModel.UpdateModel | FourierDataSourceExtension/SineWaveParametersViewModel.cs:74-81 | The model becomes the three computed texts. |
| SineWaves.SineWaveParametersViewModel.SetIsActive | FourierDataSourceExtension/SineWaveParametersViewModel.cs:16-21 | Sets the flag, and calls `configChanged` only on a change. |
| SineWaves.SineWaveParametersViewModel.SetAmplitude | FourierDataSourceExtension/SineWaveParametersViewModel.cs:23-32 | Sets the text, rebuilds the model from all three texts, and calls `configChanged` only when the text differs. |
| SineWaves.SineWaveParametersViewModel.SetPhase | FourierDataSourceExtension/SineWaveParametersViewModel.cs:34-43 | As `SetAmplitude`, for the phase. |
| SineWaves.SineWaveParametersViewModel.SetFrequency | FourierDataSourceExtension/SineWaveParametersViewModel.cs:45-54 | As `SetAmplitude`, for the frequency. |
| SineWaves.SaveThenLoad | FourierDataSourceExtension/SineWaveParametersViewModel.cs:110-126 | A view model built from what another saved has the same four fields and the same model, with no `configChanged` call. |
| PathLookup.Make | SignalVisualizer/PathLookupInfo.cs:27-36 | A null, empty or white-space path is rejected first, and a null pattern array next. It succeeds exactly otherwise. An empty pattern list becomes exactly ["\*.\*"], and a non-empty one is kept unchanged and in order. |
| PathLookup.FromPath | SignalVisualizer/PathLookupInfo.cs:12-15 | Patterns ["\*.\*"], no sub-directories, and the same path rule. |
| PathLookup.FromPathPatterns | SignalVisualizer/PathLookupInfo.cs:17-20 | No sub-directories and the same path and null checks. An empty pattern list becomes exactly ["\*.\*"], and a non-empty one is kept. |
| PathLookup.FromPathRecursive | SignalVisualizer/PathLookupInfo.cs:22-25 | Patterns ["\*.\*"], with `IncludeSubDirectories` as given. |
| PathLookup.MakeIdempotent | SignalVisualizer/PathLookupInfo.cs:27-36 | Building again from a constructed value's own properties gives it back. |
| PathLookup.MadePathNotBlank | SignalVisualizer/PathLookupInfo.cs:30-31 | A constructed value's path has something left once trimmed. |

## Left out

- Locks (`syncRoot`, the unsubscription-list lock, `ReaderWriterLockSlim`, `lock (SignalFilters)`, `lock (Reorderer)`) are modelled as sequential sections. There is no concurrency in the model. The read lock of an explicit reverse pass is the ghost flag `Reversing`.
- Observers are opaque ids and deliveries are entries of a log, not callbacks. So observer reentrancy and exceptions thrown from callbacks are not modelled.
- The WPF side is not modelled: rendering (`OnRender`, mouse-wheel zoom), the dependency-property plumbing beyond coercion and change callbacks, `PropertyChanged` notifications, the config windows and `Configure`, and the `Dispatcher.BeginInvoke` re-selection.
- `Dispose` closing a filter's config window is not modelled, because a filter has no window in the model.
- XML persistence is not modelled. `Load`/`Save` exchange datatypes instead of XML text, and `SaveLayout`/`LoadLayout` are not modelled.
- FileManagerBase's dialogs and message boxes are not modelled. Their answers are method parameters, and `OnClose`/`OnLoad`/`OnSave` are effects in a trace.
- The public FileManagerBase wrappers `Close`, `Open`, `Save` and `SaveAs` only forward to the internal methods and are not repeated.
- `double` is `real`. IEEE rounding, NaN and overflow are not modelled. The +∞ of `Compute` and the result of a division by zero are datatype tags.
- `Math.Log10` and `Math.Pow` in `AdjustUnitInterval` are replaced by the exact decade `DecadeOf`.
- LowPass.Defined: the RC coefficient `a/(a+dt)` with `a + dt = 0` (an IEEE infinity or NaN in the source) is excluded by a precondition. The same holds for HighPass.Defined.
- `double.TryParse` is an abstract parser parameter. Its culture rules are not modelled.
- White space is a fixed list of characters, not the full Unicode class that `Char.IsWhiteSpace` uses.
- The stopwatch is not modelled: elapsed time is a parameter of `OnSignalViewValue`.
- The exception passed to `OnError` is a number.
- `OnSignalViewCompleted` has an empty body in the source and is not modelled.
- SignalViews.SignalView.OnNext: a null vector is not modelled, because a sequence is never null.
- The subscription of a view model's handler to a filter's `ConfigurationChanged` is an `attached` flag on a `Subscription` object, not an invocation list.
- `IsReordering` is not modelled. Its only reader is the left-out `Dispatcher` re-selection branch, and it is false outside a move.
- FilterPipeline.ReorderableCollection.MoveUp: the `Remove(item)` inside a move is modelled as removal at the index just found. This is the same list for a duplicate-free collection, which the invariant keeps. The same holds for `MoveDown` and `MoveDownAsWritten`.
- SignalViewModels.SignalViewViewModel.constructor: the source's five setters each mark the document modified, and the model marks it once. Only the first call changes the flag, so the document state and event trace are the same.
- RingBuffers.RingBuffer.WriteRange: the check `count + offset > data.Length` is 32-bit in the source, so a huge offset and count can wrap to a negative sum, pass the check and fail later inside `Array.Copy`. Integers are unbounded here, so that path is not modelled.
- SineWaves.SineWaveParametersViewModel: the amplitude, phase and frequency texts are strings that are never null. A null text, which `Compute` turns into 0, is modelled only on `SineWaves.Compute` itself.
- `RingBuffer` is treated as never null in `SignalViewViewModel`. The constructor creates it before any sample arrives.
- ScaleBars.ScaleBar.constructor: the state before `OnLoaded` (adjusted values unset) is not modelled.
- The `DecimalCountRounding` default 6 is stored uncoerced, as a dependency-property default is. Its coercion only affects later sets.
- PathLookup.Make: a null entry inside the pattern array is not modelled, because strings are never null.
- `SineWaveParametersViewModel`'s `RemoveCommand` is a delegate wrapper and is not modelled.
- The `SignalFiltersPipelineViewModel` constructor's null check of the view selector is not modelled. The selector is only stored.
- FilterPipeline.SignalFilterViewModel.Cleanup: disposing an `IDisposable` filter only closes its config window, so only the handler detachment is modelled.

## Findings

| source | as written | input that shows it | evidently intended | confidence | as-written member | corrected member |
|---|---|---|---|---|---|---|
| SignalVisualizer/ReorderableObservableCollection.cs:105-107 | `MoveDown` only returns false when `oldIndex >= Items.Count - 1`. An item that is no longer in the list has index −1 and passes that test. If it still has `CanMoveDown` set (a removal resets no flags on the removed item), `Remove` finds nothing and `Insert(0, item)` puts it back at the front, raising `ChildReordered(-1, 0)`. | From [a, b], `Remove(a)`, then `MoveDown(a)`: the list is [a, b] again and the event (−1, 0) is raised. | Also refuse a non-member (`oldIndex < 0`), as `MoveUp`'s `oldIndex < 1` already does. | low, not executed: the UI normally hides the removed row's command | FilterPipeline.ReorderableCollection.MoveDownAsWritten, FilterPipeline.RemovedFilterReturns | FilterPipeline.ReorderableCollection.MoveDown, FilterPipeline.RemovedFilterStaysOut |
