# A verified model of the SCZR image pipeline

SCZR runs three stages as separate workers, each pinned to its own core:
- an image fetcher, which crops each image and standardises its background;
- a statistics stage, which computes a dictionary of integer and boolean facts about the drawn character;
- a logger, which collects the dictionaries.

A scheduler decides which worker runs next. It uses one of two policies (round robin or fifo) over the workers' pending counters and a busy table shared by all of them. Each worker hands its results to the next through a shared list or a directory, and it names the k-th file after its own task counter.

This project models that core in Dafny and proves properties of the model.

- `scheduler_model.dfy` (module `SchedulerModel`) is the dispatch engine on values.
  - A `Slot` snapshot describes each worker.
  - The two policies are functions over the snapshot.
  - A dispatch followed by the chosen worker's wake-up is one atomic `Step`.
  - `Run` is the scheduler loop.
  - The lemmas cover what the policies choose, that no counter goes negative, and the exact dispatch count for the three-stage chain that `main.py` builds.
- `process.dfy` (module `Process`) is the same engine on the heap.
  - It has classes `BusyTable`, `Worker` and `Scheduler`, with policy methods that scan the live workers.
  - Every method that changes state is proved to move the snapshot exactly as the value-level engine does.
- `masks.dfy` (module `Masks`) holds the four offset scans, as loops and as specification functions, and pixel counting.
- `image_processing.dfy` (module `ImageProcessing`) holds images as values and as `array3<int>`, the in-place background replacement, the crop of `process_image`, and the alpha mask.
- `statistics.dfy` (module `ImageStatistics`) is the statistics dispatcher of `calculate_stats`.
  - It covers the key names, the name aliases, each branch and its sentinels, and the unknown-statistic error.
  - The whole loop over the requested names is a fold, with a loop method proved equal to it.
- `stages.dfy` (module `Stages`) holds the three stages as classes.
  - Only the fetcher holds a `Worker`, since it is the one stage whose constructor sets the worker's pending counter. The statistics stage and the logger are modelled by their work functions and their own state.
  - Each stage has its own task counter and reads and writes the counter-th file, and each constructor picks its connectors as `connect` does.
  - A `Channel` (a list with `append` and `pop(0)`) is a FIFO buffer.
- `common.dfy` (module `Common`) holds `Option`, `Result`, the exceptions raised, decimal file names and `os.path.join`.

Modelling decisions:
- **A dispatch and the chosen worker's wake-up form one transition.** The scheduler holds the chosen worker's handshake lock (`lock2`) from the policy's probe until the worker releases it after decrementing its counter. So no other dispatch can observe the worker in between.
- **Policies run on a frozen snapshot.** The source's policies are `while True` loops that re-probe until some other process changes a counter. On a frozen snapshot such a loop either returns at once or spins for ever.
  - The model reports the spin as `Blocked`.
  - It reports the scheduler loop that would spin as the outcome `Stuck(remaining)`.
  - `fifo` is a loop of at most N probes: after N idle skips the frozen snapshot repeats.
- **Integers are exact.** Floating-point values (`np.std`, `np.mean`, the two ratios) are kept as `Measured` and `RatioV(num, den)`.
- **The scheduler requires distinct workers on distinct cores.** `main.py` builds the pipeline on cores 1, 2 and 3 by default. The sweeps of `experiments.py:12-29` also place several stages on one core (all three on core 0, for instance). The model excludes those runs, since their busy cells alias.

## Model

| member | source | states |
|---|---|---|
| SchedulerModel.NextIsMod | process.py:19 | the cyclic successor used by the model is `(cursor + 1) % len(processes)` |
| SchedulerModel.OffsetCovers | process.py:28 | every worker is reached by some number of fifo skips from any cursor |
| SchedulerModel.FifoFromMeaning | process.py:22-34 | from the d-th probe, fifo chooses exactly the first worker with pending work provided it is not busy, with that worker's index as the cursor, and blocks exactly when all remaining probes are idle or that first worker is busy |
| SchedulerModel.FifoChoiceMeaning | process.py:22-34 | fifo chooses the first worker in cyclic order from the cursor that has pending work, when it is not busy; the returned cursor is its own index; it blocks iff nothing is pending anywhere or that worker is busy |
| SchedulerModel.ChosenIsEligible | process.py:14 | whichever policy runs, the chosen worker has a nonzero counter and a clear busy cell |
| SchedulerModel.FifoIdleWorkersNeverBlock | process.py:27-31 | when no worker is busy, fifo blocks iff every counter is zero |
| SchedulerModel.FifoChoosesPending | process.py:22-34 | with nothing busy and some work pending, fifo chooses a worker with positive pending work and returns its index as the cursor |
| SchedulerModel.WakeRunning | process.py:115-130 | a running worker's pass decrements its own counter by one, runs its work once, increments the downstream counter by one, clears its busy cell and releases the handshake; nothing else changes |
| SchedulerModel.WakeAt | process.py:110-130 | the effect of one pass on every worker: a stopped worker only terminates; a running one consumes a unit and clears busy; only its downstream is fed; every other worker is untouched |
| SchedulerModel.StopThenWake | process.py:110-113 | after stop(), the next wake terminates the worker without consuming a unit or running its work, and leaves every other worker untouched |
| SchedulerModel.StepKeepsNonNegative | process.py:115 | dispatching a worker with pending work keeps every counter non-negative |
| SchedulerModel.RunKeepsNonNegative | process.py:54-59 | under either policy no counter ever goes negative; a completed run dispatched exactly the owed number of times, and a stuck run still owes a positive remainder that adds up with the dispatches made |
| SchedulerModel.RoundRobinTraceCyclic | process.py:9-20 | round robin serves workers starting at the cursor in strict cyclic order |
| SchedulerModel.ChainLinks | main.py:43-52 | in the pipeline chain, worker i feeds worker i + 1 and the last worker feeds nobody |
| SchedulerModel.MovedConserves | process.py:120-121 | moving one unit a stage down the chain lowers the owed weight by exactly one |
| SchedulerModel.WeightNonNegative | process.py:51-52 | with non-negative counters the owed weight is non-negative, and zero iff nothing is pending |
| SchedulerModel.StepOnChain | process.py:115-130 | on a chain at rest, a step moves one unit from the chosen stage to the next one (or out of the last), that stage ran once more, and the chain is at rest again |
| SchedulerModel.DrainedAfterStep | process.py:54-59 | a step followed by a drained run is a drained run |
| SchedulerModel.FifoDrainsChain | process.py:22-34 | fifo drains a chain at rest from any cursor in exactly its weight of dispatches, leaving every counter zero and every stage run once per unit that passed it |
| SchedulerModel.RoundRobinDrainsChain | process.py:9-20 | round robin drains a head-seeded chain in exactly its weight of dispatches, with the same final state |
| SchedulerModel.ChainScheduleExact | process.py:51-59 | for a k-stage chain seeded with n units at its head, `sum(pending) * len(processes)` is n * k, and under either policy exactly n * k dispatches complete; every stage runs n times and every counter ends at zero |
| SchedulerModel.ThreeStageScenario | main.py:43-52 | main.py's fetcher, statistics and logger chain fed five images completes fifteen dispatches, five per stage |
| Process.BufferTakesPrecedence | process.py:83-97 | a supplied buffer is the connector, whatever path is given; a path is used only without a buffer; neither leaves the side unset; every stage constructor sets its connectors this way |
| Process.Worker.constructor | process.py:66-80 | a new worker has pending 0, is running and not terminated, with its admission lock acquired; the busy cell of its core is created false only when missing, and an existing one is kept |
| Process.Worker.Wake | process.py:106-130 | one pass of do_work after wait(): a stopped worker terminates without touching counters, work or busy cell; a running one consumes a unit, releases the handshake, runs once, feeds its downstream counter and clears its busy cell |
| Process.Worker.Stop | process.py:144-155 | stop() leaves the worker not running and terminated, with its counter, its work count, its downstream counter, its handshake lock and the busy table unchanged; admission stays open only if the executor had already terminated and left it open |
| Process.RoundRobinPolicy | process.py:9-20 | round robin chooses the cursor's worker iff its counter is nonzero and it is not busy, and then returns `(cursor + 1) % len(processes)`; the result equals the model's choice, and no worker changes |
| Process.FifoPolicy | process.py:22-34 | the scanning loop returns exactly the model's fifo choice on the live workers, changing no worker |
| Process.Scheduler.constructor | process.py:37-41 | a new scheduler keeps the workers, policy and core, with the cursor at 0 |
| Process.Scheduler.ChangePolicy | process.py:43-44 | change_scheduling_scheme replaces the policy and keeps the cursor |
| Process.Scheduler.DispatchTo | process.py:57-58 | a dispatch sets the chosen worker's busy cell and releases its admission lock, and nothing else in the snapshot changes |
| Process.Scheduler.WakeWorker | process.py:106-130 | the chosen worker's pass moves the live snapshot exactly as the model's Wake |
| Process.Scheduler.WakeStoppedWorker | process.py:110-113 | a stopped worker's pass moves the snapshot as Wake: it only terminates |
| Process.Scheduler.WakeRunningWorker | process.py:115-130 | a running worker with no other downstream moves the snapshot as Wake |
| Process.Scheduler.WakeFeedingWorker | process.py:115-121 | a running worker feeding another worker moves the snapshot as Wake, for itself and for the worker it feeds |
| Process.Scheduler.DispatchAndWake | process.py:57-58 | a dispatch and the chosen worker's wake-up, in place, are the model's Step |
| Process.Scheduler.PendingTotal | process.py:51 | the loop over the live counters returns their sum |
| Process.Scheduler.Pick | process.py:55 | the active policy applied to the live workers returns the model's choice |
| Process.Scheduler.Round | process.py:54-59 | one loop iteration either leaves everything as it was because the policy blocks, or performs the next dispatch of the model's run and leaves the rest of that run to come |
| Process.Scheduler.Drive | process.py:54-59 | the loop's final snapshot is that of the model's run, as are its cursor, its outcome and its dispatch sequence, and the number of dispatches is the sequence's length |
| Process.Scheduler.Schedule | process.py:46-59 | schedule() computes `sum(pending) * len(processes)` once and ends in the model's run of that many dispatches |
| Masks.FirstFromMeaning | image_processing.py:68-75 | the forward scan from index i gives -1 iff nothing from i on is true; otherwise the index it gives is true and everything before it from i on is false |
| Masks.FirstTrueMeaning | image_processing.py:68-75 | the forward scan gives -1 iff nothing is true; otherwise the first true index |
| Masks.LastFromMeaning | image_processing.py:77-84 | the backward scan from distance i gives -1 iff nothing up to that point is true; otherwise the distance of the last true index, with everything after it false |
| Masks.LastTrueMeaning | image_processing.py:77-84 | the backward scan gives -1 iff nothing is true; otherwise the distance from the end of the last true index |
| Masks.NonEmptyColumns | image_processing.py:68-102 | a mask has a true cell iff some column does, iff some row does |
| Masks.LeftOffsetMeaning | image_processing.py:68-75 | get_left_offset is -1 iff the mask is empty; otherwise its column holds a true cell and every earlier column is all false |
| Masks.RightOffsetMeaning | image_processing.py:77-84 | get_right_offset is -1 iff the mask is empty; otherwise column W - 1 - offset holds a true cell and every column right of it is all false |
| Masks.TopOffsetMeaning | image_processing.py:86-93 | get_top_offset is -1 iff the mask is empty; otherwise its row holds a true cell and every earlier row is all false |
| Masks.BottomOffsetMeaning | image_processing.py:95-102 | get_bottom_offset is -1 iff the mask is empty; otherwise row H - 1 - offset holds a true cell and every row below it is all false |
| Masks.OffsetBounds | image_processing.py:155-161 | for a non-empty mask, all offsets are non-negative, Left + Right <= W - 1 and Top + Bottom <= H - 1, so Width >= 1 and Height >= 1 |
| Masks.EmptyMaskOffsets | image_processing.py:160-161 | for an empty mask, all four offsets are -1, and the sizes come out as W + 2 and H + 2 |
| Masks.GetLeftOffset | image_processing.py:68-75 | the loop with early break returns get_left_offset's value |
| Masks.GetRightOffset | image_processing.py:77-84 | the loop with early break returns get_right_offset's value |
| Masks.GetTopOffset | image_processing.py:86-93 | the loop with early break returns get_top_offset's value |
| Masks.GetBottomOffset | image_processing.py:95-102 | the loop with early break returns get_bottom_offset's value |
| Masks.CountRowZero | image_processing.py:113-114 | a row's count of true cells is zero iff the row holds no true cell |
| Masks.CountRowsBounds | image_processing.py:113-114 | the count over the first k rows is at most k * W, and zero iff those rows are all false |
| Masks.CountTrueBounds | image_processing.py:113-114 | `mask.sum()` is at most H * W, and zero iff the mask has no true cell |
| ImageProcessing.FillBackground | image_processing.py:26 | one channel of every pixel whose alpha is 0 is set to the value; every other cell keeps its value |
| ImageProcessing.ChangeImgOnBackground | image_processing.py:23-27 | in place, every colour channel of each alpha-0 pixel gets the colour's channel, and alpha and all other pixels are unchanged. It succeeds iff the image has a channel and the colour covers every colour channel; on IndexError, exactly the channels before the missing one have been written |
| ImageProcessing.RecolourIdempotent | image_processing.py:23-27 | standardising the background twice equals doing it once |
| ImageProcessing.Crop | image_processing.py:35-38 | the crop has shape (h // 4, w // 4, depth) and keeps the top-left pixels |
| ImageProcessing.CropInto | image_processing.py:33-38 | the fresh array holds exactly the crop |
| ImageProcessing.ProcessImage | image_processing.py:29-44 | process_image on a decoded image returns the model's processed value: the crop, recoloured when a background is given, or IndexError |
| ImageProcessing.ProcessedMeaning | image_processing.py:29-44 | process_image succeeds iff no background is given or the background covers the colour channels; the result has the crop's shape, each background pixel's colour channels come from the background, and every other cell equals the image's |
| ImageProcessing.AlphaMask | image_processing.py:140 | the mask marks exactly the pixels whose last channel is 255 |
| ImageProcessing.AlphaCount | image_processing.py:113-114 | the pixel count of the alpha mask is at most H * W, and zero iff no pixel is fully opaque |
| ImageStatistics.NameRoundTrip | image_processing.py:144-203 | every dictionary key's string reads back as that key |
| ImageStatistics.NameInjective | image_processing.py:144-203 | distinct keys have distinct strings, in both directions |
| ImageStatistics.RecognizedNames | image_processing.py:144-205 | exactly the fifteen names (including aliases) select a branch |
| ImageStatistics.IntEntry | image_processing.py:156-158 | a lookup succeeds iff the key is present with an integer value, and returns that value; otherwise it raises KeyError naming that key |
| ImageStatistics.AddVarietyCanonical | image_processing.py:198-201 | the variety loop succeeds iff its values fit the three colour names, writes only the measured value or -1, and otherwise raises IndexError |
| ImageStatistics.SizesCanonical | image_processing.py:155-161 | the sizes branch succeeds and writes W - R - L and H - T - B, from the dictionary or from the mask alike |
| ImageStatistics.BoxCanonical | image_processing.py:162-167 | the bbox branch succeeds and writes Width * Height exactly when Width is already present, and otherwise the fallback area as parsed |
| ImageStatistics.RatiosCanonical | image_processing.py:170-197 | the ratio branch succeeds and writes the image ratio (-1 without pixels); the box ratio divides by the stored bounding-box area when present, else by Width * Height when Width is present, else by the fallback area, with -1 for a zero area |
| ImageStatistics.DirectCanonical | image_processing.py:145-154 | the resolution, n_pixels, offsets, char size and brightness branches succeed and write the image's own values |
| ImageStatistics.ApplyCanonical | image_processing.py:144-203 | each branch succeeds unless it is the variety branch with values that do not fit; a success writes only defined values; a failure is IndexError |
| ImageStatistics.StepCanonical | image_processing.py:144-205 | one pass succeeds iff the name is recognised and fits; an unknown name raises with that name |
| ImageStatistics.VarietyFitsMeaning | image_processing.py:104-111 | the variety values fit the three colour names iff no pixel is opaque or the image has at most four channels |
| ImageStatistics.AddVarietyKeys | image_processing.py:200-201 | a successful variety loop adds exactly the colour keys of its values |
| ImageStatistics.ApplyKeys | image_processing.py:144-203 | a successful branch adds exactly its own keys and removes none |
| ImageStatistics.FoldMeaning | image_processing.py:144-206 | the loop succeeds iff every name is accepted; it then holds exactly the keys they add, each with its defined value (the box entries one of their two formulas, fixed by StatsOfOrder); otherwise it raises what the first rejected name raises |
| ImageStatistics.StatsOfMeaning | image_processing.py:140-206 | an image with an alpha channel succeeds iff every name is accepted, and then holds exactly the keys the names add, with their defined values; otherwise the first rejected name's exception is raised |
| ImageStatistics.FoldOutcome | image_processing.py:144-206 | the loop succeeds iff every name is accepted, and otherwise raises what the first rejected name raises |
| ImageStatistics.FoldCanonical | image_processing.py:144-206 | a successful loop keeps every entry at its defined value and adds exactly the keys of the names |
| ImageStatistics.KindsMeaning | image_processing.py:144-205 | the i-th entry of the branch sequence is the branch the i-th name selects |
| ImageStatistics.LastBeforeMeaning | image_processing.py:144-205 | the last position before i of a branch is -1 iff no earlier name selects it, and otherwise selects it with no later one before i |
| ImageStatistics.ApplyKeeps | image_processing.py:144-203 | a branch leaves the presence and value of every key it does not add as they were |
| ImageStatistics.AddVarietyKeeps | image_processing.py:198-201 | the variety loop leaves every key outside its colour names as it was |
| ImageStatistics.TrackedStep | image_processing.py:155-197 | one more branch keeps the box entries tied to the order of the names seen so far |
| ImageStatistics.FoldTracked | image_processing.py:144-206 | a successful loop keeps the box entries tied to the order of all the names |
| ImageStatistics.StatsOfOrder | image_processing.py:155-197 | Width is present iff a sizes name was given and the box area iff a bbox name was; the box area is Width * Height exactly when a sizes name precedes the last bbox name, and otherwise the fallback; the box ratio divides by the area of the last bbox name before the last ratio name, or without one by the area the ratio name computes |
| ImageStatistics.ComputeStatistics | image_processing.py:140-206 | the loop over the names, with the offset scans, returns the model's statistics |
| ImageStatistics.FactsVisible | image_processing.py:140 | the character is visible iff some pixel is opaque, iff the pixel count is positive; the count is at most H * W |
| ImageStatistics.FactsBox | image_processing.py:155-161 | a visible character's box has Width and Height between 1 and the image's sides |
| ImageStatistics.FactsEmpty | image_processing.py:104-111 | without a visible character: the offsets are -1, the sizes W + 2 and H + 2, and the colour statistics -1 |
| ImageStatistics.DotFactsOf | image_processing.py:140-169 | the facts of a 2x2 image with one opaque pixel: offsets 0, 1, 0, 1 and one counted pixel |
| ImageStatistics.BoundingBoxOrder | image_processing.py:162-167 | alone, bbox gives the fallback area as parsed (0 for the one-pixel image); after sizes it is Width * Height (1); ratios after a lone bbox gives the -1 sentinel |
| Stages.Channel.constructor | image_processing.py:62 | a new list is empty |
| Stages.Channel.Append | image_processing.py:62 | append adds the item at the back |
| Stages.Channel.Pop | image_processing.py:135 | pop(0) returns the oldest item not yet taken, the next one in append order, or raises IndexError on an empty list |
| Stages.ImageAt | image_processing.py:137-138 | opening a path succeeds iff an image is stored there; a missing path gives FileNotFound, and another kind of file WrongContent |
| Stages.StatisticsAt | image_processing.py:235-236 | reading a JSON path gives the statistics stored there, or FileNotFound or WrongContent |
| Stages.ImageFetcher.constructor | image_processing.py:46-51 | the fetcher's output is chosen as `connect` chooses it, its worker's counter is the number of paths with nothing else of the worker changed, and its current image is 0 |
| Stages.ImageFetcher.ProcessNext | image_processing.py:53-63 | the current image is processed against the default white background and saved as `<current>.png` or appended to the buffer, and current moves on by one; a failure changes nothing |
| Stages.StatisticsStage.constructor | image_processing.py:127-130 | the stage's input and output are chosen as `connect` chooses them, it keeps its statistic names, and its task counter starts at 0 |
| Stages.StatisticsStage.ReadInput | image_processing.py:133-138 | the counter-th image is popped from the input buffer (named `k.png`) or read from `dir/k.png` |
| Stages.StatisticsStage.Emit | image_processing.py:207-214 | the dictionary is appended to the output buffer, or written as `<counter>.json` with its path, and the counter moves on |
| Stages.StatisticsStage.CalculateStats | image_processing.py:132-214 | calculate_stats reads the counter-th image, computes the model's statistics and emits them; a failure leaves counter, files and output as they were, while a popped image stays consumed |
| Stages.Logger.constructor | image_processing.py:216-227 | the logger's input is chosen as `connect` chooses it, rows are kept iff a non-empty output file is named, and its task counter starts at 0 with no rows |
| Stages.Logger.LogResults | image_processing.py:229-244 | the counter-th dictionary, popped or read from `k.json`, gets 'Path' set to the name it was read by, is added as a row when an output file is set, and the counter moves on |
| Stages.DirectoryHandoff | image_processing.py:133-137 | through a directory, the statistics stage's k-th call reads the image saved as `k.png`, and the logger's k-th call reads the statistics saved as `k.json` |
| Stages.OtherTaskKeeps | image_processing.py:208-214 | saving another call's file leaves what the k-th call reads unchanged |
| Common.Decimal | image_processing.py:133 | `str(k)` is a non-empty string of decimal digits, one digit long iff k < 10 |
| Common.DecimalInjective | image_processing.py:133 | distinct counters give distinct names, in both directions |
| Common.Join | image_processing.py:137 | os.path.join of two components: an absolute name replaces the directory; otherwise the name follows the directory, with a `/` between them exactly when the directory is non-empty and does not end in `/` |
| Common.TaskPathInjective | image_processing.py:210 | under one directory, the k-th and j-th task files coincide iff k == j |

## Left out

- Real concurrency is not modelled: the processes, the `Lock`s, the shared `Value`s and `Manager` objects, and interleavings. A dispatch plus the chosen worker's pass is one atomic step, which the handshake lock justifies.
- CPU pinning with `psutil.cpu_affinity` (process.py:47-48, 102-103) is an operating-system call.
- The EMA latency estimate and the `time.time()` readings (process.py:72-73, 118-128) are wall-clock floats.
- `stop()`'s polling and sleep loop and its `ValueError` handling (process.py:147-155) are not modelled: only the flag effect and the executor's next pass are.
- `clean()` (process.py:112, 160-161) and `Logger.clean`'s CSV output are I/O.
- The work function is not invoked by `Wake`: `runs` counts its calls. The stage classes model the three work functions separately.
- Process.RoundRobinPolicy: a spin is reported as `Blocked` rather than looped, since on a frozen snapshot the `while True` re-probe never changes.
- Process.FifoPolicy: the endless scan is cut off after one pass over all workers and reported as `Blocked`.
- Process.Scheduler.Schedule: a spinning policy ends the loop with outcome `Stuck(remaining)`, where the source would hang.
- Process.Scheduler.constructor: requires distinct workers on distinct cores with one shared table. The source does not check this, and the sweeps of `experiments.py:12-29` do put several stages on one core (all on core 0, for instance); such runs share a busy cell and are not modelled.
- `start()`, `wait()` and `release()` are the lock protocol and are folded into the atomic step. `check_if_ready` (process.py:138-139) and the module-level `current_process_idx` (process.py:7) are unused.
- An exception inside a work function ends that worker's executor in the source. The model returns `Failure` and leaves the stage's counters as they were.
- Image decoding, `convert('RGBA')`, `Image.fromarray(...).save` and JSON dumping and loading are modelled as storing and retrieving values in a map from path to file.
- `get_all_filepaths`'s directory walk is not modelled: the path list is a parameter of the fetcher.
- The `uint8` range of pixel values is not enforced: pixels are unbounded integers, and a colour value outside 0..255 is written as given.
- The crop is a copy, not a numpy view of the original array. No code refers to the original afterwards.
- `np.std` and `np.mean` (image_processing.py:104-123) are floating point. The model keeps only which keys they write and their -1 sentinels, as `Measured` and `IntV(-1)`.
- The two ratios are kept as exact fractions `RatioV(num, den)`, not as floats.
- The verbose `print` of the logger (image_processing.py:239-240) is not modelled.
- The `manager.dict()` of `main.py:11-12` is modelled as the one `BusyTable` that every worker shares (`Process.Shares`). Its cross-process proxying and locking are not modelled.
- `tasks_waiting` is a 32-bit `Value('i')` (process.py:74) that would wrap past 2^31 - 1. The model's counters are unbounded integers.
- A missing input or output connector is mapped to one error, `MissingConnector`; the source raises `AttributeError` or `TypeError`.
- Masks.CountTrue: proved zero iff the mask is empty and at most H * W. It is defined as the per-row sum of true cells, and it is not related to a set cardinality.
- `experiments.py` and the pipeline wiring in `main.py` are outside the model. The three-stage chain appears only as `ChainLinks` and the scenario lemmas.
