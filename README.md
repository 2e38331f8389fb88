# hkkang_utils core, modelled in Dafny

This project models four files of the `hkkang_utils` Python utility library:

- **`pattern.py`**: the singleton helpers. These are the metaclasses `SingletonMeta` and `SingletonABCMeta`, which keep one object per class. The metaclasses `SingletonMetaWithArgs` and `SingletonABCMetaWithArgs` keep one object per class and argument text. The decorators `singleton` and `singletonWithArgs` keep their state in a closure. Each helper is a class: the metaclasses and `singletonWithArgs` hold their table as a `map` field, and `singleton` holds its one instance as an `Option` field. Each call method is proved to be one get-or-create step (`Pattern.GetOrCreate`). For `singleton`, the step is on its `Option` field read as a table with a single key (`Pattern.OneKeyTable`). Lemmas over runs of calls prove two things: equal keys give the same object, and the first object built for a key is kept.
- **`tensor.py`**: the zero-padding batchers and the attention-mask combiner.
  - The two padding functions allocate buffers and fill them in a loop, so they are methods over `array2`/`array3`. They are proved against value-level definitions of the padded batch and its mask.
  - A round-trip lemma recovers each input row from the padded batch and its mask.
  - The rank dispatcher `zero_pad_batching` and `att_mask_from_individual_masks` are modelled as well.
- **`concurrent.py`**:
  - `_shorten_string` and the argument parsers of `Thread`.
  - `Thread`: its class-wide id counter, its construction and its `run` body.
  - `MultiProcessor`: its submission list, result collection, executor life cycle and `with`-block exit.
  - `MultiProcessor` is a class whose methods are proved against value-level specifications (`Submit`, `JoinSpec`, `ExitSpec`). What a worker computes is the parameter `eval`.
- **`data.py`**: `asdict(obj, skip_none)`. This is the walk of `dataclasses.asdict` over a dataclass instance together with the library's custom dict factory. The factory loop is a method. Lemmas cover:
  - field order;
  - dropping `None` fields;
  - key sets;
  - recursion into nested instances with the same flag.

Behaviour of the code a caller may not expect:

- **`MultiProcessor.__exit__` does not suppress an exception raised in the `with` body.** It returns `False` for it (`Concurrent.ExitNeverSuppresses`). An exception raised by the join propagates in its place.
- **An exception in `Thread.run` is not re-raised to the code that reads `result`.** The thread ends, the exception goes to the threading module's hook, and `result` keeps its previous value (`Concurrent.Thread.Run`).
- **`MultiProcessor.results` does not join.** The `MultiProcessor` docstring says reading results calls `join` anyway. But the property returns `_results` as it stands, which is empty until `join()` has completed (`Concurrent.ResultsEmptyBeforeJoin`, from the constructor's empty state and `Concurrent.SubmitAllKeepsResults`).
- **`MultiProcessor.run` ignores the verdict of `_check_if_valid_function`.** A lambda is logged and submitted all the same. A non-callable is rejected only by `functools.partial`, with `TypeError`, after the executor has been built.
- **Both padding functions raise on their default `return_mask=True` path** (see "Findings"). The dispatcher `zero_pad_batching` therefore never returns as written (`Tensor.ZeroPadBatchingAsWritten`). The model's dispatcher `Tensor.ZeroPadBatching` uses the corrected padding functions.

## Model

| member | source | states |
|---|---|---|
| Pattern.GetOrCreate | src/hkkang_utils/pattern.py:11-14 | after one call the key maps to the object handed back; the table gains exactly that key; no existing entry changes; a hit returns the stored object and leaves the table as it was; a miss returns the newly built object |
| Pattern.ReplayConsistent | src/hkkang_utils/pattern.py:6-14 | over any run of calls, each call hands back the object the final table holds for its key, so two calls with one key get the same object; no entry is ever replaced; the table gains exactly the keys looked up |
| Pattern.ReplayFirstWins | src/hkkang_utils/pattern.py:12-14 | the object built by the first call that misses a key is the one kept for good and the one that call hands back |
| Pattern.TupleRepr | src/hkkang_utils/pattern.py:60-61 | the text of `args` is parenthesised, and a one-element tuple keeps its trailing comma |
| Pattern.DictRepr | src/hkkang_utils/pattern.py:60-61 | the text of `kwargs` is wrapped in braces |
| Pattern.ReprArgs | src/hkkang_utils/pattern.py:59-61 | every instance key opens with `(` and closes with `}` |
| Pattern.KeySecondChar | src/hkkang_utils/pattern.py:60-61 | the second character of a key is the first character of the first positional argument's text, or `)` when there is no positional argument |
| Pattern.PositionalAndKeywordKeysDiffer | src/hkkang_utils/pattern.py:60-61 | for all arguments, a call with a positional argument and a call with none never share a key, whatever their keyword arguments, so they get two instances |
| Pattern.PositionalAndKeywordKeys | src/hkkang_utils/pattern.py:60-61 | `C(1)` and `C(x=1)` have the keys `(1,){}` and `(){'x': 1}` |
| Pattern.KeywordOrderChangesKey | src/hkkang_utils/pattern.py:60-61 | for all names and values, swapping two keyword arguments whose names start differently changes the key, so `C(a=1, b=2)` and `C(b=2, a=1)` get two instances |
| Pattern.TwoKeywordKey | src/hkkang_utils/pattern.py:60-61 | the key of a call with two keyword arguments and no positional one, character for character |
| Pattern.SingletonMeta.constructor | src/hkkang_utils/pattern.py:9 | the shared table starts empty |
| Pattern.SingletonMeta.Call | src/hkkang_utils/pattern.py:11-14 | the table and the object handed back are one get-or-create step keyed by the class; on a miss the object is new and built from the call's arguments; every entry stays an instance of the class it is stored under (the same holds for `SingletonABCMeta`, lines 22-25) |
| Pattern.SingletonMetaWithArgs.constructor | src/hkkang_utils/pattern.py:45 | the table of tables starts empty |
| Pattern.SingletonMetaWithArgs.Call | src/hkkang_utils/pattern.py:47-57 | only the sub-table of the called class changes (created empty on first use), by one get-or-create step keyed by the argument text; every stored object is an instance of its class built from arguments whose key it is stored under (the same holds for `SingletonABCMetaWithArgs`, lines 69-79) |
| Pattern.SingletonDecorator.constructor | src/hkkang_utils/pattern.py:31 | the closure starts with no instance |
| Pattern.SingletonDecorator.Wrapper | src/hkkang_utils/pattern.py:33-37 | one get-or-create step on the closure's instance, read as a one-key table: the class is called only while no instance exists; later calls hand back that instance whatever their arguments |
| Pattern.SingletonWithArgsDecorator.constructor | src/hkkang_utils/pattern.py:89 | the closure table starts empty |
| Pattern.SingletonWithArgsDecorator.Wrapper | src/hkkang_utils/pattern.py:91-96 | the closure table and the object handed back are one get-or-create step keyed by the argument text |
| Tensor.MaxLen | src/hkkang_utils/tensor.py:43 | the padded length bounds every input's length and equals the length of some input |
| Tensor.PadRow | src/hkkang_utils/tensor.py:56 | a padded row has the buffer's width, starts with the input row and holds zeros after it |
| Tensor.PaddedOneDim | src/hkkang_utils/tensor.py:43-56 | one padded row per input, each padded to the longest input's length |
| Tensor.PadMaskOneDim | src/hkkang_utils/tensor.py:51-58 | the mask has the buffer's shape and is `false` exactly where a value was copied |
| Tensor.UnpadPaddedOneDim | src/hkkang_utils/tensor.py:50-58 | cutting each padded row at the count of copied positions in its mask row gives back the inputs |
| Tensor.CountCopiedPrefix | src/hkkang_utils/tensor.py:58 | a mask row cleared on its first `len` positions counts `len` copied positions |
| Tensor.FillRow | src/hkkang_utils/tensor.py:56 | the slice assignment writes the row into the front of buffer row `idx` and changes nothing else |
| Tensor.GridPaddedOneDim | src/hkkang_utils/tensor.py:50-56 | a buffer holding the padded value in every cell is the padded batch |
| Tensor.GridPadMaskOneDim | src/hkkang_utils/tensor.py:51-58 | a buffer that is `false` exactly on copied cells is the padding mask |
| Tensor.ZeroPadBatchingOneDim | src/hkkang_utils/tensor.py:40-59 | an empty list raises; otherwise the fresh token buffer is the padded batch, and the mask, returned exactly when asked for, is the padding mask |
| Tensor.ZeroPadBatchingOneDimAsWritten | src/hkkang_utils/tensor.py:51-58 | as written, every non-empty batch raises when a mask is asked for; without a mask the buffer is the padded batch |
| Tensor.FirstEmpty | src/hkkang_utils/tensor.py:67 | the index of the first matrix without rows, whose `tensor[0]` raises; every earlier matrix has rows |
| Tensor.BlocksFit | src/hkkang_utils/tensor.py:66-78 | every input matrix fits in the buffer's (max rows, max first-row length) block, so every value is copied |
| Tensor.FillBlock | src/hkkang_utils/tensor.py:78 | the slice assignment writes the block into the top-left corner of slot `idx` and changes nothing else |
| Tensor.CopyBlock | src/hkkang_utils/tensor.py:78 | one loop step: the first `idx + 1` inputs have been copied into their blocks, and zeros remain elsewhere |
| Tensor.ClearBlock | src/hkkang_utils/tensor.py:80 | one loop step: the mask is `false` exactly on the blocks of the first `idx + 1` inputs |
| Tensor.NewTokens | src/hkkang_utils/tensor.py:68-74 | the fresh token buffer has shape (n, max rows, max first-row length) and is all zeros |
| Tensor.NewMask | src/hkkang_utils/tensor.py:75-76 | the fresh mask has the token buffer's shape and is all `true` |
| Tensor.ZeroPadBatchingTwoDim | src/hkkang_utils/tensor.py:62-81 | an empty list raises, and so does the first matrix without rows; otherwise the fresh buffer holds each input in its top-left block with zeros elsewhere, and the mask, returned exactly when asked for, is `false` exactly on those blocks |
| Tensor.ZeroPadBatchingTwoDimAsWritten | src/hkkang_utils/tensor.py:75-76 | as written, asking for the mask raises for every accepted batch; without a mask the buffer is the padded batch |
| Tensor.TensorIn.Rank | src/hkkang_utils/tensor.py:86-88 | a well-formed tensor has rank 1 exactly when it is a vector and rank 2 exactly when it is a matrix |
| Tensor.FirstOtherRank | src/hkkang_utils/tensor.py:55-80 | the first input whose rank differs from the first input's, on which the padding loops raise; all earlier ones share that rank |
| Tensor.Matrices | src/hkkang_utils/tensor.py:89 | the matrices handed to the two-dim path are the inputs, each rectangular |
| Tensor.ZeroPadBatching | src/hkkang_utils/tensor.py:84-93 | the dispatcher with the corrected padding functions (the code as written is `Tensor.ZeroPadBatchingAsWritten`): an empty list raises, and so does a first rank other than 1 or 2 (`NotImplementedError`) or a later input of another rank; rank 1 gives the padded batch with its padding mask; rank 2 gives the padded block batch with its mask, or the empty-matrix error |
| Tensor.ZeroPadBatchingAsWritten | src/hkkang_utils/tensor.py:84-93 | as written, every call raises: an empty list, a first rank other than 1 or 2, or a later input of another rank as in the corrected dispatcher; an all-rank-1 batch at the first mask write; an all-rank-2 batch on its first matrix without rows, or else at the mask's allocation |
| Tensor.BroadcastBatch | src/hkkang_utils/tensor.py:37 | the product's batch size exists exactly when the sizes are equal or one of them is 1, and then it is the size that is not 1 |
| Tensor.AttMask | src/hkkang_utils/tensor.py:19-37 | the result has shape (batch, tgt_len, src_len), and entry (b, i, j) is the target mask at (b, i) times the source mask at (b, j), reading row 0 of a batch of one; batch sizes that do not broadcast raise |
| Tensor.ValidMask | src/hkkang_utils/tensor.py:51-58 | the 0/1 mask of real positions has the buffer's shape and is 1 exactly where a value was copied |
| Tensor.AttMaskOfPaddedBatches | src/hkkang_utils/tensor.py:19-37 | for two padded batches of one size, attention entry (b, i, j) is 1 exactly when target position i and source position j of item b both hold real values |
| Concurrent.ShortenString | src/hkkang_utils/concurrent.py:9-13 | text of at most 10 characters is returned unchanged; longer text becomes its first 10 characters followed by `...`; the result never exceeds 13 characters |
| Concurrent.ShortenStringIdempotent | src/hkkang_utils/concurrent.py:9-13 | shortening a shortened text changes nothing |
| Concurrent.ParseArgs | src/hkkang_utils/concurrent.py:63-71 | the result is always a tuple: `None` gives the empty tuple, a tuple itself, a list its items, and any other value a one-element tuple |
| Concurrent.ParseArgsIdempotent | src/hkkang_utils/concurrent.py:63-71 | parsing a parsed argument tuple gives it back |
| Concurrent.ParseKwargs | src/hkkang_utils/concurrent.py:73-79 | succeeds exactly for `None` (giving `{}`) and for a dict (kept as it is); anything else raises `ValueError` |
| Concurrent.CheckIfValidFunction | src/hkkang_utils/concurrent.py:128-139 | `True` exactly for a callable whose name is not `<lambda>`; raises `AttributeError` exactly for a callable without `__name__`; `False` otherwise |
| Concurrent.ThreadCounter.constructor | src/hkkang_utils/concurrent.py:39 | the class-wide count starts at 0 |
| Concurrent.Thread.Create | src/hkkang_utils/concurrent.py:41-49 | the count goes up by one even when construction then raises `IndexError` for want of a function; a new thread's id is the new count, which no earlier thread has; the first argument is the function, the rest its arguments, and `result` starts as `None` |
| Concurrent.Thread.Run | src/hkkang_utils/concurrent.py:51-61 | a function without `__name__` raises before it is called; a return value becomes `result`; an exception ends the thread and leaves `result` unchanged |
| Concurrent.AccessExecutor | src/hkkang_utils/concurrent.py:112-114 | the first access with at least one worker builds a running pool; with fewer it raises `ValueError` and caches nothing; later accesses return the cached pool, even after shutdown |
| Concurrent.Submit | src/hkkang_utils/concurrent.py:141-155 | `results` is never touched; the call completes exactly when the first argument is a callable with a `__name__` and the executor can be built and is not shut down, and it then appends exactly one future (function, remaining arguments, keyword arguments) and leaves the executor running; a call that raises adds no future; a `TypeError` for a non-callable comes after the executor has been built, and changes nothing else; any other error leaves the whole state, executor included, unchanged; with no arguments it raises `AssertionError` and changes nothing |
| Concurrent.LambdaIsStillSubmitted | src/hkkang_utils/concurrent.py:133-155 | a lambda is judged invalid and is still submitted |
| Concurrent.NonCallableIsNeverSubmitted | src/hkkang_utils/concurrent.py:151-155 | a value that is not callable never becomes a future |
| Concurrent.SubmitAllKeepsResults | src/hkkang_utils/concurrent.py:141-155 | over any run of `run` calls, `results` is unchanged, earlier futures stay first, and at most one future is added per call |
| Concurrent.ResultsEmptyBeforeJoin | src/hkkang_utils/concurrent.py:108-110 | however many `run` calls a new processor has taken, its `results` are empty until `join()` |
| Concurrent.SubmitAllInOrder | src/hkkang_utils/concurrent.py:153-155 | when every call names a callable and the pool can run, the futures are the calls' tasks in call order |
| Concurrent.Collect | src/hkkang_utils/concurrent.py:158-162 | collection succeeds exactly when every future returns, giving their values in submission order; otherwise it raises the exception of the first future, in submission order, that raised |
| Concurrent.CollectSnoc | src/hkkang_utils/concurrent.py:159 | collecting one more future appends its value, or raises its exception |
| Concurrent.CollectPrefixFailure | src/hkkang_utils/concurrent.py:159 | once a prefix of the futures raises, collecting all of them raises the same |
| Concurrent.JoinSpec | src/hkkang_utils/concurrent.py:157-164 | the futures are kept; a raising future leaves the whole state unchanged; with `store_results` the results become the futures' values in submission order, and without it they are kept; a completed join leaves the executor shut down; a join that raises, including `ValueError` while building the pool, leaves the executor as it was |
| Concurrent.JoinTwice | src/hkkang_utils/concurrent.py:157-164 | joining again after a completed join changes nothing |
| Concurrent.ExitSpec | src/hkkang_utils/concurrent.py:119-126 | exit is a join; when the join completes, the result is `True` exactly when no exception is in flight; a join error propagates instead |
| Concurrent.ExitNeverSuppresses | src/hkkang_utils/concurrent.py:123-125 | an exception raised in the `with` body is never suppressed |
| Concurrent.SquaresExample | src/hkkang_utils/concurrent.py:141-164 | two workers, three `run(square, i)` calls for i = 1, 2, 3, then `join()`: the results are 1, 4, 9, and the executor is shut down |
| Concurrent.SquareSubmissions | src/hkkang_utils/concurrent.py:141-155 | the three calls of the example become three futures in call order |
| Concurrent.SquareResults | src/hkkang_utils/concurrent.py:158-159 | the example's futures give 1, 4, 9 in submission order |
| Concurrent.BodyErrorWithoutSubmissions | src/hkkang_utils/concurrent.py:119-126 | a `with` block that raises before submitting anything builds and shuts down the executor, and `__exit__` returns `False` |
| Concurrent.MultiProcessor.constructor | src/hkkang_utils/concurrent.py:101-106 | no futures, no results, executor not yet built |
| Concurrent.MultiProcessor.Run | src/hkkang_utils/concurrent.py:141-155 | the new state and outcome are those of `Submit` |
| Concurrent.MultiProcessor.Join | src/hkkang_utils/concurrent.py:157-164 | the loop over the futures leaves the state and outcome of `JoinSpec` |
| Concurrent.MultiProcessor.Exit | src/hkkang_utils/concurrent.py:119-126 | the new state and result are those of `ExitSpec` |
| Data.Put | src/hkkang_utils/data.py:16 | `dict[key] = value`: an existing key keeps its place and takes the new value; a new key goes last |
| Data.CustomDictFactory | src/hkkang_utils/data.py:8-17 | the insertion loop with `continue` builds exactly the dict `DictFactory` defines |
| Data.DictFactoryOfDistinctKeys | src/hkkang_utils/data.py:9-17 | for pairs with distinct keys, the factory keeps every pair in order, or every non-`None` pair in order with `skip_none` |
| Data.DictFactoryKeysFromItems | src/hkkang_utils/data.py:9-17 | every key of the built dict is the key of some pair |
| Data.Convert | src/hkkang_utils/data.py:11-19 | a value converts to `None` exactly when it is `None`; a nested dataclass instance becomes the dict of its own fields built with the same flag; a plain value is copied unchanged |
| Data.ConvertFields | src/hkkang_utils/data.py:19 | the factory receives one (name, converted value) pair per field, in field order |
| Data.AsDict | src/hkkang_utils/data.py:7-19 | succeeds exactly on a dataclass instance, giving the factory's dict of its converted fields |
| Data.KeepNonNoneOfConverted | src/hkkang_utils/data.py:14-16 | dropping the `None` pairs after converting equals dropping the `None` fields before converting |
| Data.AsDictKeepsEveryField | src/hkkang_utils/data.py:8-17 | without `skip_none`, every field appears under its own name in field order with its converted value: the keys are exactly the field names |
| Data.AsDictSkipsNoneFields | src/hkkang_utils/data.py:14-16 | with `skip_none`, the result is exactly the non-`None` fields, converted, in their relative order |
| Data.AsDictKeysAreFieldNames | src/hkkang_utils/data.py:9-17 | with or without `skip_none`, every key is a field name |
| Data.AsDictKeysDistinct | src/hkkang_utils/data.py:9-17 | no two entries of the result share a key |
| Data.AsDictDropsNoneField | src/hkkang_utils/data.py:14-15 | with `skip_none`, a `None` field leaves no key behind |
| Data.AsDictFieldEntry | src/hkkang_utils/data.py:11-16 | a field that is not dropped is stored under its name with its converted value: a nested instance as the dict of its own fields built with the same flag, and a plain value unchanged |
| Data.NonNoneFieldsDistinct | src/hkkang_utils/data.py:14-16 | dropping `None` fields keeps the remaining names distinct |

## Left out

- Threads, worker processes, pickling, logging and `traceback.print_exception` are left out. What a submitted or threaded function does is the parameter `eval`, and a future is the outcome `eval` gives. A function that cannot be sent to a worker process, such as a lambda, therefore raises when its future is collected, through `eval`.
- Concurrent.Thread.Create: the id counter is modelled for threads constructed one after another. In the source, `Thread.cnt += 1` and `self.threadID = Thread.cnt` (concurrent.py:43-44) are separate, unlocked steps, so two threads constructed at the same time can get the same id. The model does not capture that.
- `Thread.start`, `join` and `is_alive` are left out. The `result` property is modelled as reading the `result` field after `Run`.
- `Thread._parse_args` and `Thread._parse_kwargs` are never called inside the class. They are modelled as standalone functions.
- `MultiProcessor(num_workers=None)` and platform limits on the number of workers are left out. The worker count is an integer.
- `Concurrent.ShortenString` omits the `isinstance(text, str)` assertion, because its argument is a string by type.
- Python `str()` and `repr()` of arbitrary argument values are left out. Each argument is given by the text Python renders for it, and keys are quoted as `'key'` with no escaping (`Pattern.ReprArgs`).
- What a class's initialiser does beyond recording its arguments is left out.
- Identity of the ABC metaclass variants: they are the same code as the plain metaclasses with a separate table. Each is modelled by the same class, instantiated separately.
- The one-dim padding of inputs with trailing feature dimensions (rank 2 or more) is left out. The model takes rank-1 inputs, where the mask write fails (see Findings). Tensor dtype and device are left out too; token values are integers.
- PyTorch's setitem drops leading size-1 dimensions of the value. That could let some mixed-rank batches through, but the model treats every rank mismatch as an error (`Tensor.ZeroPadBatching`).
- Tensor.ZeroPadBatchingTwoDimAsWritten: a token buffer of exactly one element may be read by `torch.ones` as a size. In that case the raise comes at line 80 instead of line 76. The model reports `MaskSizeIsTensor` for both.
- Which exception a batch with several faults raises first is left out. The model reports a rank mismatch before an empty matrix. The source may fail earlier, on `len(tensor[0])` at line 67, with an `IndexError` or a `TypeError`.
- On an empty list, the one-dim path raises `ValueError` from `max([])` and the two-dim path raises `IndexError` from `tensor_list[0]`. Both are modelled as one `EmptyBatch` error.
- `Tensor.AttMask`: only masks of rank 2 are modelled, with 0/1 integer values. A boolean product is the same table.
- A dataclass *class* (not an instance) stored as a field value is left out. Its `dataclasses.is_dataclass` test makes the factory call `asdict` on it, which raises `TypeError` (data.py:11-12).
- The data model merges tuples with lists (`dataclasses.asdict` rebuilds each with its own type). Dict keys are strings.
- `from_dict`, the file helpers and the other `tensor.py` helpers (environment report, seeding, compile check) are not part of this model.

## Findings

| source | as written | input that shows it | evidently intended | confidence | as-written member | corrected member |
|---|---|---|---|---|---|---|
| src/hkkang_utils/tensor.py:51-58 | for rank-1 inputs the buffer has shape (n, max_len), but the mask is allocated with `token_tensor.shape[:-1]`, which is the rank-1 shape (n,); the write `mask_tensor[idx, :len(tensor)]` then indexes two dimensions of a rank-1 tensor | `zero_pad_batching_one_dim([torch.tensor([1])])`, whose `return_mask` defaults to `True`, raises `IndexError` (too many indices) | a mask of shape (n, max_len), `false` on copied positions, as the slice write expects | high, not executed | Tensor.ZeroPadBatchingOneDimAsWritten | Tensor.ZeroPadBatchingOneDim |
| src/hkkang_utils/tensor.py:75-76 | `torch.ones(token_tensor, ...)` is given the token tensor where a size belongs | `zero_pad_batching_two_dim([torch.tensor([[1, 2]])])`, whose `return_mask` defaults to `True`, raises `TypeError` | `torch.ones(token_tensor.shape, ...)`: a mask of the buffer's shape, `false` on each input's block | high, not executed | Tensor.ZeroPadBatchingTwoDimAsWritten | Tensor.ZeroPadBatchingTwoDim |
