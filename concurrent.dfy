/** The sequential bookkeeping of `concurrent.py`: the argument helpers, the
    class-wide id counter of `Thread`, a thread's stored result, and the
    submission list, result collection and scope exit of `MultiProcessor`.
    Threads and worker processes are not modelled: what a submitted function
    does is the parameter `eval`, and a future is the outcome `eval` gives. */
module Concurrent {
  import opened Wrappers

  /** The Python values that pass through the helpers. A callable carries
      its `__name__` when it has one and a number that stands for its code. */
  datatype Value =
    | NoneValue
    | Int(i: int)
    | Str(s: string)
    | Tuple(items: seq<Value>)
    | List(items: seq<Value>)
    | Dict(entries: seq<(Value, Value)>)
    | Callable(name: Option<string>, code: nat)

  /** The exceptions raised by the helpers, or by a task's own function. */
  datatype Exc =
    | AssertionError
    | IndexError
    | ValueError
    | TypeError
    | AttributeError
    | RuntimeError
    | TaskError(what: string)

  // ---------------------------------------------------------------------------
  // Pure helpers
  // ---------------------------------------------------------------------------

  /** `_shorten_string`: text of at most 10 characters unchanged, longer text
      cut to its first 10 characters followed by "...". */
  function ShortenString(text: string): (r: string)
    ensures |r| <= 13
    ensures |text| <= 10 ==> r == text
    ensures |text| > 10 ==> |r| == 13 && r[..10] == text[..10] && r[10..] == "..."
  {
    if |text| > 10 then text[..10] + "..." else text
  }

  /** Shortening a shortened text changes nothing more: the 13 characters of
      a cut text are cut again to the same 10 followed by the same "...". */
  lemma ShortenStringIdempotent(text: string)
    ensures ShortenString(ShortenString(text)) == ShortenString(text)
  {
    if |text| > 10 {
      var r := ShortenString(text);
      assert r[..10] + "..." == r;
    }
  }

  /** `Thread._parse_args`: the positional arguments a value stands for, as a tuple. */
  function ParseArgs(args: Value): (r: Value)
    ensures r.Tuple?
    ensures args.NoneValue? ==> r.items == []
    ensures args.Tuple? ==> r == args
    ensures args.List? ==> r.items == args.items
    ensures !(args.NoneValue? || args.Tuple? || args.List?) ==> r.items == [args]
  {
    match args
    case NoneValue => Tuple([])
    case Tuple(_) => args
    case List(items) => Tuple(items)
    case _ => Tuple([args])
  }

  /** A parsed argument tuple parses to itself. */
  lemma ParseArgsIdempotent(args: Value)
    ensures ParseArgs(ParseArgs(args)) == ParseArgs(args)
  {
  }

  /** `Thread._parse_kwargs`: `None` is the empty dict, a dict is kept, any
      other value raises `ValueError`. */
  function ParseKwargs(kwargs: Value): (r: Result<Value, Exc>)
    ensures r.Success? <==> kwargs.NoneValue? || kwargs.Dict?
    ensures r.Success? ==> r.value.Dict?
    ensures kwargs.Dict? ==> r == Success(kwargs)
    ensures kwargs.NoneValue? ==> r == Success(Dict([]))
    ensures r.Failure? ==> r.error == ValueError
  {
    match kwargs
    case NoneValue => Success(Dict([]))
    case Dict(_) => Success(kwargs)
    case _ => Failure(ValueError)
  }

  /** `MultiProcessor._check_if_valid_function`: `true` for a callable whose
      name is not "<lambda>", `false` (after logging) for a non-callable or a
      lambda. Reading `__name__` of a callable that has none raises. */
  function CheckIfValidFunction(func: Value): (r: Result<bool, Exc>)
    ensures r == Success(true) <==> func.Callable? && func.name.Some? && func.name.value != "<lambda>"
    ensures r.Failure? <==> func.Callable? && func.name.None?
    ensures r.Failure? ==> r.error == AttributeError
  {
    if !func.Callable? then Success(false)
    else if func.name.None? then Failure(AttributeError)
    else Success(func.name.value != "<lambda>")
  }

  // ---------------------------------------------------------------------------
  // Tasks and their outcomes
  // ---------------------------------------------------------------------------

  /** A function with the arguments it is to be called with. */
  datatype Task = Task(func: Value, args: seq<Value>, kwargs: seq<(string, Value)>)

  /** What calling a task's function gives: a return value or an exception. */
  datatype TaskOutcome = Returned(value: Value) | Raised(error: Exc)

  /** The value has a `__name__` attribute. */
  predicate HasName(func: Value)
  {
    func.Callable? && func.name.Some?
  }

  // ---------------------------------------------------------------------------
  // Thread
  // ---------------------------------------------------------------------------

  /** The class attribute `Thread.cnt`, shared by every thread, with the ids
      of the threads built so far. */
  class ThreadCounter {
    var cnt: nat
    ghost var issued: set<nat>

    ghost predicate Valid()
      reads this
    {
      forall id :: id in issued ==> 1 <= id <= cnt
    }

    constructor ()
      ensures Valid() && cnt == 0 && issued == {}
    {
      cnt := 0;
      issued := {};
    }
  }

  class Thread {
    const threadID: nat
    const func: Value
    const args: seq<Value>
    const kwargs: seq<(string, Value)>
    /** `_result`, which the `result` property returns once the thread is done. */
    var result: Value

    constructor Init(threadID: nat, func: Value, args: seq<Value>, kwargs: seq<(string, Value)>)
      ensures this.threadID == threadID && this.func == func
      ensures this.args == args && this.kwargs == kwargs && result == NoneValue
    {
      this.threadID := threadID;
      this.func := func;
      this.args := args;
      this.kwargs := kwargs;
      result := NoneValue;
    }

    /** `Thread(*args, **kwargs)`: the counter goes up first, even when there
      is no first argument to take as the function and construction raises;
      otherwise the new thread's id is the new count, which no earlier thread has. */
    static method Create(counter: ThreadCounter, args: seq<Value>, kwargs: seq<(string, Value)>)
      returns (r: Result<Thread, Exc>)
      requires counter.Valid()
      modifies counter
      ensures counter.Valid()
      ensures counter.cnt == old(counter.cnt) + 1
      ensures args == [] ==> r == Failure(IndexError) && counter.issued == old(counter.issued)
      ensures args != [] ==>
                && r.Success? && fresh(r.value)
                && r.value.threadID == counter.cnt
                && r.value.threadID !in old(counter.issued)
                && counter.issued == old(counter.issued) + {r.value.threadID}
                && r.value.func == args[0] && r.value.args == args[1..]
                && r.value.kwargs == kwargs && r.value.result == NoneValue
    {
      counter.cnt := counter.cnt + 1;
      if |args| == 0 {
        return Failure(IndexError);
      }
      var t := new Thread.Init(counter.cnt, args[0], args[1..], kwargs);
      counter.issued := counter.issued + {t.threadID};
      r := Success(t);
    }

    /** `run`, the body the started thread executes. The log line reads the
      function's `__name__` first; then the function's return value is stored.
      An exception ends the thread (and is reported by the threading module,
      never handed to whoever reads `result`), leaving `result` as it was. */
    method Run(eval: Task -> TaskOutcome) returns (uncaught: Option<Exc>)
      modifies this
      ensures !HasName(func) ==> uncaught == Some(AttributeError) && result == old(result)
      ensures HasName(func) ==>
                match eval(Task(func, args, kwargs))
                case Returned(v) => result == v && uncaught == None
                case Raised(e) => result == old(result) && uncaught == Some(e)
    {
      if !HasName(func) {
        return Some(AttributeError);
      }
      match eval(Task(func, args, kwargs))
      case Returned(v) =>
        result := v;
        uncaught := None;
      case Raised(e) =>
        uncaught := Some(e);
    }
  }

  // ---------------------------------------------------------------------------
  // MultiProcessor, on values
  // ---------------------------------------------------------------------------

  /** The `executor` cached property: not yet built, running, or shut down. */
  datatype ExecutorState = NotCreated | Running | ShutDown

  /** The fields of a `MultiProcessor` that its methods change. */
  datatype PoolState = PoolState(futures: seq<Task>, results: seq<Value>, executor: ExecutorState)

  /** A freshly constructed pool. */
  const InitialPool := PoolState([], [], NotCreated)

  /** Reading `self.executor`: the first read builds the process pool, which
      raises `ValueError` for fewer than one worker (and then nothing is
      cached); later reads return the cached pool, even after its shutdown. */
  function AccessExecutor(e: ExecutorState, numWorkers: int): (r: Result<ExecutorState, Exc>)
    ensures r.Success? <==> e != NotCreated || numWorkers > 0
    ensures r.Success? ==> r.value != NotCreated && (e != NotCreated ==> r.value == e)
    ensures r.Failure? ==> r.error == ValueError
    ensures e == NotCreated && numWorkers > 0 ==> r == Success(Running)
  {
    if e != NotCreated then Success(e)
    else if numWorkers > 0 then Success(Running)
    else Failure(ValueError)
  }

  /** `MultiProcessor.run(*args, **kwargs)`: the first positional argument is
      the function. The validity check may log, but its verdict is not used;
      the executor is read before `functools.partial` rejects a non-callable,
      and a shut-down executor refuses new work. Exactly one future is added
      when the call completes, and none when it raises. */
  function Submit(s: PoolState, numWorkers: int, args: seq<Value>, kwargs: seq<(string, Value)>)
    : (r: (PoolState, Outcome<Exc>))
    ensures r.0.results == s.results
    ensures r.1 == Pass <==>
              |args| > 0 && HasName(args[0])
              && (s.executor != NotCreated || numWorkers > 0) && s.executor != ShutDown
    ensures r.1 == Pass ==>
              r.0.futures == s.futures + [Task(args[0], args[1..], kwargs)] && r.0.executor == Running
    ensures r.1.Fail? ==> r.0.futures == s.futures
    ensures r.1 == Fail(TypeError) ==> r.0.executor != NotCreated
    ensures r.1 == Fail(TypeError) ==>
              r.0 == s.(executor := if s.executor == NotCreated then Running else s.executor)
    ensures r.1.Fail? && r.1 != Fail(TypeError) ==> r.0 == s
    ensures |args| == 0 ==> r == (s, Fail(AssertionError))
  {
    if |args| == 0 then (s, Fail(AssertionError))
    else
      var func := args[0];
      match CheckIfValidFunction(func)
      case Failure(e) => (s, Fail(e))
      case Success(_) =>
        match AccessExecutor(s.executor, numWorkers)
        case Failure(e) => (s, Fail(e))
        case Success(ex) =>
          var s1 := s.(executor := ex);
          if !func.Callable? then (s1, Fail(TypeError))
          else if ex == ShutDown then (s1, Fail(RuntimeError))
          else (s1.(futures := s.futures + [Task(func, args[1..], kwargs)]), Pass)
  }

  /** The check's verdict is ignored: a lambda is logged as invalid and
      submitted all the same. */
  lemma LambdaIsStillSubmitted(s: PoolState, numWorkers: int, code: nat, rest: seq<Value>, kwargs: seq<(string, Value)>)
    requires s.executor == Running
    ensures var f := Callable(Some("<lambda>"), code);
            CheckIfValidFunction(f) == Success(false)
            && Submit(s, numWorkers, [f] + rest, kwargs).1 == Pass
            && Submit(s, numWorkers, [f] + rest, kwargs).0.futures == s.futures + [Task(f, rest, kwargs)]
  {
    assert ([Callable(Some("<lambda>"), code)] + rest)[1..] == rest;
  }

  /** A value that is not callable never becomes a future: the partial
      application rejects it. */
  lemma NonCallableIsNeverSubmitted(s: PoolState, numWorkers: int, func: Value, rest: seq<Value>, kwargs: seq<(string, Value)>)
    requires !func.Callable?
    ensures Submit(s, numWorkers, [func] + rest, kwargs).1.Fail?
    ensures Submit(s, numWorkers, [func] + rest, kwargs).0.futures == s.futures
  {
  }

  /** A run of `run` calls, in order; each call is its positional and keyword arguments. */
  function SubmitAll(s: PoolState, numWorkers: int, calls: seq<(seq<Value>, seq<(string, Value)>)>): PoolState
    decreases |calls|
  {
    if |calls| == 0 then s
    else SubmitAll(Submit(s, numWorkers, calls[0].0, calls[0].1).0, numWorkers, calls[1..])
  }

  /** The tasks a run of calls stands for. */
  function TasksOf(calls: seq<(seq<Value>, seq<(string, Value)>)>): (ts: seq<Task>)
    requires forall i :: 0 <= i < |calls| ==> |calls[i].0| > 0
    ensures |ts| == |calls|
  {
    if |calls| == 0 then []
    else [Task(calls[0].0[0], calls[0].0[1..], calls[0].1)] + TasksOf(calls[1..])
  }

  /** `run` never touches `results`, and only ever appends: after any run of
      calls the results are those before it, the earlier futures are still
      the first ones, and at most one future was added per call. */
  lemma {:induction false} SubmitAllKeepsResults(s: PoolState, numWorkers: int, calls: seq<(seq<Value>, seq<(string, Value)>)>)
    ensures SubmitAll(s, numWorkers, calls).results == s.results
    ensures |s.futures| <= |SubmitAll(s, numWorkers, calls).futures| <= |s.futures| + |calls|
    ensures SubmitAll(s, numWorkers, calls).futures[..|s.futures|] == s.futures
    decreases |calls|
  {
    if |calls| > 0 {
      var s1 := Submit(s, numWorkers, calls[0].0, calls[0].1).0;
      SubmitAllKeepsResults(s1, numWorkers, calls[1..]);
      var f := SubmitAll(s, numWorkers, calls).futures;
      assert f[..|s1.futures|][..|s.futures|] == f[..|s.futures|];
    }
  }

  /** The `results` property reads `_results` without joining: before any
      `join()`, however many calls `run` has taken, the results are empty. */
  lemma ResultsEmptyBeforeJoin(numWorkers: int, calls: seq<(seq<Value>, seq<(string, Value)>)>)
    ensures SubmitAll(InitialPool, numWorkers, calls).results == []
  {
    SubmitAllKeepsResults(InitialPool, numWorkers, calls);
  }

  /** When every call names a named callable and the pool can run, the
      futures are the calls' tasks in submission order, one per call. */
  lemma {:induction false} SubmitAllInOrder(s: PoolState, numWorkers: int, calls: seq<(seq<Value>, seq<(string, Value)>)>)
    requires forall i :: 0 <= i < |calls| ==> |calls[i].0| > 0 && HasName(calls[i].0[0])
    requires s.executor == Running || (s.executor == NotCreated && numWorkers > 0)
    ensures SubmitAll(s, numWorkers, calls).futures == s.futures + TasksOf(calls)
    decreases |calls|
  {
    if |calls| > 0 {
      var s1 := Submit(s, numWorkers, calls[0].0, calls[0].1).0;
      SubmitAllInOrder(s1, numWorkers, calls[1..]);
      assert s1.futures + TasksOf(calls[1..]) == s.futures + TasksOf(calls);
    }
  }

  /** The futures' results in submission order (`future.result()` for each in
      turn): the first exception, in submission order, is raised. */
  function Collect(futures: seq<Task>, eval: Task -> TaskOutcome): (r: Result<seq<Value>, Exc>)
    ensures r.Success? <==> forall i :: 0 <= i < |futures| ==> eval(futures[i]).Returned?
    ensures r.Success? ==> |r.value| == |futures|
    ensures r.Success? ==> forall i :: 0 <= i < |futures| ==> eval(futures[i]) == Returned(r.value[i])
    ensures r.Failure? ==> exists i :: 0 <= i < |futures| && eval(futures[i]) == Raised(r.error)
                                       && forall j :: 0 <= j < i ==> eval(futures[j]).Returned?
    decreases |futures|
  {
    if |futures| == 0 then Success([])
    else
      match eval(futures[0])
      case Raised(e) => Failure(e)
      case Returned(v) =>
        match Collect(futures[1..], eval)
        case Failure(e) =>
          assert forall j :: 1 <= j < |futures| ==> futures[j] == futures[1..][j - 1];
          Failure(e)
        case Success(vs) =>
          assert forall j :: 1 <= j < |futures| ==> futures[j] == futures[1..][j - 1];
          Success([v] + vs)
  }

  /** Collecting one more future: the new value goes last, or its exception
      is raised when everything before it returned. */
  lemma {:induction false} CollectSnoc(futures: seq<Task>, f: Task, eval: Task -> TaskOutcome)
    requires Collect(futures, eval).Success?
    ensures Collect(futures + [f], eval) ==
              match eval(f)
              case Returned(v) => Success(Collect(futures, eval).value + [v])
              case Raised(e) => Failure(e)
    decreases |futures|
  {
    if |futures| == 0 {
      assert futures + [f] == [f] && [f][1..] == [];
      match eval(f)
      case Returned(w) =>
        assert [w] + [] == [] + [w];
      case Raised(e) =>
    } else {
      var v := eval(futures[0]).value;
      var rest := Collect(futures[1..], eval).value;
      assert Collect(futures, eval).value == [v] + rest;
      assert (futures + [f])[0] == futures[0];
      assert (futures + [f])[1..] == futures[1..] + [f];
      CollectSnoc(futures[1..], f, eval);
      match eval(f)
      case Returned(w) =>
        assert Collect(futures + [f], eval) == Success([v] + (rest + [w]));
        assert [v] + (rest + [w]) == ([v] + rest) + [w];
      case Raised(e) =>
    }
  }

  /** `MultiProcessor.join()`: wait for every future in submission order,
      keeping the values when results are stored, then shut the executor
      down (reading it first, which builds it when nothing was submitted). */
  function JoinSpec(s: PoolState, numWorkers: int, storeResults: bool, eval: Task -> TaskOutcome)
    : (r: (PoolState, Outcome<Exc>))
    ensures r.0.futures == s.futures
    ensures Collect(s.futures, eval).Failure? ==> r == (s, Fail(Collect(s.futures, eval).error))
    ensures !storeResults ==> r.0.results == s.results
    ensures storeResults && Collect(s.futures, eval).Success? ==>
              |r.0.results| == |s.futures|
              && forall i :: 0 <= i < |s.futures| ==> eval(s.futures[i]) == Returned(r.0.results[i])
    ensures r.1 == Pass <==> Collect(s.futures, eval).Success? && (s.executor != NotCreated || numWorkers > 0)
    ensures r.1 == Pass ==> r.0.executor == ShutDown
    ensures r.1.Fail? ==> r.0.executor == s.executor
  {
    match Collect(s.futures, eval)
    case Failure(e) => (s, Fail(e))
    case Success(vals) =>
      var s1 := if storeResults then s.(results := vals) else s;
      match AccessExecutor(s1.executor, numWorkers)
      case Failure(e) => (s1, Fail(e))
      case Success(_) => (s1.(executor := ShutDown), Pass)
  }

  /** Joining again after a join that completed changes nothing: the same
      futures give the same values, and shutting down twice is harmless. */
  lemma JoinTwice(s: PoolState, numWorkers: int, storeResults: bool, eval: Task -> TaskOutcome)
    requires JoinSpec(s, numWorkers, storeResults, eval).1 == Pass
    ensures var s1 := JoinSpec(s, numWorkers, storeResults, eval).0;
            JoinSpec(s1, numWorkers, storeResults, eval) == (s1, Pass)
  {
  }

  /** `MultiProcessor.__exit__(exc_type, ...)`: always joins; when the join
      completes, returns `False` if an exception is in flight (so Python
      re-raises it) and `True` otherwise. An exception from the join itself
      propagates instead. */
  function ExitSpec(s: PoolState, numWorkers: int, storeResults: bool, excInFlight: bool, eval: Task -> TaskOutcome)
    : (r: (PoolState, Result<bool, Exc>))
    ensures r.0 == JoinSpec(s, numWorkers, storeResults, eval).0
    ensures r.1.Success? <==> JoinSpec(s, numWorkers, storeResults, eval).1 == Pass
    ensures r.1.Failure? ==> r.1.error == JoinSpec(s, numWorkers, storeResults, eval).1.error
    ensures r.1.Success? ==> (r.1.value <==> !excInFlight)
  {
    var (s1, joined) := JoinSpec(s, numWorkers, storeResults, eval);
    match joined
    case Fail(e) => (s1, Failure(e))
    case Pass => (s1, Success(!excInFlight))
  }

  /** An exception raised in the body of a `with MultiProcessor(...)` block is
      never suppressed: `__exit__` either returns `False` for it or raises an
      exception of the join in its place. */
  lemma ExitNeverSuppresses(s: PoolState, numWorkers: int, storeResults: bool, eval: Task -> TaskOutcome)
    ensures ExitSpec(s, numWorkers, storeResults, true, eval).1 != Success(true)
  {
  }

  /** The squaring function of the worked example. */
  const Square := Callable(Some("square"), 0)

  /** A worker that squares an integer argument of `square`. */
  function SquareWorker(t: Task): TaskOutcome
  {
    if t.func == Square && |t.args| == 1 && t.args[0].Int?
    then Returned(Int(t.args[0].i * t.args[0].i))
    else Raised(TaskError("unexpected task"))
  }

  /** The calls `run(square, 1)`, `run(square, 2)`, `run(square, 3)`. */
  const SquareCalls: seq<(seq<Value>, seq<(string, Value)>)> :=
    [([Square, Int(1)], []), ([Square, Int(2)], []), ([Square, Int(3)], [])]

  /** The three calls become three futures, in call order. */
  lemma SquareSubmissions()
    ensures SubmitAll(InitialPool, 2, SquareCalls).futures
            == [Task(Square, [Int(1)], []), Task(Square, [Int(2)], []), Task(Square, [Int(3)], [])]
  {
    var calls := SquareCalls;
    SubmitAllInOrder(InitialPool, 2, calls);
    assert [Square, Int(1)][1..] == [Int(1)] && [Square, Int(2)][1..] == [Int(2)] && [Square, Int(3)][1..] == [Int(3)];
    var t1, t2, t3 := Task(Square, [Int(1)], []), Task(Square, [Int(2)], []), Task(Square, [Int(3)], []);
    assert TasksOf(calls[2..][1..]) == [];
    assert TasksOf(calls[2..]) == [t3];
    assert calls[1..][1..] == calls[2..];
    assert TasksOf(calls[1..]) == [t2, t3];
    assert TasksOf(calls) == [t1, t2, t3];
    assert InitialPool.futures + [t1, t2, t3] == [t1, t2, t3];
  }

  /** The three futures give 1, 4 and 9, in that order. */
  lemma SquareResults()
    ensures Collect([Task(Square, [Int(1)], []), Task(Square, [Int(2)], []), Task(Square, [Int(3)], [])], SquareWorker)
            == Success([Int(1), Int(4), Int(9)])
  {
    var t1, t2, t3 := Task(Square, [Int(1)], []), Task(Square, [Int(2)], []), Task(Square, [Int(3)], []);
    assert SquareWorker(t1) == Returned(Int(1));
    assert SquareWorker(t2) == Returned(Int(4));
    assert SquareWorker(t3) == Returned(Int(9));
    assert Collect([], SquareWorker) == Success([]);
    CollectSnoc([], t1, SquareWorker);
    assert [] + [t1] == [t1] && [] + [Int(1)] == [Int(1)];
    CollectSnoc([t1], t2, SquareWorker);
    assert [t1] + [t2] == [t1, t2] && [Int(1)] + [Int(4)] == [Int(1), Int(4)];
    CollectSnoc([t1, t2], t3, SquareWorker);
    assert [t1, t2] + [t3] == [t1, t2, t3] && [Int(1), Int(4)] + [Int(9)] == [Int(1), Int(4), Int(9)];
  }

  /** Two workers, the three `run(square, i)` calls, then `join()`: the
      results are 1, 4, 9 in submission order, and the executor is shut down. */
  lemma SquaresExample()
    ensures var s := SubmitAll(InitialPool, 2, SquareCalls);
            JoinSpec(s, 2, true, SquareWorker) == (PoolState(s.futures, [Int(1), Int(4), Int(9)], ShutDown), Pass)
  {
    SquareSubmissions();
    SquareResults();
    SubmitAllKeepsResults(InitialPool, 2, SquareCalls);
  }

  /** A `with MultiProcessor(2)` block whose body raises after no submission:
      the exit builds and shuts down the executor and returns `False`, so
      the body's exception propagates. */
  lemma BodyErrorWithoutSubmissions(eval: Task -> TaskOutcome)
    ensures ExitSpec(InitialPool, 2, true, true, eval) == (PoolState([], [], ShutDown), Success(false))
  {
  }

  // ---------------------------------------------------------------------------
  // MultiProcessor, the object
  // ---------------------------------------------------------------------------

  class MultiProcessor {
    const numWorkers: int
    const storeResults: bool
    var futures: seq<Task>
    /** `_results`, which the `results` property returns. */
    var results: seq<Value>
    var executor: ExecutorState

    function State(): PoolState
      reads this
    {
      PoolState(futures, results, executor)
    }

    constructor (numWorkers: int, storeResults: bool)
      ensures this.numWorkers == numWorkers && this.storeResults == storeResults
      ensures State() == InitialPool
    {
      this.numWorkers := numWorkers;
      this.storeResults := storeResults;
      futures := [];
      results := [];
      executor := NotCreated;
    }

    /** `run(*args, **kwargs)`. */
    method Run(args: seq<Value>, kwargs: seq<(string, Value)>) returns (r: Outcome<Exc>)
      modifies this
      ensures (State(), r) == Submit(old(State()), numWorkers, args, kwargs)
    {
      if |args| == 0 {
        return Fail(AssertionError);
      }
      var func := args[0];
      var valid := CheckIfValidFunction(func);
      if valid.Failure? {
        return Fail(valid.error);
      }
      var ex := AccessExecutor(executor, numWorkers);
      if ex.Failure? {
        return Fail(ex.error);
      }
      executor := ex.value;
      if !func.Callable? {
        return Fail(TypeError);
      }
      if executor == ShutDown {
        return Fail(RuntimeError);
      }
      futures := futures + [Task(func, args[1..], kwargs)];
      r := Pass;
    }

    /** `join()`. */
    method Join(eval: Task -> TaskOutcome) returns (r: Outcome<Exc>)
      modifies this
      ensures (State(), r) == JoinSpec(old(State()), numWorkers, storeResults, eval)
    {
      var fs := futures;
      var collected: seq<Value> := [];
      var i := 0;
      while i < |fs|
        invariant 0 <= i <= |fs|
        invariant Collect(fs[..i], eval) == Success(collected)
        invariant fs == futures && State() == old(State())
      {
        assert fs[..i + 1] == fs[..i] + [fs[i]];
        CollectSnoc(fs[..i], fs[i], eval);
        match eval(fs[i])
        case Raised(e) =>
          assert Collect(fs[..i + 1], eval) == Failure(e);
          assert Collect(fs, eval) == Failure(e) by {
            CollectPrefixFailure(fs, i + 1, eval);
          }
          return Fail(e);
        case Returned(v) =>
          collected := collected + [v];
        i := i + 1;
      }
      assert fs[..i] == fs;
      if storeResults {
        results := collected;
      }
      var ex := AccessExecutor(executor, numWorkers);
      if ex.Failure? {
        return Fail(ex.error);
      }
      executor := ShutDown;
      r := Pass;
    }

    /** `__exit__(exc_type, exc_value, tb)`, with `excInFlight` saying whether
      `exc_type` is not `None`. */
    method Exit(excInFlight: bool, eval: Task -> TaskOutcome) returns (r: Result<bool, Exc>)
      modifies this
      ensures (State(), r) == ExitSpec(old(State()), numWorkers, storeResults, excInFlight, eval)
    {
      var joined := Join(eval);
      if joined.Fail? {
        return Failure(joined.error);
      }
      r := Success(!excInFlight);
    }
  }

  /** Once a prefix of the futures raises, collecting all of them raises the same. */
  lemma {:induction false} CollectPrefixFailure(futures: seq<Task>, n: nat, eval: Task -> TaskOutcome)
    requires n <= |futures|
    requires Collect(futures[..n], eval).Failure?
    ensures Collect(futures, eval) == Collect(futures[..n], eval)
    decreases n
  {
    assert n > 0;
    match eval(futures[0])
    case Raised(e) =>
    case Returned(v) =>
      assert futures[..n][1..] == futures[1..][..n - 1];
      CollectPrefixFailure(futures[1..], n - 1, eval);
  }
}
