/** The singleton patterns of `pattern.py`: two metaclasses keyed by class,
    two metaclasses keyed by class and argument text, and the two closure
    decorators. Every one of them is a get-or-create table: on a miss the class
    is called and the new object stored, on a hit the stored object is returned
    and the call's arguments are ignored. */
module Pattern {
  import opened Wrappers

  /** A Python class object, identified by its identity: two distinct class
      objects are two keys even when they share a qualified name. */
  type ClassId = string

  /** An object built by calling a class: the class and the arguments its
      initialiser received (each argument given by the text `repr` gives it). */
  class Instance {
    const cls: ClassId
    const args: seq<string>
    const kwargs: seq<(string, string)>

    constructor (cls: ClassId, args: seq<string>, kwargs: seq<(string, string)>)
      ensures this.cls == cls && this.args == args && this.kwargs == kwargs
    {
      this.cls := cls;
      this.args := args;
      this.kwargs := kwargs;
    }
  }

  // ---------------------------------------------------------------------------
  // The get-or-create rule, on values
  // ---------------------------------------------------------------------------

  /** One lookup in an instance table: `made` is the object the class call
      would build, and it is used only when `key` is missing. Returns the new
      table and the object handed back to the caller. */
  function GetOrCreate<K, V>(table: map<K, V>, key: K, made: V): (r: (map<K, V>, V))
    ensures key in r.0 && r.0[key] == r.1
    ensures r.0.Keys == table.Keys + {key}
    ensures forall k :: k in table ==> r.0[k] == table[k]
    ensures key in table ==> r.1 == table[key] && r.0 == table
    ensures key !in table ==> r.1 == made
  {
    if key in table then (table, table[key]) else (table[key := made], made)
  }

  /** The keys of a run of calls. */
  function KeysOf<K, V>(calls: seq<(K, V)>): set<K>
  {
    if |calls| == 0 then {} else {calls[0].0} + KeysOf(calls[1..])
  }

  /** A run of calls against one table, in order: each call is the key it
      looks up and the object the class would build for it. Returns the final
      table and the object each call handed back. */
  function Replay<K, V>(table: map<K, V>, calls: seq<(K, V)>): (r: (map<K, V>, seq<V>))
    ensures |r.1| == |calls|
    decreases |calls|
  {
    if |calls| == 0 then (table, [])
    else
      var step := GetOrCreate(table, calls[0].0, calls[0].1);
      var rest := Replay(step.0, calls[1..]);
      (rest.0, [step.1] + rest.1)
  }

  /** After any run of calls: every call handed back exactly the object the
      final table holds for its key (so two calls with one key handed back the
      same object), no entry that existed before was replaced, and the table
      gained exactly the keys that were looked up. */
  lemma {:induction false} ReplayConsistent<K, V>(table: map<K, V>, calls: seq<(K, V)>)
    ensures var r := Replay(table, calls);
            forall i :: 0 <= i < |calls| ==> calls[i].0 in r.0 && r.1[i] == r.0[calls[i].0]
    ensures var r := Replay(table, calls);
            forall k :: k in table ==> k in r.0 && r.0[k] == table[k]
    ensures Replay(table, calls).0.Keys == table.Keys + KeysOf(calls)
    decreases |calls|
  {
    if |calls| > 0 {
      var step := GetOrCreate(table, calls[0].0, calls[0].1);
      ReplayConsistent(step.0, calls[1..]);
      var r := Replay(table, calls);
      forall i | 0 <= i < |calls|
        ensures calls[i].0 in r.0 && r.1[i] == r.0[calls[i].0]
      {
        if i > 0 {
          assert calls[i] == calls[1..][i - 1];
        }
      }
    }
  }

  /** The object built by the first call that misses on a key is the one the
      table keeps for good, and the one that call hands back: every later
      object built for that key would be discarded. */
  lemma {:induction false} ReplayFirstWins<K, V>(table: map<K, V>, calls: seq<(K, V)>, i: nat)
    requires i < |calls|
    requires calls[i].0 !in table
    requires forall j :: 0 <= j < i ==> calls[j].0 != calls[i].0
    ensures var r := Replay(table, calls);
            calls[i].0 in r.0 && r.0[calls[i].0] == calls[i].1 && r.1[i] == calls[i].1
    decreases i
  {
    var step := GetOrCreate(table, calls[0].0, calls[0].1);
    if i == 0 {
      ReplayConsistent(step.0, calls[1..]);
    } else {
      assert calls[1..][i - 1] == calls[i];
      forall j | 0 <= j < i - 1
        ensures calls[1..][j].0 != calls[1..][i - 1].0
      {
        assert calls[1..][j] == calls[j + 1];
      }
      ReplayFirstWins(step.0, calls[1..], i - 1);
    }
  }

  // ---------------------------------------------------------------------------
  // The key built from the call's arguments: str(args) + str(kwargs)
  // ---------------------------------------------------------------------------

  /** The parts joined by ", ". */
  function JoinComma(parts: seq<string>): string
  {
    if |parts| == 0 then ""
    else if |parts| == 1 then parts[0]
    else parts[0] + ", " + JoinComma(parts[1..])
  }

  /** Python's text for a tuple whose elements render as `items`: a
      one-element tuple keeps its trailing comma. */
  function TupleRepr(items: seq<string>): (r: string)
    ensures |r| >= 2 && r[0] == '(' && r[|r| - 1] == ')'
    ensures |items| == 1 ==> r == "(" + items[0] + ",)"
  {
    if |items| == 1 then "(" + items[0] + ",)" else "(" + JoinComma(items) + ")"
  }

  /** Python's text for each `name: value` entry of a dict with string keys. */
  function EntryReprs(entries: seq<(string, string)>): (r: seq<string>)
    ensures |r| == |entries|
  {
    if |entries| == 0 then []
    else ["'" + entries[0].0 + "': " + entries[0].1] + EntryReprs(entries[1..])
  }

  /** Python's text for a dict with string keys, in insertion order. */
  function DictRepr(entries: seq<(string, string)>): (r: string)
    ensures |r| >= 2 && r[0] == '{' && r[|r| - 1] == '}'
  {
    "{" + JoinComma(EntryReprs(entries)) + "}"
  }

  /** `__repr_args__`: the instance key of a call, the positional arguments
      rendered as a tuple followed by the keyword arguments rendered as a dict. */
  function ReprArgs(args: seq<string>, kwargs: seq<(string, string)>): (key: string)
    ensures |key| >= 4 && key[0] == '(' && key[|key| - 1] == '}'
  {
    TupleRepr(args) + DictRepr(kwargs)
  }

  /** The joined text starts with the first part. */
  lemma {:induction false} JoinCommaStartsWithFirst(parts: seq<string>)
    requires |parts| > 0
    ensures |JoinComma(parts)| >= |parts[0]| && JoinComma(parts)[..|parts[0]|] == parts[0]
  {
    if |parts| > 1 {
      assert JoinComma(parts) == parts[0] + (", " + JoinComma(parts[1..]));
    }
  }

  /** The second character of a key is the first character of the first
      positional argument's text, or `)` when there is no positional argument. */
  lemma KeySecondChar(args: seq<string>, kwargs: seq<(string, string)>)
    requires |args| == 0 || |args[0]| > 0
    ensures |ReprArgs(args, kwargs)| > 1
    ensures ReprArgs(args, kwargs)[1] == if |args| == 0 then ')' else args[0][0]
  {
    if |args| > 1 {
      JoinCommaStartsWithFirst(args);
      assert JoinComma(args)[0] == args[0][0];
    }
  }

  /** The key depends on how an argument is passed: a call with a positional
      argument (whose text cannot start with `)`) and a call with none never
      share a key, whatever their keyword arguments. So `C(1)` and `C(x=1)`
      get two instances. */
  lemma PositionalAndKeywordKeysDiffer(args: seq<string>, kw1: seq<(string, string)>, kw2: seq<(string, string)>)
    requires |args| > 0 && |args[0]| > 0 && args[0][0] != ')'
    ensures ReprArgs(args, kw1) != ReprArgs([], kw2)
  {
    KeySecondChar(args, kw1);
    KeySecondChar([], kw2);
  }

  /** The keys of `C(1)` and `C(x=1)`, character for character. */
  lemma PositionalAndKeywordKeys()
    ensures ReprArgs(["1"], []) == "(1,){}"
    ensures ReprArgs([], [("x", "1")]) == "(){'x': 1}"
  {
  }

  /** The key depends on the order of the keyword arguments: swapping two
      keyword arguments whose names start differently gives another key. So
      `C(a=1, b=2)` and `C(b=2, a=1)` get two instances. */
  lemma KeywordOrderChangesKey(k1: string, v1: string, k2: string, v2: string)
    requires |k1| > 0 && |k2| > 0 && k1[0] != k2[0]
    ensures ReprArgs([], [(k1, v1), (k2, v2)]) != ReprArgs([], [(k2, v2), (k1, v1)])
  {
    TwoKeywordKey(k1, v1, k2, v2);
    TwoKeywordKey(k2, v2, k1, v1);
    assert ReprArgs([], [(k1, v1), (k2, v2)])[4] == k1[0];
    assert ReprArgs([], [(k2, v2), (k1, v1)])[4] == k2[0];
  }

  /** The key of a call with two keyword arguments and no positional one. */
  lemma TwoKeywordKey(k1: string, v1: string, k2: string, v2: string)
    ensures ReprArgs([], [(k1, v1), (k2, v2)]) == "(){'" + k1 + "': " + v1 + ", '" + k2 + "': " + v2 + "}"
  {
    var es := [(k1, v1), (k2, v2)];
    var e1, e2 := "'" + k1 + "': " + v1, "'" + k2 + "': " + v2;
    assert es[1..] == [(k2, v2)];
    assert EntryReprs(es) == [e1, e2];
    assert [e1, e2][1..] == [e2];
    assert JoinComma([e1, e2]) == e1 + ", " + e2;
    assert TupleRepr([]) == "()";
    assert DictRepr(es) == "{" + e1 + ", " + e2 + "}";
  }

  // ---------------------------------------------------------------------------
  // The metaclasses and decorators, each with the table it mutates
  // ---------------------------------------------------------------------------

  /** `SingletonMeta` (and, with a table of its own, `SingletonABCMeta`): one
      table shared by every class that uses the metaclass, keyed by the class. */
  class SingletonMeta {
    var instances: map<ClassId, Instance>

    ghost predicate Valid()
      reads this
    {
      forall c :: c in instances ==> instances[c].cls == c
    }

    constructor ()
      ensures Valid() && instances == map[]
    {
      instances := map[];
    }

    /** `cls(*args, **kwargs)` for a class whose metaclass this is. */
    method Call(cls: ClassId, args: seq<string>, kwargs: seq<(string, string)>) returns (inst: Instance)
      requires Valid()
      modifies this
      ensures Valid()
      ensures (instances, inst) == GetOrCreate(old(instances), cls, inst)
      ensures cls !in old(instances) ==>
                fresh(inst) && inst.cls == cls && inst.args == args && inst.kwargs == kwargs
    {
      if cls !in instances {
        var made := new Instance(cls, args, kwargs);
        instances := instances[cls := made];
      }
      inst := instances[cls];
    }
  }

  /** The per-class table a call to `cls` uses: empty on the class's first use. */
  function SubTable(tables: map<ClassId, map<string, Instance>>, cls: ClassId): map<string, Instance>
  {
    if cls in tables then tables[cls] else map[]
  }

  /** Every object of the sub-table of `cls` is an instance of `cls` built
      from arguments whose key it is stored under. */
  ghost predicate SubTableValid(cls: ClassId, sub: map<string, Instance>)
  {
    forall k :: k in sub ==> sub[k].cls == cls && ReprArgs(sub[k].args, sub[k].kwargs) == k
  }

  /** `SingletonMetaWithArgs` (and, with a table of its own,
      `SingletonABCMetaWithArgs`): one table per class, keyed by the text of
      the call's arguments. */
  class SingletonMetaWithArgs {
    var instances: map<ClassId, map<string, Instance>>

    ghost predicate Valid()
      reads this
    {
      forall c :: c in instances ==> SubTableValid(c, instances[c])
    }

    constructor ()
      ensures Valid() && instances == map[]
    {
      instances := map[];
    }

    /** `cls(*args, **kwargs)` for a class whose metaclass this is: only the
      sub-table of `cls` changes, and in it only the entry for the call's key. */
    method Call(cls: ClassId, args: seq<string>, kwargs: seq<(string, string)>) returns (inst: Instance)
      requires Valid()
      modifies this
      ensures Valid()
      ensures var step := GetOrCreate(SubTable(old(instances), cls), ReprArgs(args, kwargs), inst);
              instances == old(instances)[cls := step.0] && inst == step.1
      ensures ReprArgs(args, kwargs) !in SubTable(old(instances), cls) ==>
                fresh(inst) && inst.cls == cls && inst.args == args && inst.kwargs == kwargs
    {
      var key := ReprArgs(args, kwargs);
      var sub := SubTable(instances, cls);
      assert SubTableValid(cls, sub);
      if key !in sub {
        var made := new Instance(cls, args, kwargs);
        sub := sub[key := made];
      }
      assert SubTableValid(cls, sub);
      instances := instances[cls := sub];
      inst := sub[key];
    }
  }

  /** The closure variable of `singleton` read as a table with one possible key. */
  function OneKeyTable(instance: Option<Instance>): (t: map<(), Instance>)
    ensures () in t <==> instance.Some?
  {
    if instance.Some? then map[() := instance.value] else map[]
  }

  /** The `singleton` decorator applied to `cls`: the closure variable
      `instance` holds the one object once it has been built. */
  class SingletonDecorator {
    const cls: ClassId
    var instance: Option<Instance>

    ghost predicate Valid()
      reads this
    {
      instance.Some? ==> instance.value.cls == cls
    }

    constructor (cls: ClassId)
      ensures Valid() && this.cls == cls && instance == None
    {
      this.cls := cls;
      instance := None;
    }

    /** A call to the decorated name: `cls` is called only while no instance exists. */
    method Wrapper(args: seq<string>, kwargs: seq<(string, string)>) returns (inst: Instance)
      requires Valid()
      modifies this
      ensures Valid()
      ensures (OneKeyTable(instance), inst) == GetOrCreate(OneKeyTable(old(instance)), (), inst)
      ensures old(instance).Some? ==> inst == old(instance).value && instance == old(instance)
      ensures old(instance).None? ==>
                fresh(inst) && inst.cls == cls && inst.args == args && inst.kwargs == kwargs
                && instance == Some(inst)
    {
      if instance.None? {
        var made := new Instance(cls, args, kwargs);
        instance := Some(made);
      }
      inst := instance.value;
    }
  }

  /** The `singletonWithArgs` decorator applied to `cls`: each decorated class
      has its own closure table keyed by the text of the call's arguments. */
  class SingletonWithArgsDecorator {
    const cls: ClassId
    var instances: map<string, Instance>

    ghost predicate Valid()
      reads this
    {
      forall k :: k in instances ==>
        instances[k].cls == cls && ReprArgs(instances[k].args, instances[k].kwargs) == k
    }

    constructor (cls: ClassId)
      ensures Valid() && this.cls == cls && instances == map[]
    {
      this.cls := cls;
      instances := map[];
    }

    /** A call to the decorated name. */
    method Wrapper(args: seq<string>, kwargs: seq<(string, string)>) returns (inst: Instance)
      requires Valid()
      modifies this
      ensures Valid()
      ensures (instances, inst) == GetOrCreate(old(instances), ReprArgs(args, kwargs), inst)
      ensures ReprArgs(args, kwargs) !in old(instances) ==>
                fresh(inst) && inst.cls == cls && inst.args == args && inst.kwargs == kwargs
    {
      var key := ReprArgs(args, kwargs);
      if key !in instances {
        var made := new Instance(cls, args, kwargs);
        instances := instances[key := made];
      }
      inst := instances[key];
    }
  }
}
