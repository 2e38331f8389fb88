/** `asdict` of `data.py`: a dataclass instance becomes a dict of its fields,
    nested instances become nested dicts, and with `skip_none` every
    dataclass level drops its fields whose value is `None`.
    The walk over fields, lists and dicts is that of `dataclasses.asdict`,
    which hands the (name, converted value) pairs of every dataclass
    instance it meets to the custom dict factory. */
module Data {
  import opened Wrappers

  /** A Python value that may be met inside a dataclass instance. */
  datatype Obj =
    | NoneValue
    | Scalar(repr: string)            // any value copied as it is (a number, a string, ...)
    | Record(fields: seq<Field>)      // a dataclass instance, its fields in declaration order
    | ListOf(items: seq<Obj>)         // a list or a tuple
    | DictOf(entries: seq<Field>)     // a dict, its (key, value) pairs in insertion order

  /** One field of a dataclass instance, or one entry of a dict. */
  datatype Field = Field(name: string, value: Obj)

  /** The plain values `asdict` produces. A dict is its (key, value) entries
      in insertion order. */
  datatype Py =
    | PNone
    | PScalar(repr: string)
    | PList(items: seq<Py>)
    | PDict(entries: seq<(string, Py)>)

  /** `dataclasses.asdict` refuses a value that is not a dataclass instance. */
  datatype AsDictError = NotADataclassInstance

  // ---------------------------------------------------------------------------
  // Dicts as entry lists
  // ---------------------------------------------------------------------------

  function Keys<V>(d: seq<(string, V)>): (ks: seq<string>)
    ensures |ks| == |d| && forall i :: 0 <= i < |d| ==> ks[i] == d[i].0
  {
    seq(|d|, i requires 0 <= i < |d| => d[i].0)
  }

  predicate Distinct(ks: seq<string>)
  {
    forall i, j :: 0 <= i < j < |ks| ==> ks[i] != ks[j]
  }

  /** `d[k] = v`: an existing key keeps its place and takes the new value, a
      new key goes last. */
  function Put(d: seq<(string, Py)>, k: string, v: Py): (r: seq<(string, Py)>)
    ensures k in Keys(d) ==> |r| == |d| && Keys(r) == Keys(d)
    ensures k !in Keys(d) ==> r == d + [(k, v)]
    ensures forall i :: 0 <= i < |r| ==> r[i] == (if r[i].0 == k then (k, v) else d[i])
    ensures (k, v) in r
  {
    if k in Keys(d) then
      seq(|d|, i requires 0 <= i < |d| => if d[i].0 == k then (k, v) else d[i])
    else d + [(k, v)]
  }

  // ---------------------------------------------------------------------------
  // The dict factory
  // ---------------------------------------------------------------------------

  /** The dict the custom factory builds from the pairs, inserting them one
      after the other and passing over `None` values when `skipNone` holds. */
  function DictFactory(items: seq<(string, Py)>, skipNone: bool): (d: seq<(string, Py)>)
    decreases |items|
  {
    if |items| == 0 then []
    else
      var rest := DictFactory(items[..|items| - 1], skipNone);
      var (k, v) := items[|items| - 1];
      if skipNone && v == PNone then rest else Put(rest, k, v)
  }

  /** `custom_dict_factory`: the insertion loop. */
  method CustomDictFactory(items: seq<(string, Py)>, skipNone: bool) returns (d: seq<(string, Py)>)
    ensures d == DictFactory(items, skipNone)
  {
    d := [];
    var i := 0;
    while i < |items|
      invariant 0 <= i <= |items|
      invariant d == DictFactory(items[..i], skipNone)
    {
      var (key, value) := items[i];
      assert items[..i + 1][..i] == items[..i];
      i := i + 1;
      if skipNone && value == PNone {
        continue;
      }
      d := Put(d, key, value);
    }
    assert items[..i] == items;
  }

  /** The pairs whose value is not `None`, in order. */
  function KeepNonNone(items: seq<(string, Py)>): (r: seq<(string, Py)>)
    ensures forall e :: e in r ==> e in items && e.1 != PNone
    decreases |items|
  {
    if |items| == 0 then []
    else
      var last := items[|items| - 1];
      assert items == items[..|items| - 1] + [last];
      KeepNonNone(items[..|items| - 1]) + (if last.1 == PNone then [] else [last])
  }

  /** A prefix of distinct keys is distinct, and the next key is not among them. */
  lemma DistinctPrefix<V>(items: seq<(string, V)>, n: nat)
    requires Distinct(Keys(items)) && n < |items|
    ensures Distinct(Keys(items[..n])) && items[n].0 !in Keys(items[..n])
  {
    assert Keys(items[..n]) == Keys(items)[..n];
    forall i | 0 <= i < n ensures Keys(items[..n])[i] != items[n].0 {
      assert Keys(items)[i] != Keys(items)[n];
    }
  }

  /** A key missing from the pairs is missing from their non-`None` ones. */
  lemma KeepNonNoneKeys(items: seq<(string, Py)>, k: string)
    requires k !in Keys(items)
    ensures k !in Keys(KeepNonNone(items))
  {
    var kept := KeepNonNone(items);
    forall i | 0 <= i < |kept| ensures Keys(kept)[i] != k {
      assert kept[i] in items;
    }
  }

  /** No pair repeats the key of a pair before it. */
  predicate NoRepeatedKey(items: seq<(string, Py)>)
    decreases |items|
  {
    |items| == 0 ||
    (NoRepeatedKey(items[..|items| - 1]) && items[|items| - 1].0 !in Keys(items[..|items| - 1]))
  }

  lemma {:induction false} DistinctHasNoRepeatedKey(items: seq<(string, Py)>)
    requires Distinct(Keys(items))
    ensures NoRepeatedKey(items)
    decreases |items|
  {
    if |items| > 0 {
      DistinctPrefix(items, |items| - 1);
      DistinctHasNoRepeatedKey(items[..|items| - 1]);
    }
  }

  /** With keys that are all different, which is the case for the fields of
      a dataclass, the factory keeps every pair (or every non-`None` pair),
      in order. */
  lemma DictFactoryOfDistinctKeys(items: seq<(string, Py)>, skipNone: bool)
    requires Distinct(Keys(items))
    ensures DictFactory(items, skipNone) == if skipNone then KeepNonNone(items) else items
  {
    DistinctHasNoRepeatedKey(items);
    if skipNone {
      DictFactoryKeepsNonNone(items);
    } else {
      DictFactoryKeepsAll(items);
    }
  }

  lemma {:induction false} DictFactoryKeepsAll(items: seq<(string, Py)>)
    requires NoRepeatedKey(items)
    ensures DictFactory(items, false) == items
    decreases |items|
  {
    if |items| > 0 {
      var n := |items| - 1;
      var prefix := items[..n];
      DictFactoryKeepsAll(prefix);
      assert DictFactory(items, false) == Put(prefix, items[n].0, items[n].1);
      assert items == prefix + [items[n]];
    }
  }

  lemma {:induction false} DictFactoryKeepsNonNone(items: seq<(string, Py)>)
    requires NoRepeatedKey(items)
    ensures DictFactory(items, true) == KeepNonNone(items)
    decreases |items|
  {
    if |items| > 0 {
      var n := |items| - 1;
      var prefix := items[..n];
      DictFactoryKeepsNonNone(prefix);
      var rest := KeepNonNone(prefix);
      if items[n].1 != PNone {
        KeepNonNoneKeys(prefix, items[n].0);
        assert DictFactory(items, true) == Put(rest, items[n].0, items[n].1);
        assert DictFactory(items, true) == rest + [items[n]];
      }
    }
  }

  /** Whatever the pairs, every key of the dict is the key of some pair. */
  lemma {:induction false} DictFactoryKeysFromItems(items: seq<(string, Py)>, skipNone: bool)
    ensures forall k :: k in Keys(DictFactory(items, skipNone)) ==> k in Keys(items)
    decreases |items|
  {
    if |items| > 0 {
      var n := |items| - 1;
      DictFactoryKeysFromItems(items[..n], skipNone);
      forall k | k in Keys(DictFactory(items, skipNone)) ensures k in Keys(items) {
        var rest := DictFactory(items[..n], skipNone);
        var j :| 0 <= j < |Keys(DictFactory(items, skipNone))| && Keys(DictFactory(items, skipNone))[j] == k;
        if k != items[n].0 {
          assert k in Keys(rest) by {
            var r := DictFactory(items, skipNone);
            if !(skipNone && items[n].1 == PNone) {
              assert r == Put(rest, items[n].0, items[n].1);
              if items[n].0 !in Keys(rest) {
                assert j < |rest|;
              }
              assert r[j].0 == rest[j].0;
            }
          }
          assert Keys(items[..n]) == Keys(items)[..n];
        }
      }
    }
  }

  // ---------------------------------------------------------------------------
  // The recursive walk of dataclasses.asdict
  // ---------------------------------------------------------------------------

  /** The converted value of a field: a dataclass instance goes through the
      factory with the same flag, a list its items, a dict its values (and
      no factory), anything else is copied. */
  function Convert(o: Obj, skipNone: bool): (r: Py)
    ensures r == PNone <==> o.NoneValue?
    ensures o.Scalar? ==> r == PScalar(o.repr)
    ensures o.Record? ==> r == PDict(AsDictFields(o.fields, skipNone))
    decreases o, 1
  {
    match o
    case NoneValue => PNone
    case Scalar(s) => PScalar(s)
    case Record(fs) => PDict(DictFactory(ConvertFields(fs, skipNone), skipNone))
    case ListOf(items) => PList(ConvertList(items, skipNone))
    case DictOf(entries) => PDict(ConvertFields(entries, skipNone))
  }

  /** The (name, converted value) pairs handed to the factory, in field order. */
  function ConvertFields(fs: seq<Field>, skipNone: bool): (r: seq<(string, Py)>)
    ensures |r| == |fs|
    ensures forall i :: 0 <= i < |fs| ==> r[i] == (fs[i].name, Convert(fs[i].value, skipNone))
    decreases fs, 0
  {
    if |fs| == 0 then []
    else [(fs[0].name, Convert(fs[0].value, skipNone))] + ConvertFields(fs[1..], skipNone)
  }

  function ConvertList(items: seq<Obj>, skipNone: bool): (r: seq<Py>)
    ensures |r| == |items|
    decreases items, 0
  {
    if |items| == 0 then []
    else [Convert(items[0], skipNone)] + ConvertList(items[1..], skipNone)
  }

  /** The dict of a dataclass instance with these fields. */
  function AsDictFields(fs: seq<Field>, skipNone: bool): seq<(string, Py)>
    decreases fs, 1
  {
    DictFactory(ConvertFields(fs, skipNone), skipNone)
  }

  /** `asdict(obj, skip_none)`. */
  function AsDict(obj: Obj, skipNone: bool): (r: Result<seq<(string, Py)>, AsDictError>)
    ensures r.Success? <==> obj.Record?
    ensures obj.Record? ==> r.value == AsDictFields(obj.fields, skipNone)
  {
    if obj.Record? then Success(AsDictFields(obj.fields, skipNone))
    else Failure(NotADataclassInstance)
  }

  // ---------------------------------------------------------------------------
  // Properties
  // ---------------------------------------------------------------------------

  function Names(fs: seq<Field>): (ns: seq<string>)
    ensures |ns| == |fs| && forall i :: 0 <= i < |fs| ==> ns[i] == fs[i].name
  {
    seq(|fs|, i requires 0 <= i < |fs| => fs[i].name)
  }

  /** The fields whose value is not `None`, in order. */
  function NonNoneFields(fs: seq<Field>): (r: seq<Field>)
    ensures forall f :: f in r ==> f in fs && !f.value.NoneValue?
    decreases |fs|
  {
    if |fs| == 0 then []
    else
      var last := fs[|fs| - 1];
      NonNoneFields(fs[..|fs| - 1]) + (if last.value.NoneValue? then [] else [last])
  }

  /** Converting fields one list after another converts each list. */
  lemma ConvertFieldsAppend(a: seq<Field>, b: seq<Field>, skipNone: bool)
    ensures ConvertFields(a + b, skipNone) == ConvertFields(a, skipNone) + ConvertFields(b, skipNone)
  {
    var l, r := ConvertFields(a + b, skipNone), ConvertFields(a, skipNone) + ConvertFields(b, skipNone);
    assert |l| == |r|;
    forall i | 0 <= i < |l| ensures l[i] == r[i] {
      if i >= |a| {
        assert (a + b)[i] == b[i - |a|];
      }
    }
  }

  /** Dropping the `None` pairs after converting is dropping the `None`
      fields before converting. */
  lemma {:induction false} KeepNonNoneOfConverted(fs: seq<Field>, skipNone: bool)
    ensures KeepNonNone(ConvertFields(fs, skipNone)) == ConvertFields(NonNoneFields(fs), skipNone)
    decreases |fs|
  {
    if |fs| > 0 {
      var n := |fs| - 1;
      var c := ConvertFields(fs, skipNone);
      var cp := ConvertFields(fs[..n], skipNone);
      assert c[..n] == cp by {
        forall i | 0 <= i < n ensures c[i] == cp[i] { }
      }
      KeepNonNoneOfConverted(fs[..n], skipNone);
      var tail := if fs[n].value.NoneValue? then [] else [fs[n]];
      var ctail := if c[n].1 == PNone then [] else [c[n]];
      assert KeepNonNone(c) == KeepNonNone(cp) + ctail;
      assert NonNoneFields(fs) == NonNoneFields(fs[..n]) + tail;
      ConvertFieldsAppend(NonNoneFields(fs[..n]), tail, skipNone);
      assert ConvertFields(tail, skipNone) == ctail;
    }
  }

  /** Keeping the non-`None` fields keeps their names all different. */
  lemma {:induction false} NonNoneFieldsDistinct(fs: seq<Field>)
    requires Distinct(Names(fs))
    ensures Distinct(Names(NonNoneFields(fs)))
    decreases |fs|
  {
    if |fs| > 0 {
      var n := |fs| - 1;
      assert Names(fs[..n]) == Names(fs)[..n];
      NonNoneFieldsDistinct(fs[..n]);
      var nn := NonNoneFields(fs[..n]);
      if !fs[n].value.NoneValue? {
        forall i | 0 <= i < |nn| ensures nn[i].name != fs[n].name {
          assert nn[i] in fs[..n];
          var j :| 0 <= j < n && fs[..n][j] == nn[i];
          assert Names(fs)[j] != Names(fs)[n];
        }
        assert Names(NonNoneFields(fs)) == Names(nn) + [fs[n].name];
      } else {
        assert NonNoneFields(fs) == nn;
      }
    }
  }

  /** Every field whose value is not `None` is kept. */
  lemma {:induction false} NonNoneFieldsComplete(fs: seq<Field>, i: nat)
    requires i < |fs| && !fs[i].value.NoneValue?
    ensures fs[i] in NonNoneFields(fs)
    decreases |fs|
  {
    var n := |fs| - 1;
    if i < n {
      NonNoneFieldsComplete(fs[..n], i);
      assert fs[..n][i] == fs[i];
    }
  }

  /** Without `skip_none`, every field appears under its own name, in field
      order, with its converted value. */
  lemma AsDictKeepsEveryField(fs: seq<Field>)
    requires Distinct(Names(fs))
    ensures AsDictFields(fs, false) == ConvertFields(fs, false)
    ensures Keys(AsDictFields(fs, false)) == Names(fs)
  {
    assert Keys(ConvertFields(fs, false)) == Names(fs);
    DictFactoryOfDistinctKeys(ConvertFields(fs, false), false);
  }

  /** With `skip_none`, the result is exactly the non-`None` fields, converted,
      in their relative order. */
  lemma AsDictSkipsNoneFields(fs: seq<Field>)
    requires Distinct(Names(fs))
    ensures AsDictFields(fs, true) == ConvertFields(NonNoneFields(fs), true)
    ensures Keys(AsDictFields(fs, true)) == Names(NonNoneFields(fs))
  {
    assert Keys(ConvertFields(fs, true)) == Names(fs);
    DictFactoryOfDistinctKeys(ConvertFields(fs, true), true);
    KeepNonNoneOfConverted(fs, true);
    assert Keys(ConvertFields(NonNoneFields(fs), true)) == Names(NonNoneFields(fs));
  }

  /** Every key of the result is a field name, with or without `skip_none`. */
  lemma AsDictKeysAreFieldNames(fs: seq<Field>, skipNone: bool)
    ensures forall k :: k in Keys(AsDictFields(fs, skipNone)) ==> k in Names(fs)
  {
    assert Keys(ConvertFields(fs, skipNone)) == Names(fs);
    DictFactoryKeysFromItems(ConvertFields(fs, skipNone), skipNone);
  }

  /** The dict has no two entries under one key. */
  lemma AsDictKeysDistinct(fs: seq<Field>, skipNone: bool)
    requires Distinct(Names(fs))
    ensures Distinct(Keys(AsDictFields(fs, skipNone)))
  {
    if skipNone {
      AsDictSkipsNoneFields(fs);
      NonNoneFieldsDistinct(fs);
    } else {
      AsDictKeepsEveryField(fs);
    }
  }

  /** With `skip_none`, a field whose value is `None` leaves no key behind. */
  lemma {:induction false} AsDictDropsNoneField(fs: seq<Field>, i: nat)
    requires Distinct(Names(fs)) && i < |fs| && fs[i].value.NoneValue?
    ensures fs[i].name !in Keys(AsDictFields(fs, true))
  {
    AsDictSkipsNoneFields(fs);
    NonNoneFieldsOmit(fs, i);
  }

  /** The name of a `None` field is no name of a kept field. */
  lemma {:induction false} NonNoneFieldsOmit(fs: seq<Field>, i: nat)
    requires Distinct(Names(fs)) && i < |fs| && fs[i].value.NoneValue?
    ensures fs[i].name !in Names(NonNoneFields(fs))
  {
    var nn := NonNoneFields(fs);
    forall j | 0 <= j < |nn| ensures Names(nn)[j] != fs[i].name {
      assert nn[j] in fs && !nn[j].value.NoneValue?;
      var k :| 0 <= k < |fs| && fs[k] == nn[j];
      assert Names(fs)[k] != Names(fs)[i];
    }
  }

  /** A field that is not dropped is stored under its own name with its
      converted value (which, the dict having distinct keys, is the value
      found under that name). So a nested instance is stored as the dict of
      its own fields built with the same flag, and a plain value unchanged. */
  lemma AsDictFieldEntry(fs: seq<Field>, skipNone: bool, i: nat)
    requires Distinct(Names(fs)) && i < |fs|
    requires !(skipNone && fs[i].value.NoneValue?)
    ensures (fs[i].name, Convert(fs[i].value, skipNone)) in AsDictFields(fs, skipNone)
    ensures fs[i].value.Record? ==>
              (fs[i].name, PDict(AsDictFields(fs[i].value.fields, skipNone))) in AsDictFields(fs, skipNone)
    ensures fs[i].value.Scalar? ==>
              (fs[i].name, PScalar(fs[i].value.repr)) in AsDictFields(fs, skipNone)
  {
    var d := AsDictFields(fs, skipNone);
    if !skipNone {
      AsDictKeepsEveryField(fs);
      assert d[i] == (fs[i].name, Convert(fs[i].value, skipNone));
    } else {
      AsDictSkipsNoneFields(fs);
      var nn := NonNoneFields(fs);
      NonNoneFieldsComplete(fs, i);
      var j :| 0 <= j < |nn| && nn[j] == fs[i];
      assert d[j] == (fs[i].name, Convert(fs[i].value, skipNone));
    }
  }
}
