/**
 * JavaScript values as the style-spec code handles them, plain objects with
 * their key order, and the two kinds of `Object.keys(...).reduce` the code
 * builds objects with.
 */
module JsObjects {

  /**
   * A JavaScript value.  `Undefined` is JavaScript's `undefined`: the code
   * stores it under keys on purpose, so it is a value here and not an absence.
   * Numbers are kept as reals; the constants the code writes are integers.
   */
  datatype Value =
    | Undefined
    | Null
    | Bool(b: bool)
    | Num(n: real)
    | Str(s: string)
    | Arr(items: seq<Value>)
    | Object(obj: Obj<Value>)

  /**
   * A plain object: its own enumerable keys in the order `Object.keys`
   * lists them, and the value stored under each.
   */
  datatype Obj<T> = Obj(keys: seq<string>, at: map<string, T>)
  {
    /** Exactly the stored keys are listed, each once: true of every object JavaScript builds. */
    predicate WellFormed()
    {
      at.Keys == KeySet(keys) && Distinct(keys)
    }
  }

  /** The keys a list mentions. */
  function KeySet(s: seq<string>): set<string>
  {
    if s == [] then {} else KeySet(s[..|s| - 1]) + {s[|s| - 1]}
  }

  /** No key is listed twice. */
  predicate Distinct(s: seq<string>)
  {
    s == [] || (s[|s| - 1] !in KeySet(s[..|s| - 1]) && Distinct(s[..|s| - 1]))
  }

  datatype Option<T> = None | Some(value: T)

  /** A computation that either yields a value or throws an error. */
  datatype Result<T, E> = Ok(value: T) | Err(error: E)

  // ---------------------------------------------------------------- key lists

  /** A key is in the key set exactly when it is listed. */
  lemma {:induction false} KeySetListed(s: seq<string>, k: string)
    ensures k in KeySet(s) <==> k in s
    decreases |s|
  {
    if s != [] {
      KeySetListed(s[..|s| - 1], k);
      assert s == s[..|s| - 1] + [s[|s| - 1]];
    }
  }

  /** A non-empty prefix is the one before it followed by its last key. */
  lemma PrefixSplit(s: seq<string>, n: nat)
    requires 0 < n <= |s|
    ensures s[..n] == s[..n - 1] + [s[n - 1]]
  {
  }

  /**
   * A prefix of a list without repeats has none either, and the key just
   * after it does not occur in it.
   */
  lemma {:induction false} DistinctPrefix(s: seq<string>, n: nat)
    requires Distinct(s) && n < |s|
    ensures Distinct(s[..n]) && s[n] !in KeySet(s[..n])
    decreases |s| - n
  {
    var p := s[..|s| - 1];
    if n < |s| - 1 {
      assert p[..n] == s[..n] && p[n] == s[n];
      DistinctPrefix(p, n);
    } else {
      assert s[..n] == p;
    }
  }

  /** A list whose positions all hold different keys has no repeats. */
  lemma {:induction false} DistinctByIndex(s: seq<string>)
    requires forall i, j | 0 <= i < j < |s| :: s[i] != s[j]
    ensures Distinct(s)
    decreases |s|
  {
    if s != [] {
      var p := s[..|s| - 1];
      DistinctByIndex(p);
      KeySetListed(p, s[|s| - 1]);
    }
  }

  // ---------------------------------------------------------------- objects

  /** The literal `{}`. */
  function EmptyObject<T>(): (r: Obj<T>)
    ensures r.WellFormed() && r.keys == [] && r.at == map[]
  {
    Obj([], map[])
  }

  /** Reading `o[k]`: the stored value, or `undefined` when `o` has no key `k`. */
  function Prop(o: Obj<Value>, k: string): (v: Value)
    ensures k in o.at ==> v == o.at[k]
    ensures k !in o.at ==> v == Undefined
  {
    if k in o.at then o.at[k] else Undefined
  }

  /**
   * `Object.assign({}, o, {[k]: v})`, which copies `o` into a fresh object and
   * then sets `k`; the assignment `o[k] = v` yields the same keys, order and
   * values.
   */
  function Put<T>(o: Obj<T>, k: string, v: T): (r: Obj<T>)
  {
    if k in o.at then Obj(o.keys, o.at[k := v]) else Obj(o.keys + [k], o.at[k := v])
  }

  /**
   * Every earlier key keeps its value and its place, `k` now holds `v`, a `k`
   * that was not there before is listed last, and an object JavaScript could
   * build stays one.
   */
  lemma PutContents<T>(o: Obj<T>, k: string, v: T)
    ensures Put(o, k, v).at.Keys == o.at.Keys + {k}
    ensures Put(o, k, v).at[k] == v
    ensures forall j | j in o.at && j != k :: Put(o, k, v).at[j] == o.at[j]
    ensures k in o.at ==> Put(o, k, v).keys == o.keys
    ensures k !in o.at ==> Put(o, k, v).keys == o.keys + [k]
    ensures o.WellFormed() ==> Put(o, k, v).WellFormed()
  {
  }

  /** Adding a key not yet listed appends it and keeps the object well formed. */
  lemma PutFresh<T>(o: Obj<T>, listed: seq<string>, k: string, v: T)
    requires o.WellFormed() && o.keys == listed && k !in KeySet(listed)
    ensures Put(o, k, v).WellFormed() && Put(o, k, v).keys == listed + [k]
  {
  }

  // ---------------------------------------------------------------- reduces

  /**
   * `names.reduce((acc, k) => Object.assign({}, acc, {[k]: value(k)}), {})`
   * after its first `n` names.
   */
  function AssignEach<T>(names: seq<string>, value: string -> T, n: nat): Obj<T>
    requires n <= |names|
  {
    if n == 0 then EmptyObject() else Put(AssignEach(names, value, n - 1), names[n - 1], value(names[n - 1]))
  }

  /**
   * Over a key list without repeats, the first `n` steps build an object
   * that lists the first `n` names, in order, each holding its value.
   */
  lemma {:induction false} AssignEachContents<T>(names: seq<string>, value: string -> T, n: nat)
    requires n <= |names| && Distinct(names)
    ensures AssignEach(names, value, n).WellFormed()
    ensures AssignEach(names, value, n).keys == names[..n]
    ensures forall k | k in AssignEach(names, value, n).at :: AssignEach(names, value, n).at[k] == value(k)
  {
    if n > 0 {
      AssignEachContents(names, value, n - 1);
      DistinctPrefix(names, n - 1);
      PutFresh(AssignEach(names, value, n - 1), names[..n - 1], names[n - 1], value(names[n - 1]));
      PrefixSplit(names, n);
    }
  }

  /**
   * One step keeps every earlier key, its value and its place, and adds only
   * the current name, which was not there yet.
   */
  lemma AssignEachStep<T>(names: seq<string>, value: string -> T, n: nat)
    requires 0 < n <= |names| && Distinct(names)
    ensures names[n - 1] !in AssignEach(names, value, n - 1).at
    ensures AssignEach(names, value, n).keys == AssignEach(names, value, n - 1).keys + [names[n - 1]]
    ensures AssignEach(names, value, n).at == AssignEach(names, value, n - 1).at[names[n - 1] := value(names[n - 1])]
  {
    AssignEachContents(names, value, n - 1);
    DistinctPrefix(names, n - 1);
  }

  /**
   * The reduce `names.reduce((acc, k) => { acc[k] = entry(k); return acc; }, {})`
   * after its first `n` names, where computing an entry may throw; the first
   * error ends the reduce.
   */
  function StoreEach<T, E>(names: seq<string>, entry: string -> Result<T, E>, n: nat): Result<Obj<T>, E>
    requires n <= |names|
  {
    if n == 0 then Ok(EmptyObject())
    else
      var before := StoreEach(names, entry, n - 1);
      var current := entry(names[n - 1]);
      if before.Err? then before
      else if current.Err? then Err(current.error)
      else Ok(Put(before.value, names[n - 1], current.value))
  }

  /** The reduce gets through its first `n` names exactly when none of their entries throws. */
  lemma {:induction false} StoreEachSucceeds<T, E>(names: seq<string>, entry: string -> Result<T, E>, n: nat)
    requires n <= |names|
    ensures StoreEach(names, entry, n).Ok? <==> forall i | 0 <= i < n :: entry(names[i]).Ok?
  {
    if n > 0 {
      StoreEachSucceeds(names, entry, n - 1);
    }
  }

  /** A successful step of the reduce stores the current entry into the previous accumulator. */
  lemma StoreEachStep<T, E>(names: seq<string>, entry: string -> Result<T, E>, n: nat)
    requires 0 < n <= |names|
    requires StoreEach(names, entry, n).Ok?
    ensures StoreEach(names, entry, n - 1).Ok? && entry(names[n - 1]).Ok?
    ensures StoreEach(names, entry, n).value
         == Put(StoreEach(names, entry, n - 1).value, names[n - 1], entry(names[n - 1]).value)
  {
  }

  /** After `n` successful steps, the next step either throws the next entry's error or stores that entry. */
  lemma StoreEachNext<T, E>(names: seq<string>, entry: string -> Result<T, E>, n: nat)
    requires n < |names|
    requires StoreEach(names, entry, n).Ok?
    ensures entry(names[n]).Err? ==> StoreEach(names, entry, n + 1) == Err(entry(names[n]).error)
    ensures entry(names[n]).Ok? ==>
      StoreEach(names, entry, n + 1) == Ok(Put(StoreEach(names, entry, n).value, names[n], entry(names[n]).value))
  {
  }

  /**
   * When it gets through a key list without repeats, the accumulator lists
   * the first `n` names once each, in order.
   */
  lemma {:induction false} StoreEachKeys<T, E>(names: seq<string>, entry: string -> Result<T, E>, n: nat)
    requires n <= |names| && Distinct(names)
    requires StoreEach(names, entry, n).Ok?
    ensures StoreEach(names, entry, n).value.WellFormed()
    ensures StoreEach(names, entry, n).value.keys == names[..n]
  {
    if n > 0 {
      StoreEachStep(names, entry, n);
      StoreEachKeys(names, entry, n - 1);
      DistinctPrefix(names, n - 1);
      PutFresh(StoreEach(names, entry, n - 1).value, names[..n - 1], names[n - 1], entry(names[n - 1]).value);
      PrefixSplit(names, n);
    }
  }

  /** When it gets through, the accumulator holds each name's entry. */
  lemma {:induction false} StoreEachValues<T, E>(names: seq<string>, entry: string -> Result<T, E>, n: nat)
    requires n <= |names|
    requires StoreEach(names, entry, n).Ok?
    ensures forall k | k in StoreEach(names, entry, n).value.at ::
      entry(k).Ok? && StoreEach(names, entry, n).value.at[k] == entry(k).value
  {
    if n > 0 {
      StoreEachValues(names, entry, n - 1);
    }
  }

  /**
   * When it throws, the error is that of the first name whose entry throws;
   * the entries of all earlier names were computed.
   */
  lemma {:induction false} StoreEachFails<T, E>(names: seq<string>, entry: string -> Result<T, E>, n: nat)
    requires n <= |names|
    requires StoreEach(names, entry, n).Err?
    ensures exists i | 0 <= i < n ::
      && (forall j | 0 <= j < i :: entry(names[j]).Ok?)
      && entry(names[i]) == Err(StoreEach(names, entry, n).error)
  {
    var before := StoreEach(names, entry, n - 1);
    if before.Err? {
      StoreEachFails(names, entry, n - 1);
      var i :| 0 <= i < n - 1
        && (forall j | 0 <= j < i :: entry(names[j]).Ok?)
        && entry(names[i]) == Err(before.error);
      assert StoreEach(names, entry, n) == before;
      assert 0 <= i < n;
    } else {
      StoreEachSucceeds(names, entry, n - 1);
      assert StoreEach(names, entry, n) == Err(entry(names[n - 1]).error);
      assert forall j | 0 <= j < n - 1 :: entry(names[j]).Ok?;
    }
  }

  /** Once an entry has thrown, the reduce as a whole ends with that error. */
  lemma {:induction false} FailureIsFinal<T, E>(names: seq<string>, entry: string -> Result<T, E>, m: nat, n: nat)
    requires m <= n <= |names|
    requires StoreEach(names, entry, m).Err?
    ensures StoreEach(names, entry, n) == StoreEach(names, entry, m)
    decreases n
  {
    if n > m {
      FailureIsFinal(names, entry, m, n - 1);
    }
  }
}
