/** The evaluator (`selector`) and the filter (`select`): compiled triples are
    folded over one record with OR or AND, and the records that match are kept in
    their original order. */
module Query {
  import opened Wrappers
  import opened Seqs
  import opened Comparators
  import opened Compiler
  import opened Records

  /** What `select` can raise: a key that does not compile, or an ordering
      comparator applied to a field the record lacks (Python's TypeError when
      comparing None with a string). */
  datatype SelectError = CompileFailed(cause: CompileError) | Unorderable(field: string)

  /** `el.get(k)`. */
  function Get(el: Record, k: string): Option<string>
  {
    if k in el then Some(el[k]) else None
  }

  /** `op(el.get(k), v)` for one triple; None when it raises. */
  function Test(el: Record, t: Triple): Option<bool>
  {
    Compare(t.op, Get(el, t.field), t.target)
  }

  /** The triple holds of the record. */
  predicate Holds(el: Record, t: Triple)
  {
    Test(el, t) == Some(true)
  }

  /** One step of the accumulator: `_result or result` under mode `'or'`,
      `_result and result` under any other mode string. */
  function Combine(mode: string, b: bool, acc: bool): bool
  {
    if mode == "or" then b || acc else b && acc
  }

  /** The loop of `selector` from accumulator `acc` on: every comparison is computed
      in order, and the first one that raises ends the fold. */
  function Fold(el: Record, mode: string, ts: seq<Triple>, acc: bool): Result<bool, SelectError>
  {
    if ts == [] then Ok(acc)
    else
      match Test(el, ts[0])
      case None => Err(Unorderable(ts[0].field))
      case Some(b) => Fold(el, mode, ts[1..], Combine(mode, b, acc))
  }

  /** `selector(el, mode, operators)`: the accumulator starts False under `'or'`
      and True otherwise. */
  function Evaluate(el: Record, mode: string, ts: seq<Triple>): Result<bool, SelectError>
  {
    Fold(el, mode, ts, mode != "or")
  }

  /** The fold raises exactly when some triple raises; otherwise under `'or'` it
      gives `acc` or-ed with "some triple holds", and under any other mode `acc`
      and-ed with "every triple holds". */
  lemma {:induction false} FoldSpec(el: Record, mode: string, ts: seq<Triple>, acc: bool)
    ensures Fold(el, mode, ts, acc).Ok? <==> forall t :: t in ts ==> Test(el, t).Some?
    ensures Fold(el, mode, ts, acc).Ok? ==>
      Fold(el, mode, ts, acc).value ==
        if mode == "or" then acc || exists t :: t in ts && Holds(el, t)
        else acc && forall t :: t in ts ==> Holds(el, t)
  {
    if ts != [] {
      var t0 := ts[0];
      assert forall t :: t in ts <==> t == t0 || t in ts[1..];
      if Test(el, t0).Some? {
        var b := Test(el, t0).value;
        FoldSpec(el, mode, ts[1..], Combine(mode, b, acc));
        assert Holds(el, t0) == b;
        if mode == "or" {
          assert (exists t :: t in ts && Holds(el, t)) == (b || exists t :: t in ts[1..] && Holds(el, t));
        } else {
          assert (forall t :: t in ts ==> Holds(el, t)) == (b && forall t :: t in ts[1..] ==> Holds(el, t));
        }
      }
    }
  }

  /** `selector` raises exactly when some triple raises; otherwise, under `'or'`
      it is true iff at least one triple holds, and under any other mode iff every
      triple holds. With no triples it is False under `'or'` and True otherwise. */
  lemma EvaluateSpec(el: Record, mode: string, ts: seq<Triple>)
    ensures Evaluate(el, mode, ts).Ok? <==> forall t :: t in ts ==> Test(el, t).Some?
    ensures Evaluate(el, mode, ts).Ok? ==>
      Evaluate(el, mode, ts).value ==
        if mode == "or" then exists t :: t in ts && Holds(el, t)
        else forall t :: t in ts ==> Holds(el, t)
  {
    FoldSpec(el, mode, ts, mode != "or");
  }

  /** Whether `selector` raises, and what it returns when it does not, depend only
      on which triples there are, not on their order or repetition. */
  lemma EvaluateOrderIrrelevant(el: Record, mode: string, ts: seq<Triple>, us: seq<Triple>)
    requires forall t :: t in ts <==> t in us
    ensures Evaluate(el, mode, ts).Ok? == Evaluate(el, mode, us).Ok?
    ensures Evaluate(el, mode, ts).Ok? ==> Evaluate(el, mode, ts).value == Evaluate(el, mode, us).value
  {
    EvaluateSpec(el, mode, ts);
    EvaluateSpec(el, mode, us);
  }

  /** Under a mode other than `'or'`, a list of `eq` triples never raises and
      matches exactly the records that carry every named field with the target
      value. */
  lemma EvaluateAllEq(el: Record, mode: string, ts: seq<Triple>)
    requires mode != "or"
    requires forall t :: t in ts ==> t.op == Eq
    ensures Evaluate(el, mode, ts) == Ok(forall t :: t in ts ==> t.field in el && el[t.field] == t.target)
  {
    EvaluateSpec(el, mode, ts);
    assert forall t :: t in ts ==> Test(el, t).Some?;
    assert forall t :: t in ts ==> (Holds(el, t) <==> t.field in el && el[t.field] == t.target);
  }

  /** Unfolding `Fold` at position `i`. */
  lemma FoldFrom(el: Record, mode: string, ts: seq<Triple>, i: nat, acc: bool)
    requires i < |ts|
    ensures Fold(el, mode, ts[i..], acc) ==
      match Test(el, ts[i])
      case None => Err(Unorderable(ts[i].field))
      case Some(b) => Fold(el, mode, ts[i + 1..], Combine(mode, b, acc))
  {
    assert ts[i..][0] == ts[i] && ts[i..][1..] == ts[i + 1..];
  }

  /** `selector`: the loop over the triples, updating the accumulator. */
  method Selector(el: Record, mode: string, ts: seq<Triple>) returns (r: Result<bool, SelectError>)
    ensures r == Evaluate(el, mode, ts)
    ensures ts == [] ==> r == Ok(mode != "or")
    ensures r.Ok? <==> forall t :: t in ts ==> Test(el, t).Some?
    ensures r.Ok? ==>
      r.value == if mode == "or" then exists t :: t in ts && Holds(el, t) else forall t :: t in ts ==> Holds(el, t)
  {
    EvaluateSpec(el, mode, ts);
    var result := if mode == "or" then false else true;
    var i := 0;
    assert ts[i..] == ts;
    while i < |ts|
      invariant 0 <= i <= |ts|
      invariant Evaluate(el, mode, ts) == Fold(el, mode, ts[i..], result)
    {
      var t := ts[i];
      FoldFrom(el, mode, ts, i, result);
      var outcome := Compare(t.op, Get(el, t.field), t.target);
      if outcome.None? {
        return Err(Unorderable(t.field));
      }
      if mode == "or" {
        result := outcome.value || result;
      } else {
        result := outcome.value && result;
      }
      i := i + 1;
    }
    assert ts[i..] == [];
    return Ok(result);
  }

  /** The records kept by a compiled query, or the error of the first record whose
      evaluation raises. */
  function Filter(records: seq<Record>, mode: string, ts: seq<Triple>): Result<seq<Record>, SelectError>
  {
    if records == [] then Ok([])
    else
      match Evaluate(records[0], mode, ts)
      case Err(e) => Err(e)
      case Ok(b) => Prepend(if b then [records[0]] else [], Filter(records[1..], mode, ts))
  }

  /** The records a compiled query selects. */
  function Matcher(mode: string, ts: seq<Triple>): Record -> bool
  {
    el => Evaluate(el, mode, ts) == Ok(true)
  }

  /** Filtering raises exactly when some record's evaluation raises; otherwise it
      keeps exactly the matching records, in their original order. */
  lemma {:induction false} FilterSpec(records: seq<Record>, mode: string, ts: seq<Triple>)
    ensures Filter(records, mode, ts).Ok? <==> forall el :: el in records ==> Evaluate(el, mode, ts).Ok?
    ensures Filter(records, mode, ts).Ok? ==> Filter(records, mode, ts).value == Keep(records, Matcher(mode, ts))
  {
    if records != [] {
      var el0 := records[0];
      assert forall el :: el in records <==> el == el0 || el in records[1..];
      FilterSpec(records[1..], mode, ts);
      assert Matcher(mode, ts)(el0) == (Evaluate(el0, mode, ts) == Ok(true));
    }
  }

  /** `kwargs.get(key)`: the value of the first entry with that key. */
  function Lookup(kwargs: Kwargs, key: string): (r: Option<string>)
    ensures r.Some? ==> (key, r.value) in kwargs
    ensures r.None? ==> forall e :: e in kwargs ==> e.0 != key
  {
    if kwargs == [] then None
    else if kwargs[0].0 == key then Some(kwargs[0].1)
    else Lookup(kwargs[1..], key)
  }

  /** The entries whose key is not `key`. */
  function OtherKey(key: string): ((string, string)) -> bool
  {
    (e: (string, string)) => e.0 != key
  }

  /** `kwargs.pop('mode', 'or')`: the mode, defaulting to `'or'`, and the keys left
      for compiling. */
  function PopMode(kwargs: Kwargs): (string, Kwargs)
  {
    (match Lookup(kwargs, "mode") case Some(m) => m case None => "or", Keep(kwargs, OtherKey("mode")))
  }

  /** What `select` does before it looks at any record: pop the mode, then compile
      the remaining keys. */
  function Plan(kwargs: Kwargs): Result<(string, seq<Triple>), SelectError>
  {
    var (mode, rest) := PopMode(kwargs);
    match Compile(rest)
    case Err(e) => Err(CompileFailed(e))
    case Ok(ts) => Ok((mode, ts))
  }

  /** `select(it, **kwargs)`. */
  function Selection(records: seq<Record>, kwargs: Kwargs): Result<seq<Record>, SelectError>
  {
    match Plan(kwargs)
    case Err(e) => Err(e)
    case Ok((mode, ts)) => Filter(records, mode, ts)
  }

  /** The key `mode` never reaches the compiler, whose input is the other keys in
      their order; the mode is its value, or `'or'` when it is absent. */
  lemma PopModeSpec(kwargs: Kwargs)
    ensures forall e :: e in PopMode(kwargs).1 ==> e.0 != "mode"
    ensures forall e :: e in kwargs && e.0 != "mode" ==> e in PopMode(kwargs).1
    ensures Lookup(kwargs, "mode").None? ==> PopMode(kwargs) == ("or", kwargs)
    ensures Lookup(kwargs, "mode").Some? ==> ("mode", PopMode(kwargs).0) in kwargs
  {
    KeepMembers(kwargs, OtherKey("mode"));
    if Lookup(kwargs, "mode").None? {
      KeepAll(kwargs, OtherKey("mode"));
    }
  }

  /** Unfolding `Filter` at position `i`. */
  lemma FilterFrom(records: seq<Record>, mode: string, ts: seq<Triple>, i: nat)
    requires i < |records|
    ensures Filter(records[i..], mode, ts) ==
      match Evaluate(records[i], mode, ts)
      case Err(e) => Err(e)
      case Ok(b) => Prepend(if b then [records[i]] else [], Filter(records[i + 1..], mode, ts))
  {
    assert records[i..][0] == records[i] && records[i..][1..] == records[i + 1..];
  }

  /** The loop of `select` over the records: append each one the selector accepts. */
  method KeepMatching(records: seq<Record>, mode: string, operators: seq<Triple>)
    returns (r: Result<seq<Record>, SelectError>)
    ensures r == Filter(records, mode, operators)
  {
    var elements: seq<Record> := [];
    var i := 0;
    assert records[i..] == records;
    assert Prepend(elements, Filter(records, mode, operators)) == Filter(records, mode, operators) by {
      if Filter(records, mode, operators).Ok? {
        assert elements + Filter(records, mode, operators).value == Filter(records, mode, operators).value;
      }
    }
    while i < |records|
      invariant 0 <= i <= |records|
      invariant Filter(records, mode, operators) == Prepend(elements, Filter(records[i..], mode, operators))
    {
      FilterFrom(records, mode, operators, i);
      var matched := Selector(records[i], mode, operators);
      if matched.Err? {
        return Err(matched.error);
      }
      var kept := if matched.value then [records[i]] else [];
      PrependTwice(elements, kept, Filter(records[i + 1..], mode, operators));
      elements := elements + kept;
      i := i + 1;
    }
    assert records[i..] == [] && elements + [] == elements;
    return Ok(elements);
  }

  /** `select`: pop the mode, compile the keys, then keep the records the selector
      accepts. */
  method Select(records: seq<Record>, kwargs: Kwargs) returns (r: Result<seq<Record>, SelectError>)
    ensures r == Selection(records, kwargs)
  {
    var (mode, rest) := PopMode(kwargs);
    var compiled := OperatorsReader(rest);
    if compiled.Err? {
      return Err(CompileFailed(compiled.error));
    }
    r := KeepMatching(records, mode, compiled.value);
  }

  /** A query made only of the mode key selects nothing under `'or'` and every
      record, in order, under any other mode. */
  lemma SelectEmptyQuery(records: seq<Record>, kwargs: Kwargs)
    requires forall e :: e in kwargs ==> e.0 == "mode"
    ensures Selection(records, kwargs) == Ok(if PopMode(kwargs).0 == "or" then [] else records)
  {
    KeepNone(kwargs, OtherKey("mode"));
    var mode := PopMode(kwargs).0;
    assert Plan(kwargs) == Ok((mode, []));
    FilterSpec(records, mode, []);
    if mode == "or" {
      KeepNone(records, Matcher(mode, []));
    } else {
      KeepAll(records, Matcher(mode, []));
    }
  }

  /** Selecting again with the same query changes nothing. */
  lemma SelectIdempotent(records: seq<Record>, kwargs: Kwargs)
    requires Selection(records, kwargs).Ok?
    ensures Selection(Selection(records, kwargs).value, kwargs) == Selection(records, kwargs)
  {
    var (mode, ts) := Plan(kwargs).value;
    var kept := Selection(records, kwargs).value;
    FilterSpec(records, mode, ts);
    KeepMembers(records, Matcher(mode, ts));
    assert forall el :: el in kept ==> Evaluate(el, mode, ts) == Ok(true);
    FilterSpec(kept, mode, ts);
    KeepIdempotent(records, Matcher(mode, ts));
  }

  /** Chaining two selections keeps, in their original order, exactly the records
      that match both queries. */
  lemma SelectChain(records: seq<Record>, first: Kwargs, second: Kwargs)
    requires Selection(records, first).Ok?
    requires Selection(Selection(records, first).value, second).Ok?
    ensures Plan(first).Ok? && Plan(second).Ok?
    ensures
      var (m1, t1) := Plan(first).value;
      var (m2, t2) := Plan(second).value;
      Selection(Selection(records, first).value, second).value == Keep(records, And(Matcher(m1, t1), Matcher(m2, t2)))
    ensures
      var (m1, t1) := Plan(first).value;
      var (m2, t2) := Plan(second).value;
      forall el :: el in Selection(Selection(records, first).value, second).value <==>
        el in records && Evaluate(el, m1, t1) == Ok(true) && Evaluate(el, m2, t2) == Ok(true)
  {
    var (m1, t1) := Plan(first).value;
    var (m2, t2) := Plan(second).value;
    var kept := Selection(records, first).value;
    FilterSpec(records, m1, t1);
    FilterSpec(kept, m2, t2);
    KeepKeep(records, Matcher(m1, t1), Matcher(m2, t2));
    var both := And(Matcher(m1, t1), Matcher(m2, t2));
    KeepMembers(records, both);
    assert forall el :: both(el) == (Evaluate(el, m1, t1) == Ok(true) && Evaluate(el, m2, t2) == Ok(true));
  }
}
