/** The predicate compiler (`operators_reader`): keyword keys of the form `field`
    or `field__op` become comparison triples `(op, field, target)`. */
module Compiler {
  import opened Wrappers
  import opened Strings
  import opened Comparators

  /** One compiled comparison: `op(record.get(field), target)`. */
  datatype Triple = Triple(op: Comparator, field: string, target: string)

  /** The two ways compiling a key fails: a token after `__` that names none of the
      six comparators (the source raises "Invalid Operator"), and a key that
      `split('__')` cuts into more than two parts (unpacking into `_kw, op` raises
      ValueError). */
  datatype CompileError = InvalidOperator(key: string) | UnpackMismatch(key: string)

  /** Keyword arguments in the order the caller wrote them. */
  type Kwargs = seq<(string, string)>

  const SEPARATOR := "__"

  /** The comparator and the field name one key stands for: with `__` in the key,
      its `split('__')` unpacked into a field and an operator name checked against
      the six names; without, the whole key with `eq`. */
  function ParseKey(key: string): (r: Result<(Comparator, string), CompileError>)
    ensures !Contains(key, SEPARATOR) ==> r == Ok((Eq, key))
    ensures r.Ok? && Contains(key, SEPARATOR) ==> key == r.value.1 + SEPARATOR + Name(r.value.0)
    ensures r.Ok? ==> !Contains(r.value.1, SEPARATOR)
    ensures r.Err? ==> Contains(key, SEPARATOR)
  {
    if !Contains(key, SEPARATOR) then Ok((Eq, key))
    else
      var parts := Split(key, SEPARATOR);
      SplitJoin(key, SEPARATOR);
      SplitPartsFree(key, SEPARATOR);
      if |parts| != 2 then Err(UnpackMismatch(key))
      else
        assert parts[0] in parts && Join(parts, SEPARATOR) == parts[0] + SEPARATOR + parts[1];
        match Named(parts[1])
        case None => Err(InvalidOperator(key))
        case Some(op) => Ok((op, parts[0]))
  }

  /** A field without `__` that does not end in `_`, followed by `__` and a
      comparator name, parses back into that comparator and field. */
  lemma ParseKeyRoundTrip(field: string, op: Comparator)
    requires !Contains(field, SEPARATOR)
    requires field == [] || field[|field| - 1] != '_'
    ensures ParseKey(field + SEPARATOR + Name(op)) == Ok((op, field))
  {
    NameHasNoUnderscore(op);
    NoUnderscoreNoSeparator(Name(op));
    SplitFieldToken(field, Name(op));
    NamedName(op);
  }

  lemma NoUnderscoreNoSeparator(token: string)
    requires '_' !in token
    ensures !Contains(token, SEPARATOR)
  {
    forall j | 0 <= j <= |token| - 2 ensures !OccursAt(token, SEPARATOR, j) {
      assert token[j] in token;
      assert token[j..j + 2][0] == token[j];
    }
  }

  /** In `field + "__" + token`, with `field` as in the round trip and `token` free
      of `__`, the first `__` is the one after `field` and the split has exactly the
      two parts. */
  lemma SplitFieldToken(field: string, token: string)
    requires !Contains(field, SEPARATOR)
    requires field == [] || field[|field| - 1] != '_'
    requires !Contains(token, SEPARATOR)
    ensures Split(field + SEPARATOR + token, SEPARATOR) == [field, token]
  {
    var key := field + SEPARATOR + token;
    FirstAfterField(field, token);
    SplitAt(key, SEPARATOR, |field|);
    assert key[..|field|] == field;
    assert key[|field| + 2..] == token;
    SplitOnePart(token, SEPARATOR);
  }

  /** The first `__` in `field + "__" + token` starts right after `field`. */
  lemma FirstAfterField(field: string, token: string)
    requires !Contains(field, SEPARATOR)
    requires field == [] || field[|field| - 1] != '_'
    ensures FirstOccurrence(field + SEPARATOR + token, SEPARATOR, 0) == Some(|field|)
  {
    var key := field + SEPARATOR + token;
    assert OccursAt(key, SEPARATOR, |field|) by {
      assert key[|field|..|field| + 2] == SEPARATOR;
    }
    forall j | 0 <= j < |field|
      ensures !OccursAt(key, SEPARATOR, j)
    {
      if j + 2 <= |field| {
        assert field[j..j + 2] == key[j..j + 2];
        assert !OccursAt(field, SEPARATOR, j);
      } else {
        assert key[j] == field[|field| - 1];
        assert key[j..j + 2][0] == key[j];
      }
    }
    var first := FirstOccurrence(key, SEPARATOR, 0);
    FirstOccurrenceLeftmost(key, SEPARATOR, 0);
    assert first.Some?;
  }

  /** A key `field__token` whose token is no comparator name is rejected as
      "Invalid Operator"; this includes the empty token of `a__`. */
  lemma ParseKeyRejects(field: string, token: string)
    requires !Contains(field, SEPARATOR)
    requires field == [] || field[|field| - 1] != '_'
    requires !Contains(token, SEPARATOR)
    requires Named(token).None?
    ensures ParseKey(field + SEPARATOR + token) == Err(InvalidOperator(field + SEPARATOR + token))
  {
    SplitFieldToken(field, token);
  }

  /** A key holding two separate `__` separators cannot be unpacked into a field
      and an operator, whatever surrounds them. */
  lemma ParseKeyTwoSeparators(key: string, i: nat, j: nat)
    requires OccursAt(key, SEPARATOR, i) && OccursAt(key, SEPARATOR, j) && i + 2 <= j
    ensures ParseKey(key) == Err(UnpackMismatch(key))
  {
    SplitTwoOccurrences(key, SEPARATOR, i, j);
  }

  /** The key list as a whole: one triple per key, in key order, or the error of
      the first key that does not parse, with no partial list. */
  function Compile(kwargs: Kwargs): Result<seq<Triple>, CompileError>
  {
    if kwargs == [] then Ok([])
    else
      match ParseKey(kwargs[0].0)
      case Err(e) => Err(e)
      case Ok(parsed) => Prepend([Triple(parsed.0, parsed.1, kwargs[0].1)], Compile(kwargs[1..]))
  }

  /** Compilation succeeds exactly when every key parses; it then gives, at each
      position, the parsed comparator and field of that key with its value as the
      target. Otherwise it reports the error of the first key that fails. */
  lemma {:induction false} CompileSpec(kwargs: Kwargs)
    ensures Compile(kwargs).Ok? <==> forall i :: 0 <= i < |kwargs| ==> ParseKey(kwargs[i].0).Ok?
    ensures Compile(kwargs).Ok? ==>
      |Compile(kwargs).value| == |kwargs| &&
      forall i :: 0 <= i < |kwargs| ==>
        Compile(kwargs).value[i] ==
          Triple(ParseKey(kwargs[i].0).value.0, ParseKey(kwargs[i].0).value.1, kwargs[i].1)
    ensures Compile(kwargs).Err? ==>
      exists i :: 0 <= i < |kwargs| && ParseKey(kwargs[i].0) == Err(Compile(kwargs).error) &&
        forall j :: 0 <= j < i ==> ParseKey(kwargs[j].0).Ok?
  {
    if kwargs != [] {
      CompileSpec(kwargs[1..]);
      var head := ParseKey(kwargs[0].0);
      if head.Ok? && Compile(kwargs[1..]).Err? {
        var i :| 0 < i + 1 <= |kwargs[1..]| && ParseKey(kwargs[1..][i].0) == Err(Compile(kwargs[1..]).error) &&
          forall j :: 0 <= j < i ==> ParseKey(kwargs[1..][j].0).Ok?;
        assert ParseKey(kwargs[i + 1].0) == Err(Compile(kwargs).error);
        assert forall j :: 0 <= j < i + 1 ==> ParseKey(kwargs[j].0).Ok? by {
          forall j | 0 < j < i + 1 ensures ParseKey(kwargs[j].0).Ok? {
            assert kwargs[j] == kwargs[1..][j - 1];
          }
        }
      }
      if head.Err? {
        assert ParseKey(kwargs[0].0) == Err(Compile(kwargs).error);
      }
    }
  }

  /** Unfolding `Compile` on the keys from position `i` on. */
  lemma CompileFrom(kwargs: Kwargs, i: nat)
    requires i < |kwargs|
    ensures Compile(kwargs[i..]) ==
      match ParseKey(kwargs[i].0)
      case Err(e) => Err(e)
      case Ok(parsed) => Prepend([Triple(parsed.0, parsed.1, kwargs[i].1)], Compile(kwargs[i + 1..]))
  {
    assert kwargs[i..][0] == kwargs[i] && kwargs[i..][1..] == kwargs[i + 1..];
  }

  /** `operators_reader`: walks the keys in order, appending one triple per key, and
      raises on the first key it cannot compile. */
  method OperatorsReader(kwargs: Kwargs) returns (r: Result<seq<Triple>, CompileError>)
    ensures r == Compile(kwargs)
  {
    var operators: seq<Triple> := [];
    var i := 0;
    assert kwargs[i..] == kwargs;
    assert Prepend(operators, Compile(kwargs)) == Compile(kwargs) by {
      if Compile(kwargs).Ok? {
        assert operators + Compile(kwargs).value == Compile(kwargs).value;
      }
    }
    while i < |kwargs|
      invariant 0 <= i <= |kwargs|
      invariant Compile(kwargs) == Prepend(operators, Compile(kwargs[i..]))
    {
      var (kw, value) := kwargs[i];
      CompileFrom(kwargs, i);
      var op: Comparator, field: string;
      if Contains(kw, SEPARATOR) {
        var parts := Split(kw, SEPARATOR);
        if |parts| != 2 {
          return Err(UnpackMismatch(kw));
        }
        var named := Named(parts[1]);
        if named.None? {
          return Err(InvalidOperator(kw));
        }
        op, field := named.value, parts[0];
      } else {
        op, field := Eq, kw;
      }
      assert ParseKey(kw) == Ok((op, field));
      PrependTwice(operators, [Triple(op, field, value)], Compile(kwargs[i + 1..]));
      operators := operators + [Triple(op, field, value)];
      i := i + 1;
    }
    assert kwargs[i..] == [] && operators + [] == operators;
    return Ok(operators);
  }
}
