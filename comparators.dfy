/** The six comparison functions of Python's `operator` module that a query
    key may name, applied as `op(record.get(field), target)`. */
module Comparators {
  import opened Wrappers
  import opened Strings

  datatype Comparator = Lt | Le | Eq | Ne | Ge | Gt

  /** The name `getattr(operator, name)` looks up. */
  function Name(op: Comparator): string
  {
    match op
    case Lt => "lt"
    case Le => "le"
    case Eq => "eq"
    case Ne => "ne"
    case Ge => "ge"
    case Gt => "gt"
  }

  /** The comparator a token after `__` names, or None when the token is not one of
      `lt, le, eq, ne, ge, gt`. */
  function Named(token: string): (r: Option<Comparator>)
    ensures r.Some? <==> token in ["lt", "le", "eq", "ne", "ge", "gt"]
    ensures r.Some? ==> Name(r.value) == token
  {
    if token == "lt" then Some(Lt)
    else if token == "le" then Some(Le)
    else if token == "eq" then Some(Eq)
    else if token == "ne" then Some(Ne)
    else if token == "ge" then Some(Ge)
    else if token == "gt" then Some(Gt)
    else None
  }

  /** The lookup by name inverts `Name`. */
  lemma NamedName(op: Comparator)
    ensures Named(Name(op)) == Some(op)
  {
  }

  /** No comparator name contains an underscore. */
  lemma NameHasNoUnderscore(op: Comparator)
    ensures '_' !in Name(op)
  {
  }

  /** `op(left, right)` where `left` is `record.get(field)`: None when the field is
      missing. Equality and inequality with a missing value are False and True; the
      four orderings raise TypeError for it, given here as None. Two present
      strings compare lexicographically. */
  function Compare(op: Comparator, left: Option<string>, right: string): (r: Option<bool>)
    ensures left.None? ==> (r.Some? <==> op == Eq || op == Ne)
    ensures left.None? && r.Some? ==> r.value == (op == Ne)
    ensures left.Some? ==> r.Some?
    ensures left.Some? && op == Eq ==> r.value == (left.value == right)
  {
    match left
    case None =>
      if op == Eq then Some(false)
      else if op == Ne then Some(true)
      else None
    case Some(s) =>
      match op
      case Lt => Some(LexLess(s, right))
      case Le => Some(LexLess(s, right) || s == right)
      case Eq => Some(s == right)
      case Ne => Some(s != right)
      case Ge => Some(LexLess(right, s) || s == right)
      case Gt => Some(LexLess(right, s))
  }

  /** On a present value, `ne`, `ge` and `gt` are the negations of `eq`, `lt` and
      `le`, and exactly one of `lt`, `eq`, `gt` holds. */
  lemma CompareComplements(s: string, t: string)
    ensures Compare(Ne, Some(s), t).value == !Compare(Eq, Some(s), t).value
    ensures Compare(Ge, Some(s), t).value == !Compare(Lt, Some(s), t).value
    ensures Compare(Gt, Some(s), t).value == !Compare(Le, Some(s), t).value
    ensures (if Compare(Lt, Some(s), t).value then 1 else 0)
          + (if Compare(Eq, Some(s), t).value then 1 else 0)
          + (if Compare(Gt, Some(s), t).value then 1 else 0) == 1
  {
    LexTrichotomy(s, t);
  }

  /** Swapping the operands swaps `lt` with `gt` and `le` with `ge`. */
  lemma CompareConverse(s: string, t: string)
    ensures Compare(Lt, Some(s), t) == Compare(Gt, Some(t), s)
    ensures Compare(Le, Some(s), t) == Compare(Ge, Some(t), s)
  {
  }

  /** `le` is transitive, as an order on strings must be. */
  lemma CompareLeTransitive(a: string, b: string, c: string)
    requires Compare(Le, Some(a), b) == Some(true) && Compare(Le, Some(b), c) == Some(true)
    ensures Compare(Le, Some(a), c) == Some(true)
  {
    if LexLess(a, b) && LexLess(b, c) {
      LexTransitive(a, b, c);
    }
  }
}
