/** Bounding the output of a tool, however it is nested. */
module OutputBounds {
  import opened Options

  /** A tool output.  `Scalar` is a number or truth value with its printed form, `Null` prints as None. */
  datatype Value =
    | Null
    | Scalar(printed: string)
    | Text(text: string)
    | List(items: seq<Value>)
    | Tuple(items: seq<Value>)
    | Dict(fields: seq<Field>)

  datatype Field = Field(key: string, value: Value)

  const MAX_DEPTH := 16
  const RESERVE := 16
  const OVERHEAD := 4
  const NONE_CHARS := 4

  /** A bounded value with what is left of the budget and whether anything was lost. */
  datatype Bounded<V> = Bounded(value: V, remaining: int, truncated: bool)

  function Bound(v: Value, depth: nat, remaining: int): Bounded<Value>
    decreases v, 0
  {
    if remaining < RESERVE || depth > MAX_DEPTH then Bounded(Null, remaining, true)
    else
      var left := remaining - OVERHEAD;
      match v
      case Text(s) =>
        var kept := s[..Min(|s|, left)];
        Bounded(Text(kept), left - |kept|, |kept| < |s|)
      case Dict(fields) =>
        var r := BoundFields(fields, depth, left);
        Bounded(Dict(r.value), r.remaining, r.truncated)
      case List(items) =>
        var r := BoundItems(items, depth, left);
        Bounded(List(r.value), r.remaining, r.truncated)
      case Tuple(items) =>
        var r := BoundItems(items, depth, left);
        Bounded(List(r.value), r.remaining, r.truncated)
      case Scalar(printed) => Bounded(v, left - |printed|, false)
      case Null => Bounded(v, left - NONE_CHARS, false)
  }

  function BoundItems(items: seq<Value>, depth: nat, remaining: int): Bounded<seq<Value>>
    decreases items, 1
  {
    if items == [] then Bounded([], remaining, false)
    else if remaining < RESERVE then Bounded([], remaining, true)
    else
      var first := Bound(items[0], depth + 1, remaining);
      var rest := BoundItems(items[1..], depth, first.remaining);
      Bounded([first.value] + rest.value, rest.remaining, first.truncated || rest.truncated)
  }

  function BoundFields(fields: seq<Field>, depth: nat, remaining: int): Bounded<seq<Field>>
    decreases fields, 1
  {
    if fields == [] then Bounded([], remaining, false)
    else if remaining < |fields[0].key| + RESERVE then Bounded([], remaining, true)
    else
      var first := Bound(fields[0].value, depth + 1, remaining - |fields[0].key| - OVERHEAD);
      var rest := BoundFields(fields[1..], depth, first.remaining);
      Bounded([Field(fields[0].key, first.value)] + rest.value, rest.remaining, first.truncated || rest.truncated)
  }

  /** One turn of each loop, as an unfolding. */
  lemma ItemsTurn(items: seq<Value>, n: nat, depth: nat, remaining: int)
    requires n < |items|
    ensures var b := BoundItems(items[n..], depth, remaining);
            if remaining < RESERVE then b == Bounded([], remaining, true)
            else
              var first := Bound(items[n], depth + 1, remaining);
              var rest := BoundItems(items[n + 1..], depth, first.remaining);
              b == Bounded([first.value] + rest.value, rest.remaining, first.truncated || rest.truncated)
  {
    hide Bound;
    assert items[n..][0] == items[n] && items[n..][1..] == items[n + 1..];
  }

  lemma FieldsTurn(fields: seq<Field>, n: nat, depth: nat, remaining: int)
    requires n < |fields|
    ensures var b, key := BoundFields(fields[n..], depth, remaining), fields[n].key;
            if remaining < |key| + RESERVE then b == Bounded([], remaining, true)
            else
              var first := Bound(fields[n].value, depth + 1, remaining - |key| - OVERHEAD);
              var rest := BoundFields(fields[n + 1..], depth, first.remaining);
              b == Bounded([Field(key, first.value)] + rest.value, rest.remaining, first.truncated || rest.truncated)
  {
    hide Bound;
    assert fields[n..][0] == fields[n] && fields[n..][1..] == fields[n + 1..];
  }

  lemma NothingToBound(depth: nat, remaining: int)
    ensures BoundItems([], depth, remaining) == Bounded([], remaining, false)
    ensures BoundFields([], depth, remaining) == Bounded([], remaining, false)
  {
  }

  // ----- the recursive procedure with its shared budget -----

  class Limiter {
    var remaining: int
    var truncated: bool

    constructor (maxChars: int)
      ensures remaining == maxChars && !truncated
    {
      remaining, truncated := maxChars, false;
    }

    method Reduce(v: Value, depth: nat) returns (r: Value)
      modifies this
      ensures var b := Bound(v, depth, old(remaining));
              r == b.value && remaining == b.remaining && truncated == (old(truncated) || b.truncated)
      decreases v, 0
    {
      hide BoundItems, BoundFields;
      if remaining < RESERVE || depth > MAX_DEPTH {
        truncated := true;
        return Null;
      }
      remaining := remaining - OVERHEAD;
      match v {
        case Text(s) =>
          var kept := s[..Min(|s|, remaining)];
          truncated := truncated || |kept| < |s|;
          remaining := remaining - |kept|;
          r := Text(kept);
        case Dict(fields) =>
          var kept := ReduceFields(fields, depth);
          r := Dict(kept);
        case List(items) =>
          var kept := ReduceItems(items, depth);
          r := List(kept);
        case Tuple(items) =>
          var kept := ReduceItems(items, depth);
          r := List(kept);
        case Scalar(printed) =>
          remaining := remaining - |printed|;
          r := v;
        case Null =>
          remaining := remaining - NONE_CHARS;
          r := v;
      }
    }

    method ReduceItems(items: seq<Value>, depth: nat) returns (r: seq<Value>)
      modifies this
      ensures var b := BoundItems(items, depth, old(remaining));
              r == b.value && remaining == b.remaining && truncated == (old(truncated) || b.truncated)
      decreases items, 1
    {
      hide Bound, BoundItems;
      r := [];
      assert items[0..] == items;
      for n := 0 to |items|
        invariant var b, rest := BoundItems(items, depth, old(remaining)), BoundItems(items[n..], depth, remaining);
                  && b.value == r + rest.value && b.remaining == rest.remaining
                  && (old(truncated) || b.truncated) == (truncated || rest.truncated)
      {
        ItemsTurn(items, n, depth, remaining);
        if remaining < RESERVE {
          truncated := true;
          return;
        }
        var item := Reduce(items[n], depth + 1);
        r := r + [item];
      }
      NothingToBound(depth, remaining);
      assert items[|items|..] == [];
    }

    method ReduceFields(fields: seq<Field>, depth: nat) returns (r: seq<Field>)
      modifies this
      ensures var b := BoundFields(fields, depth, old(remaining));
              r == b.value && remaining == b.remaining && truncated == (old(truncated) || b.truncated)
      decreases fields, 1
    {
      hide Bound, BoundFields;
      r := [];
      assert fields[0..] == fields;
      for n := 0 to |fields|
        invariant var b, rest := BoundFields(fields, depth, old(remaining)), BoundFields(fields[n..], depth, remaining);
                  && b.value == r + rest.value && b.remaining == rest.remaining
                  && (old(truncated) || b.truncated) == (truncated || rest.truncated)
      {
        FieldsTurn(fields, n, depth, remaining);
        var key := fields[n].key;
        if remaining < |key| + RESERVE {
          truncated := true;
          return;
        }
        remaining := remaining - |key| - OVERHEAD;
        var value := Reduce(fields[n].value, depth + 1);
        r := r + [Field(key, value)];
      }
      NothingToBound(depth, remaining);
      assert fields[|fields|..] == [];
    }
  }

  // ----- what bounding guarantees -----

  /** Characters of all texts and keys. */
  function Chars(v: Value): nat {
    match v
    case Text(s) => |s|
    case List(items) => CharsOfItems(items)
    case Tuple(items) => CharsOfItems(items)
    case Dict(fields) => CharsOfFields(fields)
    case _ => 0
  }

  function CharsOfItems(items: seq<Value>): nat {
    if items == [] then 0 else Chars(items[0]) + CharsOfItems(items[1..])
  }

  function CharsOfFields(fields: seq<Field>): nat {
    if fields == [] then 0 else |fields[0].key| + Chars(fields[0].value) + CharsOfFields(fields[1..])
  }

  /** How deeply containers are nested. */
  predicate Within(v: Value, levels: int) {
    match v
    case List(items) => levels > 0 && forall x :: x in items ==> Within(x, levels - 1)
    case Tuple(items) => levels > 0 && forall x :: x in items ==> Within(x, levels - 1)
    case Dict(fields) => levels > 0 && forall f :: f in fields ==> Within(f.value, levels - 1)
    case _ => true
  }

  /** The value with tuples as lists. */
  function Listed(v: Value): Value {
    match v
    case List(items) => List(ListedItems(items))
    case Tuple(items) => List(ListedItems(items))
    case Dict(fields) => Dict(ListedFields(fields))
    case _ => v
  }

  function ListedItems(items: seq<Value>): seq<Value> {
    if items == [] then [] else [Listed(items[0])] + ListedItems(items[1..])
  }

  function ListedFields(fields: seq<Field>): seq<Field> {
    if fields == [] then [] else [Field(fields[0].key, Listed(fields[0].value))] + ListedFields(fields[1..])
  }

  /** What the characters kept cost: never more than was taken from the budget, nor than it held. */
  predicate Affordable(chars: nat, before: int, after: int) {
    && chars <= Max(before, 0)
    && chars + after <= before
  }

  lemma {:induction false} BoundAffordable(v: Value, depth: nat, remaining: int)
    ensures var b := Bound(v, depth, remaining); Affordable(Chars(b.value), remaining, b.remaining)
    decreases v, 0
  {
    hide BoundItems, BoundFields, CharsOfItems, CharsOfFields;
    if remaining >= RESERVE && depth <= MAX_DEPTH {
      match v
      case List(items) => ItemsAffordable(items, depth, remaining - OVERHEAD);
      case Tuple(items) => ItemsAffordable(items, depth, remaining - OVERHEAD);
      case Dict(fields) => FieldsAffordable(fields, depth, remaining - OVERHEAD);
      case _ =>
    }
  }

  lemma {:induction false} ItemsAffordable(items: seq<Value>, depth: nat, remaining: int)
    ensures var b := BoundItems(items, depth, remaining); Affordable(CharsOfItems(b.value), remaining, b.remaining)
    decreases items, 1
  {
    hide Bound, Chars;
    if items != [] && remaining >= RESERVE {
      var first := Bound(items[0], depth + 1, remaining);
      BoundAffordable(items[0], depth + 1, remaining);
      ItemsAffordable(items[1..], depth, first.remaining);
    }
  }

  lemma {:induction false} FieldsAffordable(fields: seq<Field>, depth: nat, remaining: int)
    ensures var b := BoundFields(fields, depth, remaining); Affordable(CharsOfFields(b.value), remaining, b.remaining)
    decreases fields, 1
  {
    hide Bound, Chars;
    if fields != [] && remaining >= |fields[0].key| + RESERVE {
      var left := remaining - |fields[0].key| - OVERHEAD;
      var first := Bound(fields[0].value, depth + 1, left);
      BoundAffordable(fields[0].value, depth + 1, left);
      FieldsAffordable(fields[1..], depth, first.remaining);
    }
  }

  lemma {:induction false} BoundShallow(v: Value, depth: nat, remaining: int)
    requires depth <= MAX_DEPTH + 1
    ensures Within(Bound(v, depth, remaining).value, MAX_DEPTH + 1 - depth)
    decreases v, 0
  {
    hide BoundItems, BoundFields;
    if remaining >= RESERVE && depth <= MAX_DEPTH {
      match v
      case List(items) => ItemsShallow(items, depth, remaining - OVERHEAD);
      case Tuple(items) => ItemsShallow(items, depth, remaining - OVERHEAD);
      case Dict(fields) => FieldsShallow(fields, depth, remaining - OVERHEAD);
      case _ =>
    }
  }

  lemma {:induction false} ItemsShallow(items: seq<Value>, depth: nat, remaining: int)
    requires depth <= MAX_DEPTH
    ensures forall x :: x in BoundItems(items, depth, remaining).value ==> Within(x, MAX_DEPTH - depth)
    decreases items, 1
  {
    hide Bound, Within;
    if items != [] && remaining >= RESERVE {
      BoundShallow(items[0], depth + 1, remaining);
      ItemsShallow(items[1..], depth, Bound(items[0], depth + 1, remaining).remaining);
    }
  }

  lemma {:induction false} FieldsShallow(fields: seq<Field>, depth: nat, remaining: int)
    requires depth <= MAX_DEPTH
    ensures forall f :: f in BoundFields(fields, depth, remaining).value ==> Within(f.value, MAX_DEPTH - depth)
    decreases fields, 1
  {
    hide Bound, Within;
    if fields != [] && remaining >= |fields[0].key| + RESERVE {
      var left := remaining - |fields[0].key| - OVERHEAD;
      BoundShallow(fields[0].value, depth + 1, left);
      FieldsShallow(fields[1..], depth, Bound(fields[0].value, depth + 1, left).remaining);
    }
  }

  lemma {:induction false} BoundFaithful(v: Value, depth: nat, remaining: int)
    ensures var b := Bound(v, depth, remaining); !b.truncated ==> b.value == Listed(v)
    decreases v, 0
  {
    hide BoundItems, BoundFields, ListedItems, ListedFields;
    if remaining >= RESERVE && depth <= MAX_DEPTH {
      match v
      case List(items) => ItemsFaithful(items, depth, remaining - OVERHEAD);
      case Tuple(items) => ItemsFaithful(items, depth, remaining - OVERHEAD);
      case Dict(fields) => FieldsFaithful(fields, depth, remaining - OVERHEAD);
      case _ =>
    }
  }

  lemma {:induction false} ItemsFaithful(items: seq<Value>, depth: nat, remaining: int)
    ensures var b := BoundItems(items, depth, remaining); !b.truncated ==> b.value == ListedItems(items)
    decreases items, 1
  {
    hide Bound, Listed;
    if items != [] && remaining >= RESERVE {
      BoundFaithful(items[0], depth + 1, remaining);
      ItemsFaithful(items[1..], depth, Bound(items[0], depth + 1, remaining).remaining);
    }
  }

  lemma {:induction false} FieldsFaithful(fields: seq<Field>, depth: nat, remaining: int)
    ensures var b := BoundFields(fields, depth, remaining); !b.truncated ==> b.value == ListedFields(fields)
    decreases fields, 1
  {
    hide Bound, Listed;
    if fields != [] && remaining >= |fields[0].key| + RESERVE {
      var left := remaining - |fields[0].key| - OVERHEAD;
      BoundFaithful(fields[0].value, depth + 1, left);
      FieldsFaithful(fields[1..], depth, Bound(fields[0].value, depth + 1, left).remaining);
    }
  }

  /** For every value and limit: the texts and keys that remain have at most `limit` characters, nesting is
      at most seventeen containers deep, and an output reported as complete is the input with its tuples
      as lists. */
  lemma OutputWithinLimit(v: Value, limit: nat)
    ensures var b := Bound(v, 0, limit);
            && Chars(b.value) <= limit
            && Within(b.value, MAX_DEPTH + 1)
            && (!b.truncated ==> b.value == Listed(v))
  {
    BoundAffordable(v, 0, limit);
    BoundShallow(v, 0, limit);
    BoundFaithful(v, 0, limit);
  }

  // ----- what is kept -----

  /** `w` is `v` with texts cut at their end, lists and dictionaries cut behind some element, and parts replaced by
      nothing; tuples are lists. */
  predicate PartOf(w: Value, v: Value)
    decreases v, 0
  {
    w == Null ||
    match v
    case Text(s) => w.Text? && w.text <= s
    case List(items) => w.List? && PartOfItems(w.items, items)
    case Tuple(items) => w.List? && PartOfItems(w.items, items)
    case Dict(fields) => w.Dict? && PartOfFields(w.fields, fields)
    case _ => w == v
  }

  predicate PartOfItems(ws: seq<Value>, vs: seq<Value>)
    decreases vs, 1
  {
    ws == [] || (vs != [] && PartOf(ws[0], vs[0]) && PartOfItems(ws[1..], vs[1..]))
  }

  predicate PartOfFields(ws: seq<Field>, vs: seq<Field>)
    decreases vs, 1
  {
    ws == [] || (vs != [] && ws[0].key == vs[0].key && PartOf(ws[0].value, vs[0].value) && PartOfFields(ws[1..], vs[1..]))
  }

  /** What a value costs in full: four characters for each part and each key, and its texts, keys and numbers. */
  function Cost(v: Value): nat
    decreases v, 0
  {
    4 + match v
        case Null => 4
        case Scalar(printed) => |printed|
        case Text(s) => |s|
        case List(items) => CostOfItems(items)
        case Tuple(items) => CostOfItems(items)
        case Dict(fields) => CostOfFields(fields)
  }

  function CostOfItems(items: seq<Value>): nat
    decreases items, 1
  {
    if items == [] then 0 else Cost(items[0]) + CostOfItems(items[1..])
  }

  function CostOfFields(fields: seq<Field>): nat
    decreases fields, 1
  {
    if fields == [] then 0 else |fields[0].key| + 4 + Cost(fields[0].value) + CostOfFields(fields[1..])
  }

  /** Nothing lies deeper than `levels` below the value, and no key is longer than `longest`. */
  predicate Moderate(v: Value, levels: int, longest: nat)
    decreases v, 0
  {
    levels >= 0 &&
    match v
    case List(items) => ModerateItems(items, levels - 1, longest)
    case Tuple(items) => ModerateItems(items, levels - 1, longest)
    case Dict(fields) => ModerateFields(fields, levels - 1, longest)
    case _ => true
  }

  predicate ModerateItems(items: seq<Value>, levels: int, longest: nat)
    decreases items, 1
  {
    items == [] || (Moderate(items[0], levels, longest) && ModerateItems(items[1..], levels, longest))
  }

  predicate ModerateFields(fields: seq<Field>, levels: int, longest: nat)
    decreases fields, 1
  {
    fields == [] ||
    (|fields[0].key| <= longest && Moderate(fields[0].value, levels, longest) && ModerateFields(fields[1..], levels, longest))
  }

  lemma LeafIsPart(v: Value, depth: nat, remaining: int)
    requires !v.List? && !v.Tuple? && !v.Dict?
    ensures PartOf(Bound(v, depth, remaining).value, v)
  {
    hide BoundItems, BoundFields, PartOfItems, PartOfFields;
  }

  lemma {:induction false} BoundIsPart(v: Value, depth: nat, remaining: int)
    ensures PartOf(Bound(v, depth, remaining).value, v)
    decreases v, 0
  {
    hide BoundItems, BoundFields, PartOfItems, PartOfFields;
    if remaining >= RESERVE && depth <= MAX_DEPTH {
      match v
      case List(items) => ItemsArePart(items, depth, remaining - OVERHEAD);
      case Tuple(items) => ItemsArePart(items, depth, remaining - OVERHEAD);
      case Dict(fields) => FieldsArePart(fields, depth, remaining - OVERHEAD);
      case _ => LeafIsPart(v, depth, remaining);
    }
  }

  lemma {:induction false} ItemsArePart(items: seq<Value>, depth: nat, remaining: int)
    ensures PartOfItems(BoundItems(items, depth, remaining).value, items)
    decreases items, 1
  {
    hide Bound, PartOf;
    if items != [] && remaining >= RESERVE {
      var first := Bound(items[0], depth + 1, remaining);
      BoundIsPart(items[0], depth + 1, remaining);
      ItemsArePart(items[1..], depth, first.remaining);
      var rest := BoundItems(items[1..], depth, first.remaining).value;
      assert ([first.value] + rest)[1..] == rest;
    }
  }

  lemma {:induction false} FieldsArePart(fields: seq<Field>, depth: nat, remaining: int)
    ensures PartOfFields(BoundFields(fields, depth, remaining).value, fields)
    decreases fields, 1
  {
    hide Bound, PartOf;
    if fields != [] && remaining >= |fields[0].key| + RESERVE {
      var left := remaining - |fields[0].key| - OVERHEAD;
      var first := Bound(fields[0].value, depth + 1, left);
      BoundIsPart(fields[0].value, depth + 1, left);
      FieldsArePart(fields[1..], depth, first.remaining);
      var rest := BoundFields(fields[1..], depth, first.remaining).value;
      assert ([Field(fields[0].key, first.value)] + rest)[1..] == rest;
    }
  }

  /** How the budget is spent: an unflagged value cost exactly what it costs in full; a value that fits with sixteen
      characters to spare is never flagged; and a flagged one left less than sixteen characters and a key. */
  predicate Spent(truncated: bool, cost: nat, before: int, after: int, longest: nat) {
    && (!truncated ==> after == before - cost)
    && (truncated ==> before < cost + 16 && after < 16 + longest)
  }

  lemma {:induction false} BoundSpends(v: Value, depth: nat, remaining: int, longest: nat)
    requires Moderate(v, MAX_DEPTH - depth, longest)
    ensures var b := Bound(v, depth, remaining); Spent(b.truncated, Cost(v), remaining, b.remaining, longest)
    decreases v, 0
  {
    if remaining >= RESERVE && depth <= MAX_DEPTH {
      hide BoundItems, BoundFields, CostOfItems, CostOfFields, ModerateItems, ModerateFields;
      match v
      case List(items) => ItemsSpend(items, depth, remaining - OVERHEAD, longest);
      case Tuple(items) => ItemsSpend(items, depth, remaining - OVERHEAD, longest);
      case Dict(fields) => FieldsSpend(fields, depth, remaining - OVERHEAD, longest);
      case _ =>
    }
  }

  lemma {:induction false} ItemsSpend(items: seq<Value>, depth: nat, remaining: int, longest: nat)
    requires ModerateItems(items, MAX_DEPTH - depth - 1, longest)
    ensures var b := BoundItems(items, depth, remaining); Spent(b.truncated, CostOfItems(items), remaining, b.remaining, longest)
    decreases items, 1
  {
    hide Bound, Cost, Moderate, Chars, CharsOfItems;
    if items != [] && remaining >= RESERVE {
      var first := Bound(items[0], depth + 1, remaining);
      BoundSpends(items[0], depth + 1, remaining, longest);
      ItemsSpend(items[1..], depth, first.remaining, longest);
      ItemsAffordable(items[1..], depth, first.remaining);
      BoundAffordable(items[0], depth + 1, remaining);
    }
  }

  lemma {:induction false} FieldsSpend(fields: seq<Field>, depth: nat, remaining: int, longest: nat)
    requires ModerateFields(fields, MAX_DEPTH - depth - 1, longest)
    ensures var b := BoundFields(fields, depth, remaining); Spent(b.truncated, CostOfFields(fields), remaining, b.remaining, longest)
    decreases fields, 1
  {
    hide Bound, Cost, Moderate, Chars, CharsOfFields;
    if fields != [] && remaining >= |fields[0].key| + RESERVE {
      var left := remaining - |fields[0].key| - OVERHEAD;
      var first := Bound(fields[0].value, depth + 1, left);
      BoundSpends(fields[0].value, depth + 1, left, longest);
      FieldsSpend(fields[1..], depth, first.remaining, longest);
      FieldsAffordable(fields[1..], depth, first.remaining);
      BoundAffordable(fields[0].value, depth + 1, left);
    }
  }

  /** What is kept is a part of the output: all of it whenever it is nested at most sixteen deep and fits with sixteen
      characters to spare, and never less than the limit forces, up to sixteen characters and one key. */
  lemma KeptMeaning(v: Value, limit: nat, longest: nat)
    ensures var b := Bound(v, 0, limit);
            && PartOf(b.value, v)
            && (Moderate(v, 16, longest) ==>
                  && (Cost(v) + 16 <= limit ==> b.value == Listed(v) && !b.truncated)
                  && (b.truncated ==> b.remaining < 16 + longest)
                  && (!b.truncated ==> b.remaining == limit - Cost(v)))
  {
    hide Bound, PartOf, Moderate, Cost, Listed;
    BoundIsPart(v, 0, limit);
    BoundFaithful(v, 0, limit);
    if Moderate(v, 16, longest) {
      BoundSpends(v, 0, limit, longest);
    }
  }

  // ----- the limited output with its markers -----

  const TRUE := Scalar("True")

  function Get(fields: seq<Field>, key: string): Option<Value> {
    if fields == [] then None
    else if fields[0].key == key then Some(fields[0].value)
    else Get(fields[1..], key)
  }

  /** Assigning an entry of a dictionary: in place if the key exists, at the end otherwise. */
  function Set(fields: seq<Field>, key: string, value: Value): seq<Field> {
    if fields == [] then [Field(key, value)]
    else if fields[0].key == key then [Field(key, value)] + fields[1..]
    else [fields[0]] + Set(fields[1..], key, value)
  }

  function FieldsOf(v: Value): seq<Field> {
    if v.Dict? then v.fields else []
  }

  predicate FlagSet(v: Value) {
    Get(FieldsOf(v), "isError") == Some(TRUE)
  }

  /** The error outputs of a tool server: flagged themselves or in their raw part. */
  predicate IsErrorOutput(v: Value) {
    || FlagSet(v)
    || (Get(FieldsOf(v), "raw").Some? && FlagSet(Get(FieldsOf(v), "raw").value))
  }

  function LimitOutput(v: Value, limit: nat): Value {
    if v.Text? then Text(v.text[..Min(|v.text|, limit)])
    else
      var b := Bound(v, 0, limit);
      if !b.truncated then b.value
      else
        var fields := if b.value.Dict? then b.value.fields else [Field("content", b.value)];
        var marked := Set(fields, "_truncated", TRUE);
        Dict(if IsErrorOutput(v) then Set(marked, "isError", TRUE) else marked)
  }

  method LimitToolOutput(v: Value, limit: nat) returns (r: Value)
    ensures r == LimitOutput(v, limit)
  {
    if v.Text? {
      return Text(v.text[..Min(|v.text|, limit)]);
    }
    var limiter := new Limiter(limit);
    r := limiter.Reduce(v, 0);
    if limiter.truncated {
      var fields := if r.Dict? then r.fields else [Field("content", r)];
      fields := Set(fields, "_truncated", TRUE);
      if IsErrorOutput(v) {
        fields := Set(fields, "isError", TRUE);
      }
      r := Dict(fields);
    }
  }

  lemma {:induction false} GetSet(fields: seq<Field>, key: string, value: Value, other: string)
    ensures Get(Set(fields, key, value), other) == if other == key then Some(value) else Get(fields, other)
  {
    if fields != [] && fields[0].key != key {
      GetSet(fields[1..], key, value, other);
    }
  }

  /** An entry that survives bounding is the bounded form of the entry it came from. */
  lemma {:induction false} BoundedEntry(fields: seq<Field>, depth: nat, remaining: int, key: string) returns (left: int)
    ensures var kept := Get(BoundFields(fields, depth, remaining).value, key);
            kept.Some? ==> Get(fields, key).Some? && kept.value == Bound(Get(fields, key).value, depth + 1, left).value
  {
    left := 0;
    if fields != [] && remaining >= |fields[0].key| + RESERVE {
      left := remaining - |fields[0].key| - OVERHEAD;
      if fields[0].key != key {
        left := BoundedEntry(fields[1..], depth, Bound(fields[0].value, depth + 1, left).remaining, key);
      }
    }
  }

  lemma FlagNotInvented(v: Value, depth: nat, remaining: int)
    ensures FlagSet(Bound(v, depth, remaining).value) ==> FlagSet(v)
  {
    if remaining >= RESERVE && depth <= MAX_DEPTH && v.Dict? {
      var left := BoundedEntry(v.fields, depth, remaining - OVERHEAD, "isError");
    }
  }

  lemma ErrorNotInvented(v: Value, depth: nat, remaining: int)
    ensures IsErrorOutput(Bound(v, depth, remaining).value) ==> IsErrorOutput(v)
  {
    FlagNotInvented(v, depth, remaining);
    if remaining >= RESERVE && depth <= MAX_DEPTH && v.Dict? {
      var left := BoundedEntry(v.fields, depth, remaining - OVERHEAD, "raw");
      var raw := Get(v.fields, "raw");
      if raw.Some? {
        FlagNotInvented(raw.value, depth + 1, left);
      }
    }
  }

  lemma {:induction false} GetListed(fields: seq<Field>, key: string)
    ensures Get(ListedFields(fields), key)
         == if Get(fields, key).Some? then Some(Listed(Get(fields, key).value)) else None
  {
    if fields != [] && fields[0].key != key {
      GetListed(fields[1..], key);
    }
  }

  lemma FlagListed(v: Value)
    ensures FlagSet(Listed(v)) <==> FlagSet(v)
  {
    if v.Dict? {
      GetListed(v.fields, "isError");
    }
  }

  /** Bounding never turns a failed call into a successful one, nor the reverse: the limited output is an
      error output exactly when the output was. */
  lemma ErrorStatusKept(v: Value, limit: nat)
    ensures IsErrorOutput(LimitOutput(v, limit)) <==> IsErrorOutput(v)
  {
    if !v.Text? {
      var b := Bound(v, 0, limit);
      if b.truncated {
        ErrorNotInvented(v, 0, limit);
        var fields := if b.value.Dict? then b.value.fields else [Field("content", b.value)];
        var marked := Set(fields, "_truncated", TRUE);
        GetSet(fields, "_truncated", TRUE, "isError");
        GetSet(fields, "_truncated", TRUE, "raw");
        GetSet(marked, "isError", TRUE, "isError");
        assert !b.value.Dict? ==> Get(fields[1..], "isError") == None && Get(fields[1..], "raw") == None;
      } else {
        BoundFaithful(v, 0, limit);
        FlagListed(v);
        if v.Dict? {
          GetListed(v.fields, "raw");
          if Get(v.fields, "raw").Some? {
            FlagListed(Get(v.fields, "raw").value);
          }
        }
      }
    }
  }

  /** A dictionary that says it is an error, or whose raw part does. */
  ghost predicate FailedOutput(v: Value) {
    v.Dict? &&
    (|| Get(v.fields, "isError") == Some(Scalar("True"))
     || (exists fields :: Get(v.fields, "raw") == Some(Dict(fields)) && Get(fields, "isError") == Some(Scalar("True"))))
  }

  /** A text is cut to its first `limit` characters; any other output is unchanged up to tuples, or carries the mark. */
  lemma LimitMeaning(v: Value, limit: nat)
    ensures var r := LimitOutput(v, limit);
            && (v.Text? ==> r.Text? && r.text <= v.text && |r.text| == Min(|v.text|, limit))
            && (!v.Text? ==> r == Listed(v) || Get(FieldsOf(r), "_truncated") == Some(TRUE))
            && (!v.Text? && Bound(v, 0, limit).truncated ==> Get(FieldsOf(r), "_truncated") == Some(TRUE))
            && (!v.Text? && Bound(v, 0, limit).truncated && FailedOutput(v) ==> Get(FieldsOf(r), "isError") == Some(Scalar("True")))
  {
    if !v.Text? {
      BoundFaithful(v, 0, limit);
      var b := Bound(v, 0, limit);
      var fields := if b.value.Dict? then b.value.fields else [Field("content", b.value)];
      GetSet(fields, "_truncated", TRUE, "_truncated");
      GetSet(Set(fields, "_truncated", TRUE), "isError", TRUE, "_truncated");
      GetSet(Set(fields, "_truncated", TRUE), "isError", TRUE, "isError");
    }
  }
}
