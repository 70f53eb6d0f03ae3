/**
 Run-time values and variable environments, used both by the source semantics and
 by the semantics of the emitted Rust.
 */
module Values {
  import opened Wrappers

  /**
   Exceptions are structs; `base` is the embedded data base. `Ok` and `Err` are the
   two sides of the `Result` that a throwing Rust function returns.
   */
  datatype Value =
    | Unit
    | Flag(on: bool)
    | Scalar(number: int)
    | Struct(ty: nat, payload: int, base: Option<Value>)
    | Collection(elements: seq<Value>)
    | Ok(inner: Value)
    | Err(error: Value)

  predicate Truthy(v: Value) {
    v == Flag(true)
  }

  /** `v` and its embedded data bases, the concrete object first. */
  function Subobjects(v: Value): seq<Value> {
    match v
    case Struct(_, _, base) => [v] + (if base.Some? then Subobjects(base.value) else [])
    case _ => []
  }

  /** The first object of struct type `ty` in `objects`. */
  function FirstOfType(objects: seq<Value>, ty: nat): Option<Value> {
    if |objects| == 0 then None
    else if objects[0].Struct? && objects[0].ty == ty then Some(objects[0])
    else FirstOfType(objects[1..], ty)
  }

  /** Names of variables in emitted code; only `Source` and `Receiver` exist in source programs. */
  datatype Name =
    | Source(text: string)
    | Receiver
    | TryError(index: nat)
    | Temporary(index: nat)

  predicate IsVisible(n: Name) {
    n.Source? || n.Receiver?
  }

  /** Innermost binding last; leaving a block drops the bindings made inside it. */
  type Env = seq<(Name, Value)>

  function Lookup(env: Env, n: Name): Value {
    if |env| == 0 then Unit
    else if env[|env| - 1].0 == n then env[|env| - 1].1
    else Lookup(env[..|env| - 1], n)
  }

  function Update(env: Env, n: Name, v: Value): (r: Env)
    ensures |r| == |env|
  {
    if |env| == 0 then []
    else if env[|env| - 1].0 == n then env[..|env| - 1] + [(n, v)]
    else Update(env[..|env| - 1], n, v) + [env[|env| - 1]]
  }

  function Truncate(env: Env, depth: nat): Env {
    if depth <= |env| then env[..depth] else env
  }

  function Visible(env: Env): (r: Env)
    ensures |r| <= |env|
  {
    if |env| == 0 then []
    else
      var rest := Visible(env[..|env| - 1]);
      if IsVisible(env[|env| - 1].0) then rest + [env[|env| - 1]] else rest
  }

  /**
   `after` continues `before`: it has the same variables in the same places, and
   only visible ones may hold new values.
   */
  ghost predicate Continues(before: Env, after: Env) {
    && |before| <= |after|
    && (forall i :: 0 <= i < |before| ==> before[i].0 == after[i].0)
    && (forall i :: 0 <= i < |before| && !IsVisible(before[i].0) ==> before[i] == after[i])
  }

  /** As `Continues`, and no variable that holds a caught error is left in scope. */
  ghost predicate Settles(before: Env, after: Env) {
    && Continues(before, after)
    && (forall i :: |before| <= i < |after| ==> !after[i].0.TryError?)
  }

  lemma {:induction false} VisibleAppend(a: Env, b: Env)
    ensures Visible(a + b) == Visible(a) + Visible(b)
    decreases |b|
  {
    if |b| == 0 {
      assert a + b == a;
    } else {
      var c := b[..|b| - 1];
      assert (a + b)[..|a + b| - 1] == a + c;
      VisibleAppend(a, c);
    }
  }

  lemma {:induction false} VisibleNamesOnly(a: Env, b: Env)
    requires |a| == |b| && forall i :: 0 <= i < |a| ==> a[i].0 == b[i].0
    ensures |Visible(a)| == |Visible(b)|
    decreases |a|
  {
    if |a| != 0 {
      VisibleNamesOnly(a[..|a| - 1], b[..|b| - 1]);
    }
  }

  lemma {:induction false} VisibleLookup(env: Env, n: Name)
    requires IsVisible(n)
    ensures Lookup(Visible(env), n) == Lookup(env, n)
    decreases |env|
  {
    if |env| != 0 {
      var rest := env[..|env| - 1];
      VisibleLookup(rest, n);
      if IsVisible(env[|env| - 1].0) {
        assert Visible(env)[..|Visible(env)| - 1] == Visible(rest);
      }
    }
  }

  lemma {:induction false} VisibleUpdate(env: Env, n: Name, v: Value)
    requires IsVisible(n)
    ensures Visible(Update(env, n, v)) == Update(Visible(env), n, v)
    decreases |env|
  {
    if |env| != 0 {
      var rest := env[..|env| - 1];
      var last := env[|env| - 1];
      VisibleUpdate(rest, n, v);
      if last.0 == n {
        assert (rest + [(n, v)])[..|env| - 1] == rest;
        assert (Visible(rest) + [last])[..|Visible(rest)|] == Visible(rest);
      } else {
        assert (Update(rest, n, v) + [last])[..|env| - 1] == Update(rest, n, v);
        if IsVisible(last.0) {
          assert (Visible(rest) + [last])[..|Visible(rest)|] == Visible(rest);
        }
      }
    }
  }

  lemma {:induction false} UpdateContinues(env: Env, n: Name, v: Value)
    requires IsVisible(n)
    ensures Continues(env, Update(env, n, v))
    decreases |env|
  {
    if |env| != 0 && env[|env| - 1].0 != n {
      UpdateContinues(env[..|env| - 1], n, v);
    }
  }

  /** Leaving a block commutes with forgetting the generated variables. */
  lemma VisibleTruncate(before: Env, after: Env)
    requires Continues(before, after)
    ensures Visible(Truncate(after, |before|)) == Truncate(Visible(after), |Visible(before)|)
    ensures Continues(before, Truncate(after, |before|))
  {
    var kept := after[..|before|];
    assert after == kept + after[|before|..];
    VisibleAppend(kept, after[|before|..]);
    VisibleNamesOnly(before, kept);
  }

  lemma ContinuesTransitive(a: Env, b: Env, c: Env)
    requires Continues(a, b) && Continues(b, c)
    ensures Continues(a, c)
  {
  }

  /** A generated variable bound in `before` reads the same later, unless it was bound again. */
  lemma {:induction false} HiddenLookup(before: Env, after: Env, n: Name)
    requires Continues(before, after) && !IsVisible(n)
    requires forall i :: |before| <= i < |after| ==> after[i].0 != n
    ensures Lookup(after, n) == Lookup(before, n)
    decreases |after|
  {
    if |after| > |before| {
      HiddenLookup(before, after[..|after| - 1], n);
    } else if |after| != 0 {
      HiddenLookup(before[..|before| - 1], after[..|after| - 1], n);
    }
  }

  /** The values bound by a range loop for one element: the element, or its components. */
  function Components(element: Value, count: nat): (r: seq<Value>)
    ensures |r| == count
  {
    if count == 1 then [element]
    else if element.Collection? && |element.elements| == count then element.elements
    else seq(count, _ => Unit)
  }

  function BindAll(names: seq<string>, values: seq<Value>): (r: Env)
    requires |names| == |values|
    ensures |r| == |names|
  {
    seq(|names|, i requires 0 <= i < |names| => (Source(names[i]), values[i]))
  }

  lemma LookupPushed(env: Env, n: Name, v: Value)
    ensures Lookup(env + [(n, v)], n) == v
    ensures forall m :: m != n ==> Lookup(env + [(n, v)], m) == Lookup(env, m)
  {
    assert (env + [(n, v)])[..|env|] == env;
  }
}
