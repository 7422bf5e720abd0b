/**
 * The `dimValues` object of programmatic-seo/generate-pages.js: dimension
 * names bound to values, kept in insertion order as a JavaScript object
 * keeps string keys. Assigning an existing name overwrites its value in place.
 */
module SeoBindings {
  import opened Wrappers

  type Bindings = seq<(string, string)>

  /** Position of `name` among the bound names. */
  function IndexOfName(dv: Bindings, name: string): (r: Option<nat>)
    ensures r.Some? ==> r.value < |dv| && dv[r.value].0 == name
  {
    if dv == [] then None
    else if dv[0].0 == name then Some(0)
    else match IndexOfName(dv[1..], name)
      case None => None
      case Some(k) => Some(k + 1)
  }

  /** `IndexOfName` finds the first binding of the name, and `None` means the name is unbound. */
  lemma {:induction false} IndexOfNameFirst(dv: Bindings, name: string)
    ensures IndexOfName(dv, name).Some? ==> forall k :: 0 <= k < IndexOfName(dv, name).value ==> dv[k].0 != name
    ensures IndexOfName(dv, name).None? <==> forall k :: 0 <= k < |dv| ==> dv[k].0 != name
  {
    if dv != [] && dv[0].0 != name {
      IndexOfNameFirst(dv[1..], name);
      assert forall k :: 1 <= k < |dv| ==> dv[k] == dv[1..][k - 1];
    }
  }

  /** `dimValues[name]`, `None` standing for `undefined`. */
  function Lookup(dv: Bindings, name: string): Option<string>
  {
    match IndexOfName(dv, name)
    case None => None
    case Some(i) => Some(dv[i].1)
  }

  /** `dimValues[name] = v`. */
  function Assign(dv: Bindings, name: string, v: string): Bindings
  {
    match IndexOfName(dv, name)
    case None => dv + [(name, v)]
    case Some(i) => dv[i := (name, v)]
  }

  /** `Object.values(dimValues)`. */
  function Values(dv: Bindings): (r: seq<string>)
    ensures |r| == |dv|
    ensures forall k :: 0 <= k < |dv| ==> r[k] == dv[k].1
  {
    seq(|dv|, k requires 0 <= k < |dv| => dv[k].1)
  }

  /** JavaScript truthiness of a looked-up string: defined and non-empty. */
  predicate Truthy(o: Option<string>)
  {
    o.Some? && o.value != ""
  }

  /** `o || fallback`. */
  function OrElse(o: Option<string>, fallback: string): (r: string)
    ensures Truthy(o) ==> r == o.value
    ensures !Truthy(o) ==> r == fallback
  {
    if Truthy(o) then o.value else fallback
  }

  /** No name is bound twice. */
  predicate UniqueNames(dv: Bindings)
  {
    forall j, k :: 0 <= j < k < |dv| ==> dv[j].0 != dv[k].0
  }

  /** After an assignment the name reads back the assigned value. */
  lemma LookupAssignSame(dv: Bindings, name: string, v: string)
    ensures Lookup(Assign(dv, name, v), name) == Some(v)
  {
    IndexOfNameFirst(dv, name);
    match IndexOfName(dv, name)
    case None =>
      var r := dv + [(name, v)];
      assert r[|dv|].0 == name;
      assert forall k :: 0 <= k < |dv| ==> r[k] == dv[k];
      IndexOfNameFirst(r, name);
      assert IndexOfName(r, name) == Some(|dv|);
    case Some(i) =>
      var r := dv[i := (name, v)];
      assert r[i].0 == name;
      assert forall k :: 0 <= k < i ==> r[k] == dv[k];
      IndexOfNameFirst(r, name);
      assert IndexOfName(r, name) == Some(i);
  }

  /** An assignment leaves every other name's value alone. */
  lemma LookupAssignOther(dv: Bindings, name: string, v: string, other: string)
    requires other != name
    ensures Lookup(Assign(dv, name, v), other) == Lookup(dv, other)
  {
    var r := Assign(dv, name, v);
    IndexOfNameFirst(dv, other);
    IndexOfNameFirst(r, other);
    assert forall k :: 0 <= k < |dv| ==> (r[k].0 == other <==> dv[k].0 == other);
    assert |r| > |dv| ==> r[|dv|].0 != other;
    match IndexOfName(dv, other)
    case None =>
      assert IndexOfName(r, other) == None;
    case Some(i) =>
      assert r[i] == dv[i];
      assert IndexOfName(r, other) == Some(i);
  }

  /** Assigning a bound name keeps the order and changes exactly one value. */
  lemma AssignBoundValues(dv: Bindings, name: string, v: string)
    requires IndexOfName(dv, name).Some?
    ensures Values(Assign(dv, name, v)) == Values(dv)[IndexOfName(dv, name).value := v]
  {
  }

  /** Assigning a new name appends it at the end. */
  lemma AssignNewValues(dv: Bindings, name: string, v: string)
    requires IndexOfName(dv, name).None?
    ensures Values(Assign(dv, name, v)) == Values(dv) + [v]
  {
  }

  /** Assignments keep names unique. */
  lemma AssignUnique(dv: Bindings, name: string, v: string)
    requires UniqueNames(dv)
    ensures UniqueNames(Assign(dv, name, v))
  {
    IndexOfNameFirst(dv, name);
  }

  /** `combo.forEach((dimName, i) => { dimValues[dimName] = values[i] })` from an empty object. */
  function BindingsOf(names: seq<string>, values: seq<string>): Bindings
    requires |names| <= |values|
  {
    if names == [] then []
    else Assign(BindingsOf(names[..|names| - 1], values), names[|names| - 1], values[|names| - 1])
  }

  predicate DistinctNames(names: seq<string>)
  {
    forall j, k :: 0 <= j < k < |names| ==> names[j] != names[k]
  }

  /** With distinct names, the object binds the i-th name to the i-th value, in combination order. */
  lemma {:induction false} BindingsOfDistinct(names: seq<string>, values: seq<string>)
    requires |names| <= |values| && DistinctNames(names)
    ensures |BindingsOf(names, values)| == |names|
    ensures forall i :: 0 <= i < |names| ==> BindingsOf(names, values)[i] == (names[i], values[i])
    decreases |names|
  {
    if names != [] {
      var n := |names| - 1;
      var front := names[..n];
      BindingsOfDistinct(front, values);
      var dv := BindingsOf(front, values);
      assert forall k :: 0 <= k < |dv| ==> dv[k].0 == names[k] != names[n];
      IndexOfNameFirst(dv, names[n]);
    }
  }

  /** With distinct names, every name of the combination reads back its own value and `Object.values` is the tuple. */
  lemma BindingsOfLookup(names: seq<string>, values: seq<string>, i: nat)
    requires |names| == |values| && DistinctNames(names) && i < |names|
    ensures Lookup(BindingsOf(names, values), names[i]) == Some(values[i])
    ensures Values(BindingsOf(names, values)) == values
    ensures UniqueNames(BindingsOf(names, values))
  {
    BindingsOfDistinct(names, values);
    var dv := BindingsOf(names, values);
    assert dv[i].0 == names[i];
    IndexOfNameFirst(dv, names[i]);
    assert IndexOfName(dv, names[i]) == Some(i);
  }

  /** A name outside the combination is unbound. */
  lemma {:induction false} BindingsOfUnbound(names: seq<string>, values: seq<string>, other: string)
    requires |names| <= |values| && other !in names
    ensures Lookup(BindingsOf(names, values), other) == None
    decreases |names|
  {
    if names != [] {
      var n := |names| - 1;
      BindingsOfUnbound(names[..n], values, other);
      LookupAssignOther(BindingsOf(names[..n], values), names[n], values[n], other);
    }
  }
}
