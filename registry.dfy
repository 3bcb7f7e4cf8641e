/** A JavaScript `Set` seen as a value: a duplicate-free sequence in insertion order.
    `add` appends an element that is not yet present; `delete` drops it and keeps the
    order of the others. */
module Registry {

  ghost predicate NoDuplicates<T>(s: seq<T>) {
    forall i, j :: 0 <= i < j < |s| ==> s[i] != s[j]
  }

  function Elements<T>(s: seq<T>): set<T> {
    set x | x in s
  }

  /** `set.add(x)`: the members become the old ones plus `x`, and the old members keep
      their places in the iteration order. */
  function Insert<T(==)>(s: seq<T>, x: T): (r: seq<T>)
    ensures Elements(r) == Elements(s) + {x}
    ensures |s| <= |r| <= |s| + 1 && r[..|s|] == s
  {
    if x in s then s else s + [x]
  }

  /** The elements of `s` that are not in `drop`, in their order in `s`. */
  function Without<T(==)>(s: seq<T>, drop: set<T>): seq<T>
    decreases |s|
  {
    if s == [] then []
    else
      var last := s[|s| - 1];
      Without(s[..|s| - 1], drop) + (if last in drop then [] else [last])
  }

  /** `set.delete(x)`: the members become the old ones without `x`; deleting a value that
      is not a member changes nothing. */
  function Delete<T(==)>(s: seq<T>, x: T): (r: seq<T>)
    ensures x !in r && |r| <= |s|
    ensures x !in s ==> r == s
  {
    WithoutProperties(s, {x});
    if x !in s then WithoutDisjoint(s, {x}); Without(s, {x})
    else Without(s, {x})
  }

  lemma InsertProperties<T>(s: seq<T>, x: T)
    requires NoDuplicates(s)
    ensures Elements(Insert(s, x)) == Elements(s) + {x}
    ensures NoDuplicates(Insert(s, x))
    ensures x in s ==> Insert(s, x) == s
    ensures Insert(s, x)[..|s|] == s
    ensures Insert(Insert(s, x), x) == Insert(s, x)
  {
  }

  /** Filtering keeps exactly the elements outside `drop`, and never repeats one. */
  lemma {:induction false} WithoutProperties<T>(s: seq<T>, drop: set<T>)
    ensures Elements(Without(s, drop)) == Elements(s) - drop
    ensures NoDuplicates(s) ==> NoDuplicates(Without(s, drop))
    ensures |Without(s, drop)| <= |s|
    decreases |s|
  {
    if s != [] {
      var init, last := s[..|s| - 1], s[|s| - 1];
      assert s == init + [last];
      WithoutProperties(init, drop);
      var tail := if last in drop then [] else [last];
      assert Without(s, drop) == Without(init, drop) + tail;
      assert Elements(s) == Elements(init) + {last};
      assert Elements(Without(s, drop)) == Elements(Without(init, drop)) + Elements(tail);
      if NoDuplicates(s) {
        assert NoDuplicates(init);
        assert last !in init;
        assert last !in Elements(Without(init, drop));
      }
    }
  }

  lemma WithoutSnoc<T>(s: seq<T>, x: T, drop: set<T>)
    ensures Without(s + [x], drop) == Without(s, drop) + (if x in drop then [] else [x])
  {
    assert (s + [x])[..|s|] == s;
  }

  lemma {:induction false} WithoutConcat<T>(a: seq<T>, b: seq<T>, drop: set<T>)
    ensures Without(a + b, drop) == Without(a, drop) + Without(b, drop)
    decreases |b|
  {
    if b == [] {
      assert a + b == a;
    } else {
      var init := b[..|b| - 1];
      assert (a + b)[..|a + b| - 1] == a + init;
      assert (a + b)[|a + b| - 1] == b[|b| - 1];
      WithoutConcat(a, init, drop);
    }
  }

  lemma {:induction false} WithoutDisjoint<T>(s: seq<T>, drop: set<T>)
    requires forall i :: 0 <= i < |s| ==> s[i] !in drop
    ensures Without(s, drop) == s
    decreases |s|
  {
    if s != [] {
      WithoutDisjoint(s[..|s| - 1], drop);
    }
  }

  lemma DeleteProperties<T>(s: seq<T>, x: T)
    requires NoDuplicates(s)
    ensures Elements(Delete(s, x)) == Elements(s) - {x}
    ensures NoDuplicates(Delete(s, x))
    ensures x !in s ==> Delete(s, x) == s
    ensures Delete(Delete(s, x), x) == Delete(s, x)
  {
    WithoutProperties(s, {x});
    if x !in s {
      WithoutDisjoint(s, {x});
    }
    var d := Delete(s, x);
    assert x !in Elements(d);
    WithoutDisjoint(d, {x});
  }

  /** Deleting the one occurrence of `x` from a sequence split around it. */
  lemma DeleteAt<T>(a: seq<T>, x: T, b: seq<T>)
    requires x !in a && x !in b
    ensures Delete(a + [x] + b, x) == a + b
  {
    assert Without([x], {x}) == [] by {
      assert [x][..0] == [];
    }
    WithoutDisjoint(a, {x});
    WithoutDisjoint(b, {x});
    WithoutConcat(a, [x], {x});
    assert Without(a + [x], {x}) == a;
    WithoutConcat(a + [x], b, {x});
  }

  /** A duplicate-free sequence has as many elements as its set has members. */
  lemma {:induction false} DistinctCount<T>(s: seq<T>)
    requires NoDuplicates(s)
    ensures |Elements(s)| == |s|
    decreases |s|
  {
    if s != [] {
      var init, last := s[..|s| - 1], s[|s| - 1];
      assert s == init + [last];
      assert NoDuplicates(init);
      DistinctCount(init);
      assert last !in init;
      assert Elements(s) == Elements(init) + {last};
    }
  }

  /** A registry operation: a session registered, or a session unregistered. */
  datatype Op<T> = Add(client: T) | Remove(client: T)

  function Apply<T(==)>(s: seq<T>, op: Op<T>): seq<T> {
    match op
    case Add(x) => Insert(s, x)
    case Remove(x) => Delete(s, x)
  }

  /** The registry after performing `ops` in order, starting from `s`. */
  function Run<T(==)>(s: seq<T>, ops: seq<Op<T>>): seq<T>
    decreases |ops|
  {
    if ops == [] then s else Apply(Run(s, ops[..|ops| - 1]), ops[|ops| - 1])
  }

  function Added<T>(ops: seq<Op<T>>): set<T> {
    set i | 0 <= i < |ops| && ops[i].Add? :: ops[i].client
  }

  function Removed<T>(ops: seq<Op<T>>): set<T> {
    set i | 0 <= i < |ops| && ops[i].Remove? :: ops[i].client
  }

  /** No session is registered again after it has been unregistered. */
  ghost predicate RemovalIsFinal<T>(ops: seq<Op<T>>) {
    forall i, j :: 0 <= i < j < |ops| && ops[i].Remove? && ops[j].Add? ==> ops[i].client != ops[j].client
  }

  /** Whatever operations are performed, the registry stays duplicate-free; when removal is
      final, it holds exactly the sessions registered and never unregistered. */
  lemma {:induction false} RunContents<T>(ops: seq<Op<T>>)
    ensures NoDuplicates(Run([], ops))
    ensures RemovalIsFinal(ops) ==> Elements(Run([], ops)) == Added(ops) - Removed(ops)
    decreases |ops|
  {
    if ops != [] {
      var init, last := ops[..|ops| - 1], ops[|ops| - 1];
      RunContents(init);
      var before := Run([], init);
      assert ops == init + [last];
      AddedSnoc(init, last);
      RemovedSnoc(init, last);
      match last
      case Add(x) =>
        InsertProperties(before, x);
        if RemovalIsFinal(ops) {
          assert RemovalIsFinal(init);
          assert x !in Removed(init);
        }
      case Remove(x) =>
        DeleteProperties(before, x);
        if RemovalIsFinal(ops) {
          assert RemovalIsFinal(init);
        }
    }
  }

  /** One more operation adds its client to `Added` or to `Removed`. */
  lemma AddedSnoc<T>(ops: seq<Op<T>>, op: Op<T>)
    ensures Added(ops + [op]) == Added(ops) + (if op.Add? then {op.client} else {})
  {
    var all := ops + [op];
    forall x | x in Added(all) ensures x in Added(ops) + (if op.Add? then {op.client} else {}) {
      var i :| 0 <= i < |all| && all[i].Add? && all[i].client == x;
      if i < |ops| { assert ops[i] == all[i]; }
    }
    forall x | x in Added(ops) ensures x in Added(all) {
      var i :| 0 <= i < |ops| && ops[i].Add? && ops[i].client == x;
      assert all[i] == ops[i];
    }
    if op.Add? {
      assert all[|ops|] == op;
    }
  }

  lemma RemovedSnoc<T>(ops: seq<Op<T>>, op: Op<T>)
    ensures Removed(ops + [op]) == Removed(ops) + (if op.Remove? then {op.client} else {})
  {
    var all := ops + [op];
    forall x | x in Removed(all) ensures x in Removed(ops) + (if op.Remove? then {op.client} else {}) {
      var i :| 0 <= i < |all| && all[i].Remove? && all[i].client == x;
      if i < |ops| { assert ops[i] == all[i]; }
    }
    forall x | x in Removed(ops) ensures x in Removed(all) {
      var i :| 0 <= i < |ops| && ops[i].Remove? && ops[i].client == x;
      assert all[i] == ops[i];
    }
    if op.Remove? {
      assert all[|ops|] == op;
    }
  }

  /** The count of live sessions after any sequence of registrations and unregistrations in
      which removal is final: the distinct sessions registered minus those unregistered. */
  lemma SessionCount<T>(ops: seq<Op<T>>)
    requires RemovalIsFinal(ops)
    ensures |Run([], ops)| == |Added(ops) - Removed(ops)|
  {
    RunContents(ops);
    DistinctCount(Run([], ops));
  }
}
