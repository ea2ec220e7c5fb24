/**
 * Null-safe builders of fresh, mutable collections (com.oranjava.datastrikers.Collections).
 *
 * A Java reference of element type E is an `Option<E>`: `None` is `null`.
 * A nullable array or collection argument is an `Option<seq<Option<E>>>`, listed in
 * the order its iterator yields it. Arguments are values, so no builder can change them.
 */
module Collections {
  import opened Wrappers

  /** The collection classes the builders are bound to. */
  datatype Kind = HashSet | LinkedHashSet | ConcurrentKeySet | ArrayList | LinkedList
  {
    /** A set kind holds at most one copy of each element. */
    predicate IsSet() {
      HashSet? || LinkedHashSet? || ConcurrentKeySet?
    }

    /** Iteration follows insertion: the lists and the linked set. The two hashed sets promise no order. */
    predicate KeepsInsertionOrder() {
      ArrayList? || LinkedList? || LinkedHashSet?
    }

    /** Whether `add` accepts x: the key set of a ConcurrentHashMap throws on a null element. */
    predicate Admits<E>(x: Option<E>) {
      !(ConcurrentKeySet? && x.None?)
    }
  }

  /** What `addAll` throws when a concurrent key set is handed a null element. */
  datatype NullPointerException = NullPointerException

  // ---------------------------------------------------------------------------
  // The null-or-empty predicates (one function per pair of overloads: an array
  // and a collection argument are both a nullable sequence here)
  // ---------------------------------------------------------------------------

  /** `isNullOrEmpty`: the argument is null or holds no element. */
  function IsNullOrEmpty<T>(xs: Option<seq<T>>): (r: bool)
    ensures r <==> (xs.None? || forall x :: x !in xs.value)
  {
    xs.None? || (assert |xs.value| > 0 ==> xs.value[0] in xs.value; |xs.value| == 0)
  }

  /** `hasAtLeastOneElement`: the argument is present and holds some element. */
  function HasAtLeastOneElement<T>(xs: Option<seq<T>>): (r: bool)
    ensures r <==> (xs.Some? && exists x :: x in xs.value)
  {
    xs.Some? && (assert |xs.value| > 0 ==> xs.value[0] in xs.value; |xs.value| > 0)
  }

  /** The two predicates are exact complements, for every null, empty or non-empty argument. */
  lemma HasAtLeastOneElementIsNegation<T>(xs: Option<seq<T>>)
    ensures HasAtLeastOneElement(xs) <==> !IsNullOrEmpty(xs)
  {
  }

  // ---------------------------------------------------------------------------
  // Specification of the merge
  // ---------------------------------------------------------------------------

  /** The elements of a nullable argument; null contributes none. */
  function Elements<T>(xs: Option<seq<T>>): seq<T> {
    if xs.Some? then xs.value else []
  }

  /** What one argument of `asCollection` contributes: nothing when it is null or empty. */
  function Contribution<T(==)>(c: Option<seq<T>>): seq<T> {
    if HasAtLeastOneElement(c) then c.value else []
  }

  /** The elements `asCollection` copies, in argument order. */
  function Flatten<T(==)>(inputs: seq<Option<seq<T>>>): seq<T>
  {
    if |inputs| == 0 then []
    else Flatten(inputs[..|inputs| - 1]) + Contribution(inputs[|inputs| - 1])
  }

  /** The sum of the sizes of the non-null arguments. */
  function TotalSize<T>(inputs: seq<Option<seq<T>>>): nat
  {
    if |inputs| == 0 then 0
    else (if inputs[0].Some? then |inputs[0].value| else 0) + TotalSize(inputs[1..])
  }

  /** Some non-null argument holds x. */
  ghost predicate InSome<T>(inputs: seq<Option<seq<T>>>, x: T) {
    exists i :: 0 <= i < |inputs| && inputs[i].Some? && x in inputs[i].value
  }

  /**
   * `Collection.add` on the abstract contents: a set kind ignores an element it already holds.
   * Dafny's `==` on elements stands for Java's `equals`/`hashCode`.
   */
  function Insert<T(==)>(kind: Kind, items: seq<T>, x: T): seq<T> {
    if kind.IsSet() && x in items then items else items + [x]
  }

  /** `Collection.addAll`: `Insert` of each element of xs in turn. */
  function InsertAll<T(==)>(kind: Kind, items: seq<T>, xs: seq<T>): seq<T>
    decreases |xs|
  {
    if |xs| == 0 then items
    else Insert(kind, InsertAll(kind, items, xs[..|xs| - 1]), xs[|xs| - 1])
  }

  /** Every element of xs may be added to a collection of this kind. */
  ghost predicate AdmitsAll<E>(kind: Kind, xs: seq<Option<E>>) {
    forall x :: x in xs ==> kind.Admits(x)
  }

  predicate NoDuplicates<T(==)>(s: seq<T>) {
    forall i, j :: 0 <= i < j < |s| ==> s[i] != s[j]
  }

  /** The position of the first occurrence of x in s. */
  function IndexOf<T(==)>(s: seq<T>, x: T): (k: nat)
    requires x in s
    ensures k < |s| && s[k] == x && x !in s[..k]
  {
    if s[0] == x then 0 else 1 + IndexOf(s[1..], x)
  }

  /** Every element of r occurs in xs, and each pair of r is ordered by where its two elements first occur in xs. */
  ghost predicate InFirstOccurrenceOrder<T>(r: seq<T>, xs: seq<T>) {
    && (forall i :: 0 <= i < |r| ==> r[i] in xs)
    && (forall i, j :: 0 <= i < j < |r| ==> IndexOf(xs, r[i]) < IndexOf(xs, r[j]))
  }

  /** r lists each element of xs exactly once, ordered by where it first occurs in xs. */
  ghost predicate FirstOccurrences<T>(r: seq<T>, xs: seq<T>) {
    NoDuplicates(r)
    && (forall i :: 0 <= i < |xs| ==> xs[i] in r)
    && InFirstOccurrenceOrder(r, xs)
  }

  // ---------------------------------------------------------------------------
  // Lemmas about the merge
  // ---------------------------------------------------------------------------

  lemma {:induction false} FlattenAppend<T>(a: seq<Option<seq<T>>>, b: seq<Option<seq<T>>>)
    ensures Flatten(a + b) == Flatten(a) + Flatten(b)
    decreases |b|
  {
    if |b| == 0 {
      assert a + b == a;
    } else {
      var b' := b[..|b| - 1];
      assert (a + b)[..|a + b| - 1] == a + b';
      assert (a + b)[|a + b| - 1] == b[|b| - 1];
      FlattenAppend(a, b');
    }
  }

  /** For list kinds the result's length is the sum of the non-null argument sizes. */
  lemma {:induction false} FlattenLength<T>(inputs: seq<Option<seq<T>>>)
    ensures |Flatten(inputs)| == TotalSize(inputs)
    decreases |inputs|
  {
    if |inputs| > 0 {
      assert inputs == [inputs[0]] + inputs[1..];
      FlattenAppend([inputs[0]], inputs[1..]);
      assert [inputs[0]][..0] == [];
      FlattenLength(inputs[1..]);
    }
  }

  /** An element is copied exactly when some non-null argument holds it. */
  lemma {:induction false} FlattenMembers<T>(inputs: seq<Option<seq<T>>>, x: T)
    ensures x in Flatten(inputs) <==> InSome(inputs, x)
    decreases |inputs|
  {
    if |inputs| > 0 {
      var init, last := inputs[..|inputs| - 1], inputs[|inputs| - 1];
      FlattenMembers(init, x);
      if x in Flatten(inputs) {
        if x in Flatten(init) {
          var i :| 0 <= i < |init| && init[i].Some? && x in init[i].value;
          assert inputs[i] == init[i];
        } else {
          assert last.Some? && x in last.value;
        }
      }
      if InSome(inputs, x) {
        var i :| 0 <= i < |inputs| && inputs[i].Some? && x in inputs[i].value;
        if i < |init| {
          assert init[i] == inputs[i];
        } else {
          assert Contribution(last) == last.value;
        }
      }
    }
  }

  /** Everything copied from a prefix of the arguments is copied from all of them. */
  lemma FlattenPrefix<T>(inputs: seq<Option<seq<T>>>, n: nat, x: T)
    requires n <= |inputs| && x in Flatten(inputs[..n])
    ensures x in Flatten(inputs)
  {
    assert inputs == inputs[..n] + inputs[n..];
    FlattenAppend(inputs[..n], inputs[n..]);
  }

  /** The arguments up to n + 1 copy those up to n and then argument n. */
  lemma FlattenSnoc<T>(inputs: seq<Option<seq<T>>>, n: nat)
    requires n < |inputs|
    ensures Flatten(inputs[..n + 1]) == Flatten(inputs[..n]) + Contribution(inputs[n])
  {
    assert inputs[..n + 1][..n] == inputs[..n];
  }

  /** The elements of a concatenation are those of its two parts. */
  lemma SetOfAppend<T>(a: seq<T>, b: seq<T>)
    ensures (set x | x in a + b) == (set x | x in a) + (set x | x in b)
  {
  }

  /** An element refused from the arguments up to n is refused from all of them. */
  lemma RefusedPrefix<E>(kind: Kind, inputs: seq<Option<seq<Option<E>>>>, n: nat)
    requires n <= |inputs| && !AdmitsAll(kind, Flatten(inputs[..n]))
    ensures !AdmitsAll(kind, Flatten(inputs))
  {
    var x :| x in Flatten(inputs[..n]) && !kind.Admits(x);
    FlattenPrefix(inputs, n, x);
  }

  lemma AdmitsAllAppend<E>(kind: Kind, a: seq<Option<E>>, b: seq<Option<E>>)
    requires AdmitsAll(kind, a) && AdmitsAll(kind, b)
    ensures AdmitsAll(kind, a + b)
  {
  }

  /** Adding a concatenation is adding its two parts one after the other. */
  lemma {:induction false} InsertAllSplit<T>(kind: Kind, items: seq<T>, a: seq<T>, b: seq<T>)
    ensures InsertAll(kind, items, a + b) == InsertAll(kind, InsertAll(kind, items, a), b)
    decreases |b|
  {
    if |b| == 0 {
      assert a + b == a;
    } else {
      assert (a + b)[..|a + b| - 1] == a + b[..|b| - 1];
      assert (a + b)[|a + b| - 1] == b[|b| - 1];
      InsertAllSplit(kind, items, a, b[..|b| - 1]);
    }
  }

  /** A list kind appends every element, duplicates and nulls included. */
  lemma {:induction false} InsertAllAppends<T>(kind: Kind, items: seq<T>, xs: seq<T>)
    requires !kind.IsSet()
    ensures InsertAll(kind, items, xs) == items + xs
    decreases |xs|
  {
    if |xs| > 0 {
      InsertAllAppends(kind, items, xs[..|xs| - 1]);
      assert items + xs[..|xs| - 1] + [xs[|xs| - 1]] == items + xs;
    }
  }

  /** Adding never disturbs what is already held: the old contents stay in front, and each element adds at most one slot. */
  lemma {:induction false} InsertAllExtends<T>(kind: Kind, items: seq<T>, xs: seq<T>)
    ensures items <= InsertAll(kind, items, xs)
    ensures |InsertAll(kind, items, xs)| <= |items| + |xs|
    decreases |xs|
  {
    if |xs| > 0 {
      InsertAllExtends(kind, items, xs[..|xs| - 1]);
    }
  }

  /** Every kind ends up holding exactly the old elements and the added ones. */
  lemma {:induction false} InsertAllMembers<T>(kind: Kind, items: seq<T>, xs: seq<T>, x: T)
    ensures x in InsertAll(kind, items, xs) <==> x in items || x in xs
    decreases |xs|
  {
    if |xs| > 0 {
      var init := xs[..|xs| - 1];
      InsertAllMembers(kind, items, init, x);
      assert xs == init + [xs[|xs| - 1]];
    }
  }

  /** A set kind never holds an element twice. */
  lemma {:induction false} InsertAllNoDuplicates<T>(kind: Kind, items: seq<T>, xs: seq<T>)
    requires kind.IsSet() && NoDuplicates(items)
    ensures NoDuplicates(InsertAll(kind, items, xs))
    decreases |xs|
  {
    if |xs| > 0 {
      InsertAllNoDuplicates(kind, items, xs[..|xs| - 1]);
      var before := InsertAll(kind, items, xs[..|xs| - 1]);
      var y := xs[|xs| - 1];
      if y !in before {
        var after := before + [y];
        forall i, j | 0 <= i < j < |after| ensures after[i] != after[j] {
          if j == |before| {
            assert after[i] == before[i];
          }
        }
      }
    }
  }

  lemma {:induction false} IndexOfPrefix<T>(p: seq<T>, q: seq<T>, x: T)
    requires x in p
    ensures IndexOf(p + q, x) == IndexOf(p, x)
    decreases |p|
  {
    if p[0] != x {
      assert (p + q)[1..] == p[1..] + q;
      IndexOfPrefix(p[1..], q, x);
    }
  }

  lemma OrderExtends<T>(r: seq<T>, p: seq<T>, q: seq<T>)
    requires InFirstOccurrenceOrder(r, p)
    ensures InFirstOccurrenceOrder(r, p + q)
  {
    forall i, j | 0 <= i < j < |r|
      ensures IndexOf(p + q, r[i]) < IndexOf(p + q, r[j])
    {
      IndexOfPrefix(p, q, r[i]);
      IndexOfPrefix(p, q, r[j]);
    }
  }

  lemma OrderAppendsNew<T>(r: seq<T>, p: seq<T>, y: T)
    requires InFirstOccurrenceOrder(r, p + [y]) && y !in p
    requires forall i :: 0 <= i < |r| ==> r[i] in p
    ensures InFirstOccurrenceOrder(r + [y], p + [y])
  {
  }

  /** A set kind keeps the first occurrence of each element, in the order the elements first occur. */
  lemma {:induction false} InsertAllFirstOccurrenceOrder<T>(kind: Kind, xs: seq<T>)
    requires kind.IsSet()
    ensures InFirstOccurrenceOrder(InsertAll(kind, [], xs), xs)
    decreases |xs|
  {
    if |xs| > 0 {
      var p, y := xs[..|xs| - 1], xs[|xs| - 1];
      assert xs == p + [y];
      InsertAllFirstOccurrenceOrder(kind, p);
      var rp := InsertAll(kind, [], p);
      OrderExtends(rp, p, [y]);
      if y !in rp {
        forall i | 0 <= i < |rp| ensures rp[i] in p {
          InsertAllMembers(kind, [], p, rp[i]);
        }
        InsertAllMembers(kind, [], p, y);
        OrderAppendsNew(rp, p, y);
      }
    }
  }

  /** What merging xs into an empty collection of `kind` holds, kind by kind. */
  lemma MergeContents<T>(kind: Kind, xs: seq<T>)
    ensures !kind.IsSet() ==> InsertAll(kind, [], xs) == xs
    ensures kind.IsSet() ==> FirstOccurrences(InsertAll(kind, [], xs), xs)
  {
    var r := InsertAll(kind, [], xs);
    if kind.IsSet() {
      InsertAllNoDuplicates(kind, [], xs);
      forall i | 0 <= i < |r| ensures r[i] in xs {
        InsertAllMembers(kind, [], xs, r[i]);
      }
      forall i | 0 <= i < |xs| ensures xs[i] in r {
        InsertAllMembers(kind, [], xs, xs[i]);
      }
      InsertAllFirstOccurrenceOrder(kind, xs);
    } else {
      InsertAllAppends(kind, [], xs);
    }
  }

  /** Merging an argument that is already duplicate-free (an existing set) into a set kind gives it back in its own order. */
  lemma {:induction false} InsertAllOfDistinct<T>(kind: Kind, xs: seq<T>)
    requires kind.IsSet() && NoDuplicates(xs)
    ensures InsertAll(kind, [], xs) == xs
    decreases |xs|
  {
    if |xs| > 0 {
      var p, y := xs[..|xs| - 1], xs[|xs| - 1];
      forall i, j | 0 <= i < j < |p| ensures p[i] != p[j] {
        assert p[i] == xs[i] && p[j] == xs[j];
      }
      InsertAllOfDistinct(kind, p);
      forall k | 0 <= k < |p| ensures p[k] != y {
        assert p[k] == xs[k];
      }
      assert p + [y] == xs;
    }
  }

  // ---------------------------------------------------------------------------
  // The mutable collection and the builders
  // ---------------------------------------------------------------------------

  /** A fresh, mutable collection of one kind; its contents in iteration order. */
  class Container<E(==)> {
    const kind: Kind
    var items: seq<Option<E>>

    ghost predicate Valid()
      reads this
    {
      kind.IsSet() ==> NoDuplicates(items)
    }

    /** The set of elements held, the only thing the hashed kinds specify. */
    function Members(): set<Option<E>>
      reads this
    {
      set x | x in items
    }

    /** The no-argument constructor of the chosen collection class. */
    constructor (kind: Kind)
      ensures this.kind == kind && items == [] && Valid()
    {
      this.kind := kind;
      items := [];
    }

    /** `Collection.add`; ok is false where the collection throws NullPointerException. */
    method Add(x: Option<E>) returns (ok: bool)
      requires Valid()
      modifies this
      ensures Valid()
      ensures ok == kind.Admits(x)
      ensures ok ==> Members() == old(Members()) + {x}
      ensures !ok ==> items == old(items)
      ensures ok && kind.KeepsInsertionOrder() ==> items == Insert(kind, old(items), x)
    {
      ok := kind.Admits(x);
      if ok && !(kind.IsSet() && x in items) {
        items := items + [x];
      }
    }

    /** `Collection.addAll`: adds the elements of xs one at a time, stopping at the first refused one. */
    method AddAll(xs: seq<Option<E>>) returns (ok: bool)
      requires Valid()
      modifies this
      ensures Valid()
      ensures ok == AdmitsAll(kind, xs)
      ensures ok ==> Members() == old(Members()) + (set x | x in xs)
      ensures ok && kind.KeepsInsertionOrder() ==> items == InsertAll(kind, old(items), xs)
    {
      var i := 0;
      while i < |xs|
        invariant 0 <= i <= |xs|
        invariant Valid()
        invariant AdmitsAll(kind, xs[..i])
        invariant Members() == old(Members()) + (set x | x in xs[..i])
        invariant kind.KeepsInsertionOrder() ==> items == InsertAll(kind, old(items), xs[..i])
      {
        ok := Add(xs[i]);
        if !ok {
          return;
        }
        assert xs[..i + 1][..i] == xs[..i];
        i := i + 1;
      }
      assert xs[..i] == xs;
      ok := true;
    }
  }

  /**
   * merged is what a fresh collection of its kind becomes once the elements xs have been
   * added: their members, in the order of adding where the kind keeps one.
   */
  ghost predicate Holds<E>(merged: Container<E>, xs: seq<Option<E>>)
    reads merged
  {
    && merged.Valid()
    && AdmitsAll(merged.kind, xs)
    && merged.Members() == (set x | x in xs)
    && (merged.kind.KeepsInsertionOrder() ==> merged.items == InsertAll(merged.kind, [], xs))
  }

  /**
   * One argument of `asCollection`: skipped when null or empty, otherwise added with
   * `addAll`. `done` is what the collection was built from so far.
   */
  method MergeArgument<E(==)>(merged: Container<E>, c: Option<seq<Option<E>>>, ghost done: seq<Option<E>>)
    returns (ok: bool)
    requires Holds(merged, done)
    modifies merged
    ensures merged.Valid()
    ensures ok == AdmitsAll(merged.kind, done + Contribution(c))
    ensures ok ==> Holds(merged, done + Contribution(c))
  {
    if HasAtLeastOneElement(c) {
      ok := merged.AddAll(c.value);
      if ok {
        InsertAllSplit(merged.kind, [], done, c.value);
        AdmitsAllAppend(merged.kind, done, c.value);
        SetOfAppend(done, c.value);
      } else {
        assert !AdmitsAll(merged.kind, c.value);
        var x :| x in c.value && !merged.kind.Admits(x);
        assert x in done + c.value;
      }
    } else {
      ok := true;
      assert done + Contribution(c) == done;
    }
  }

  /**
   * `asCollection`: a fresh collection of `kind` holding `collection` and then each
   * member of `more`, null and empty ones skipped. Only a concurrent key set can fail,
   * on a null element.
   */
  method AsCollection<E(==)>(kind: Kind, collection: Option<seq<Option<E>>>, more: seq<Option<seq<Option<E>>>>)
    returns (r: Result<Container<E>, NullPointerException>)
    ensures r.Success? <==> AdmitsAll(kind, Flatten([collection] + more))
    ensures r.Success? ==> fresh(r.value) && r.value.kind == kind && r.value.Valid()
    ensures r.Success? ==> r.value.Members() == set x | x in Flatten([collection] + more)
    ensures r.Success? && kind.KeepsInsertionOrder() ==> r.value.items == InsertAll(kind, [], Flatten([collection] + more))
  {
    ghost var inputs := [collection] + more;
    var merged := new Container(kind);
    FlattenSnoc(inputs, 0);
    assert [] + Contribution(collection) == Flatten(inputs[..1]);
    var ok := MergeArgument(merged, collection, []);
    if !ok {
      RefusedPrefix(kind, inputs, 1);
      return Failure(NullPointerException);
    }
    var i := 0;
    ghost var done := Flatten(inputs[..1]);
    while i < |more|
      invariant 0 <= i <= |more|
      invariant done == Flatten(inputs[..i + 1])
      invariant fresh(merged) && merged.kind == kind
      invariant Holds(merged, done)
    {
      FlattenSnoc(inputs, i + 1);
      assert inputs[i + 1] == more[i];
      ok := MergeArgument(merged, more[i], done);
      if !ok {
        RefusedPrefix(kind, inputs, i + 2);
        return Failure(NullPointerException);
      }
      done := done + Contribution(more[i]);
      i := i + 1;
    }
    assert inputs[..i + 1] == inputs;
    return Success(merged);
  }

  /** `asCollectionVarargs`: a fresh collection of `kind` holding `elements` in order; null or empty gives an empty one. */
  method AsCollectionVarargs<E(==)>(kind: Kind, elements: Option<seq<Option<E>>>)
    returns (r: Result<Container<E>, NullPointerException>)
    ensures r.Success? <==> AdmitsAll(kind, Elements(elements))
    ensures r.Success? ==> fresh(r.value) && r.value.kind == kind && r.value.Valid()
    ensures r.Success? ==> r.value.Members() == set x | x in Elements(elements)
    ensures r.Success? && kind.KeepsInsertionOrder() ==> r.value.items == InsertAll(kind, [], Elements(elements))
  {
    var merged := new Container(kind);
    if IsNullOrEmpty(elements) {
      return Success(merged);
    }
    var ok := merged.AddAll(elements.value);
    if !ok {
      return Failure(NullPointerException);
    }
    return Success(merged);
  }

  // ---------------------------------------------------------------------------
  // The builders bound to one collection class
  // ---------------------------------------------------------------------------

  /** `asSet(E...)`: a fresh HashSet holding exactly the given elements. */
  method AsSet<E(==)>(elements: Option<seq<Option<E>>>) returns (s: Container<E>)
    ensures fresh(s) && s.kind == HashSet && s.Valid()
    ensures s.Members() == set x | x in Elements(elements)
  {
    var r := AsCollectionVarargs(HashSet, elements);
    s := r.value;
    MergeContents(HashSet, Elements(elements));
  }

  /** `asSet(Collection, Collection...)`: a fresh HashSet holding the union of the non-null arguments. */
  method AsSetFrom<E(==)>(collection: Option<seq<Option<E>>>, more: seq<Option<seq<Option<E>>>>) returns (s: Container<E>)
    ensures fresh(s) && s.kind == HashSet && s.Valid()
    ensures forall x :: x in s.Members() <==> InSome([collection] + more, x)
  {
    var r := AsCollection(HashSet, collection, more);
    s := r.value;
    MergeContents(HashSet, Flatten([collection] + more));
    forall x ensures x in s.Members() <==> InSome([collection] + more, x) {
      FlattenMembers([collection] + more, x);
    }
  }

  /** `asLinkedSet(E...)`: a fresh LinkedHashSet, the elements in order with later duplicates dropped. */
  method AsLinkedSet<E(==)>(elements: Option<seq<Option<E>>>) returns (s: Container<E>)
    ensures fresh(s) && s.kind == LinkedHashSet && s.Valid()
    ensures s.items == InsertAll(LinkedHashSet, [], Elements(elements))
    ensures FirstOccurrences(s.items, Elements(elements))
  {
    var r := AsCollectionVarargs(LinkedHashSet, elements);
    s := r.value;
    MergeContents(LinkedHashSet, Elements(elements));
  }

  /** `asLinkedSet(Collection, Collection...)`: the arguments' elements in order, later duplicates dropped. */
  method AsLinkedSetFrom<E(==)>(collection: Option<seq<Option<E>>>, more: seq<Option<seq<Option<E>>>>) returns (s: Container<E>)
    ensures fresh(s) && s.kind == LinkedHashSet && s.Valid()
    ensures s.items == InsertAll(LinkedHashSet, [], Flatten([collection] + more))
    ensures FirstOccurrences(s.items, Flatten([collection] + more))
    ensures forall x :: x in s.Members() <==> InSome([collection] + more, x)
  {
    var r := AsCollection(LinkedHashSet, collection, more);
    s := r.value;
    MergeContents(LinkedHashSet, Flatten([collection] + more));
    forall x ensures x in s.Members() <==> InSome([collection] + more, x) {
      FlattenMembers([collection] + more, x);
    }
  }

  /** `asConcurrentSet(E...)`: a fresh concurrent set of the elements; a null element throws. */
  method AsConcurrentSet<E(==)>(elements: Option<seq<Option<E>>>) returns (r: Result<Container<E>, NullPointerException>)
    ensures r.Failure? <==> None in Elements(elements)
    ensures r.Success? ==> fresh(r.value) && r.value.kind == ConcurrentKeySet && r.value.Valid()
    ensures r.Success? ==> r.value.Members() == set x | x in Elements(elements)
  {
    r := AsCollectionVarargs(ConcurrentKeySet, elements);
    MergeContents(ConcurrentKeySet, Elements(elements));
  }

  /** `asConcurrentSet(Collection, Collection...)`: the union of the non-null arguments; a null element throws. */
  method AsConcurrentSetFrom<E(==)>(collection: Option<seq<Option<E>>>, more: seq<Option<seq<Option<E>>>>)
    returns (r: Result<Container<E>, NullPointerException>)
    ensures r.Failure? <==> InSome([collection] + more, None)
    ensures r.Success? ==> fresh(r.value) && r.value.kind == ConcurrentKeySet && r.value.Valid()
    ensures r.Success? ==> forall x :: x in r.value.Members() <==> InSome([collection] + more, x)
  {
    r := AsCollection(ConcurrentKeySet, collection, more);
    FlattenMembers([collection] + more, None);
    if r.Success? {
      MergeContents(ConcurrentKeySet, Flatten([collection] + more));
      forall x ensures x in r.value.Members() <==> InSome([collection] + more, x) {
        FlattenMembers([collection] + more, x);
      }
    }
  }

  /** `asArrayList(E...)`: a fresh ArrayList equal to the elements, nulls included. */
  method AsArrayList<E(==)>(elements: Option<seq<Option<E>>>) returns (list: Container<E>)
    ensures fresh(list) && list.kind == ArrayList
    ensures list.items == Elements(elements)
  {
    var r := AsCollectionVarargs(ArrayList, elements);
    list := r.value;
    MergeContents(ArrayList, Elements(elements));
  }

  /** `asArrayList(Collection, Collection...)`: the concatenation of the non-null arguments. */
  method AsArrayListFrom<E(==)>(collection: Option<seq<Option<E>>>, more: seq<Option<seq<Option<E>>>>) returns (list: Container<E>)
    ensures fresh(list) && list.kind == ArrayList
    ensures list.items == Flatten([collection] + more)
    ensures |list.items| == TotalSize([collection] + more)
  {
    var r := AsCollection(ArrayList, collection, more);
    list := r.value;
    MergeContents(ArrayList, Flatten([collection] + more));
    FlattenLength([collection] + more);
  }

  /** `asLinkedList(E...)`: a fresh LinkedList equal to the elements, nulls included. */
  method AsLinkedList<E(==)>(elements: Option<seq<Option<E>>>) returns (list: Container<E>)
    ensures fresh(list) && list.kind == LinkedList
    ensures list.items == Elements(elements)
  {
    var r := AsCollectionVarargs(LinkedList, elements);
    list := r.value;
    MergeContents(LinkedList, Elements(elements));
  }

  /** `asLinkedList(Collection, Collection...)`: the concatenation of the non-null arguments. */
  method AsLinkedListFrom<E(==)>(collection: Option<seq<Option<E>>>, more: seq<Option<seq<Option<E>>>>) returns (list: Container<E>)
    ensures fresh(list) && list.kind == LinkedList
    ensures list.items == Flatten([collection] + more)
    ensures |list.items| == TotalSize([collection] + more)
  {
    var r := AsCollection(LinkedList, collection, more);
    list := r.value;
    MergeContents(LinkedList, Flatten([collection] + more));
    FlattenLength([collection] + more);
  }

  // ---------------------------------------------------------------------------
  // Scenarios
  // ---------------------------------------------------------------------------

  /** Merging the list [1, 2, 3] and the linked set [3, 4, 5] into a linked set gives [1, 2, 3, 4, 5]. */
  lemma LinkedSetUnionScenario()
    ensures var integers, integers2 := [Some(1), Some(2), Some(3)], [Some(3), Some(4), Some(5)];
      && InsertAll(LinkedHashSet, [], integers2) == integers2
      && InsertAll(LinkedHashSet, [], Flatten([Some(integers), Some(integers2)]))
        == [Some(1), Some(2), Some(3), Some(4), Some(5)]
  {
    var integers, integers2 := [Some(1), Some(2), Some(3)], [Some(3), Some(4), Some(5)];
    InsertAllOfDistinct(LinkedHashSet, integers2);
    InsertAllOfDistinct(LinkedHashSet, integers);
    FlattenPair(integers, integers2);
    InsertAllSplit(LinkedHashSet, [], integers, integers2);
    LinkedSetUnionTail();
  }

  /** The same union through the builders, as the library's own demonstration builds it. */
  method LinkedSetUnionExample() returns (integersUnion: Container<int>)
    ensures integersUnion.kind == LinkedHashSet
    ensures integersUnion.items == [Some(1), Some(2), Some(3), Some(4), Some(5)]
  {
    var integers := AsLinkedList(Some([Some(1), Some(2), Some(3)]));
    var integers2 := AsLinkedSet(Some([Some(3), Some(4), Some(5)]));
    integersUnion := AsLinkedSetFrom(Some(integers.items), [Some(integers2.items)]);
    LinkedSetUnionScenario();
  }

  lemma FlattenPair<T>(a: seq<T>, b: seq<T>)
    ensures Flatten([Some(a), Some(b)]) == a + b
  {
    assert [Some(a), Some(b)][..1] == [Some(a)] && [Some(a)][..0] == [];
    assert Flatten([Some(a)]) == [] + Elements(Some(a)) == a;
  }

  lemma LinkedSetUnionTail()
    ensures InsertAll(LinkedHashSet, [Some(1), Some(2), Some(3)], [Some(3), Some(4), Some(5)])
      == [Some(1), Some(2), Some(3), Some(4), Some(5)]
  {
    var k := LinkedHashSet;
    var one2three, xs := [Some(1), Some(2), Some(3)], [Some(3), Some(4), Some(5)];
    InsertAllSteps(k, one2three, xs);
    assert Insert(k, one2three, Some(3)) == one2three;
    InsertAllSteps(k, one2three, xs[1..]);
    assert Insert(k, one2three, Some(4)) == one2three + [Some(4)];
    InsertAllSteps(k, one2three + [Some(4)], xs[2..]);
    assert Insert(k, one2three + [Some(4)], Some(5)) == [Some(1), Some(2), Some(3), Some(4), Some(5)];
    InsertAllSteps(k, [Some(1), Some(2), Some(3), Some(4), Some(5)], xs[3..]);
  }

  /** `InsertAll` unfolded element by element from the front, for the scenarios. */
  lemma InsertAllSteps<T>(kind: Kind, items: seq<T>, xs: seq<T>)
    ensures InsertAll(kind, items, xs) == if |xs| == 0 then items else InsertAll(kind, Insert(kind, items, xs[0]), xs[1..])
  {
    if |xs| > 0 {
      assert xs == [xs[0]] + xs[1..];
      assert [xs[0]][..0] == [];
      InsertAllSplit(kind, items, [xs[0]], xs[1..]);
    }
  }

  /** A linked set keeps null as a member, once: [null, "1", null, "2"] gives [null, "1", "2"]. */
  lemma LinkedSetKeepsNullScenario()
    ensures InsertAll(LinkedHashSet, [], [None, Some("1"), None, Some("2")]) == [None, Some("1"), Some("2")]
  {
    var k := LinkedHashSet;
    var xs := [None, Some("1"), None, Some("2")];
    var empty: seq<Option<string>> := [];
    InsertAllSteps(k, empty, xs);
    assert Insert(k, empty, None) == [None];
    InsertAllSteps(k, [None], xs[1..]);
    assert Insert(k, [None], Some("1")) == [None, Some("1")];
    InsertAllSteps(k, [None, Some("1")], xs[2..]);
    assert Insert(k, [None, Some("1")], None) == [None, Some("1")];
    InsertAllSteps(k, [None, Some("1")], xs[3..]);
    assert Insert(k, [None, Some("1")], Some("2")) == [None, Some("1"), Some("2")];
    InsertAllSteps(k, [None, Some("1"), Some("2")], xs[4..]);
  }

  /** `asLinkedSet` of the list [null, "1", null, "2"], a single collection argument, holds [null, "1", "2"]. */
  method LinkedSetKeepsNullExample() returns (s: Container<string>)
    ensures s.kind == LinkedHashSet
    ensures s.items == [None, Some("1"), Some("2")]
  {
    var stringsWithNulls := [None, Some("1"), None, Some("2")];
    s := AsLinkedSetFrom(Some(stringsWithNulls), []);
    assert [Some(stringsWithNulls)] + [] == [Some(stringsWithNulls)];
    assert [Some(stringsWithNulls)][..0] == [];
    assert Flatten([Some(stringsWithNulls)]) == stringsWithNulls;
    LinkedSetKeepsNullScenario();
  }

  /** Three null collections merge into an empty collection, of every kind. */
  lemma AllNullScenario<T>(kind: Kind)
    ensures var inputs: seq<Option<seq<T>>> := [None, None, None];
      Flatten(inputs) == [] && InsertAll(kind, [], Flatten(inputs)) == []
  {
    var inputs: seq<Option<seq<T>>> := [None, None, None];
    assert inputs[..2] == [None, None] && inputs[..2][..1] == [None] && inputs[..1][..0] == [];
    assert Flatten(inputs[..1]) == [] + [] == [];
    assert Flatten(inputs[..2]) == Flatten(inputs[..1]) + [] == [];
    assert Flatten(inputs) == Flatten(inputs[..2]) + [] == [];
  }

  /** The elements of `main`'s untyped collections: a string or an integer. */
  datatype Object = Text(text: string) | Number(number: int)

  /** `asConcurrentSet("Hello", 1)` holds exactly "Hello" and 1, in no promised order. */
  method ConcurrentSetExample() returns (objects: Container<Object>)
    ensures objects.kind == ConcurrentKeySet
    ensures objects.Members() == {Some(Text("Hello")), Some(Number(1))}
  {
    var r := AsConcurrentSet(Some([Some(Text("Hello")), Some(Number(1))]));
    objects := r.value;
  }

  /** Contents without members are empty. */
  lemma NoMembersNoItems<T>(items: seq<T>)
    ensures (set x | x in items) == {} ==> items == []
  {
    if items != [] {
      var members := set x | x in items;
      assert items[0] in members;
    }
  }

  /** `asSet()` with no arguments is an empty HashSet. */
  method EmptySetExample() returns (s: Container<Object>)
    ensures s.kind == HashSet
    ensures s.Members() == {} && s.items == []
  {
    s := AsSet(Some([]));
    NoMembersNoItems(s.items);
  }

  /**
   * The predicate checks of `main`: an empty array and an empty `asSet()` hold no element,
   * and the list `asLinkedList(1, 2, 3)` does.
   */
  method PredicateExamples() returns (emptyArrayHasOne: bool, emptySetHasOne: bool, listHasOne: bool,
                                      emptySetIsEmpty: bool, listIsEmpty: bool)
    ensures !emptyArrayHasOne && !emptySetHasOne && listHasOne
    ensures emptySetIsEmpty && !listIsEmpty
  {
    var emptyStringArr: seq<Option<string>> := [];
    var integers := AsLinkedList(Some([Some(1), Some(2), Some(3)]));
    var emptySet := EmptySetExample();
    emptyArrayHasOne := HasAtLeastOneElement(Some(emptyStringArr));
    emptySetHasOne := HasAtLeastOneElement(Some(emptySet.items));
    listHasOne := HasAtLeastOneElement(Some(integers.items));
    emptySetIsEmpty := IsNullOrEmpty(Some(emptySet.items));
    listIsEmpty := IsNullOrEmpty(Some(integers.items));
  }

  /** A concurrent set refuses a null element that every other kind accepts. */
  lemma ConcurrentSetRefusesNullScenario()
    ensures !AdmitsAll(ConcurrentKeySet, [Some("Hello"), None])
    ensures AdmitsAll(HashSet, [Some("Hello"), None])
  {
    assert None in [Some("Hello"), None];
  }
}
