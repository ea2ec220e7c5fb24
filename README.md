# oranjava utilities, modelled in Dafny

This project models the two utility classes of the oranjava library:

- **`datastrikers.Collections`** (module `Collections`, `collections.dfy`): static factories that
  build a new, mutable collection from a varargs array (`asCollectionVarargs`) or from a first
  collection followed by a varargs array of further collections (`asCollection`). Null and empty
  arguments are skipped. Ten per-class wrappers (`asSet`, `asLinkedSet`, `asConcurrentSet`,
  `asArrayList`, `asLinkedList`, each in a varargs form and a merging form) bind the two factories
  to a collection class. The `isNullOrEmpty` and `hasAtLeastOneElement` predicates go with them.
- **`tries.Try`** (module `Tries`, `tries.dfy`): `tryOrElse` and `unchecked`, which turn
  exception control flow into values. Each comes in a value form (`Callable`) and a void form
  (`Runnable`).

`wrappers.dfy` holds the shared `Option` and `Result` datatypes.

## How the source is represented

- A Java reference of element type `E` is an `Option<E>`; `None` is `null`. A nullable array or
  collection argument is an `Option<seq<Option<E>>>`, listed in the order its iterator yields it.
  The array overload and the collection overload of each predicate become one function.
- The `Supplier` of a new collection becomes a `Kind`: `HashSet`, `LinkedHashSet`,
  `ConcurrentKeySet` (the set from `ConcurrentHashMap.newKeySet`), `ArrayList` or `LinkedList`.
- The collection being built is a `Container` object. The constructor stands for
  `collectionCtor.get()`. `Add` and `AddAll` stand for `Collection.add` and `Collection.addAll`;
  `AddAll` adds one element at a time in a loop. The contents are a sequence `items`. List kinds
  append. Set kinds skip an element they already hold, so `items` stays duplicate-free.
  `Kind.KeepsInsertionOrder` holds for the two lists and the linked set, whose iteration order is
  the order of adding. Every contract that fixes `items` is guarded by it. For the two hashed sets,
  which promise no order, the contracts state only `Members()` and that `items` has no duplicate.
- Dafny's `==` on elements stands for Java's `equals` and `hashCode`. It is the test by which a set
  kind drops a duplicate (`Insert`).
- Arguments are immutable values, so no builder can modify its inputs. Every builder's contract
  says that its result is `fresh`, that is, a newly allocated object that aliases nothing.
- In `Tries`, a caller's computation is the `Result<V, F>` it ends in: `Success(v)` if it returns
  `v`, `Failure(t)` if it throws `t`. A recovery (`codeIfThrown`) is a function from the caught
  failure to such a result. A call of the executor ends in an `Outcome`: a value, or a thrown
  `RuntimeException(cause)`. The `Runnable` forms use the unit value `()`.
- Which computations the executor calls, and in what order, is modelled by a small state machine
  (`Phase`, `Step`, `Run`). It records every call it makes, and it is proved to end in exactly what
  `TryOrElse` returns.

## Where the code and its documentation differ

The library's documentation says that its builders are safe from `NullPointerException` and skip null
arguments (Collections.java:15, 171, 266). The model follows the code. The
concurrent set comes from `ConcurrentHashMap.newKeySet` (Collections.java:100, 113), and that set
throws `NullPointerException` when it is handed a null element. So `asConcurrentSet` fails exactly
when some present argument holds `null`. `AsCollection` and `AsCollectionVarargs` therefore
return a `Result`, and they are proved to fail only for that kind and only for that reason. The
other kinds accept null. Their wrappers are proved never to fail, so they return the collection
directly.

## Model

| member | source | states |
|---|---|---|
| `Collections.Kind.Admits` | src/main/java/com/oranjava/datastrikers/Collections.java:100 | whether `add` accepts an element: every kind does except the concurrent key set, which refuses null |
| `Collections.Insert` | src/main/java/com/oranjava/datastrikers/Collections.java:187 | `Collection.add` on the contents: a set kind leaves contents that already hold the element unchanged; otherwise the element is appended (its properties are proved over `InsertAll`) |
| `Collections.InsertAllExtends` | src/main/java/com/oranjava/datastrikers/Collections.java:186-192 | `Collection.addAll`, one `add` per element, keeps the old contents in front and adds at most one slot per element |
| `Collections.IsNullOrEmpty` | src/main/java/com/oranjava/datastrikers/Collections.java:226-239 | the argument is null, or it holds no element at all |
| `Collections.HasAtLeastOneElement` | src/main/java/com/oranjava/datastrikers/Collections.java:249-262 | the argument is non-null and holds some element |
| `Collections.HasAtLeastOneElementIsNegation` | src/main/java/com/oranjava/datastrikers/Collections.java:226-262 | the two predicates are exact complements for every null, empty or non-empty argument |
| `Collections.Container.constructor` | src/main/java/com/oranjava/datastrikers/Collections.java:184 | the supplier yields an empty collection of the requested kind |
| `Collections.Container.Add` | src/main/java/com/oranjava/datastrikers/Collections.java:187 | `Collection.add`, the per-element step of that `addAll`: only a concurrent set refuses null, and then nothing changes; otherwise the element joins the members; in an ordered kind a list appends it and the linked set ignores one it holds; sets stay duplicate-free |
| `Collections.Container.AddAll` | src/main/java/com/oranjava/datastrikers/Collections.java:186-192 | succeeds iff the kind admits every element; then the members are the old ones and the added ones, and in an ordered kind the contents are the old contents with each element added in turn |
| `Collections.MergeArgument` | src/main/java/com/oranjava/datastrikers/Collections.java:186-194 | one argument of `asCollection`: skipped when null or empty, else added with `addAll`; fails iff a concurrent set meets null, and otherwise the collection is what adding the elements so far and then this argument's makes |
| `Collections.AsCollection` | src/main/java/com/oranjava/datastrikers/Collections.java:181-195 | a fresh collection of the kind whose members are those of `collection` and each member of `more`, null and empty ones skipped; in an ordered kind, their elements added in that order; fails only on a null element for a concurrent set |
| `Collections.AsCollectionVarargs` | src/main/java/com/oranjava/datastrikers/Collections.java:207-216 | null or empty `elements` gives a fresh empty collection; otherwise its members are the elements, nulls included, and in an ordered kind they are added in argument order |
| `Collections.AsSet` | src/main/java/com/oranjava/datastrikers/Collections.java:49-51 | a fresh HashSet whose members are exactly the elements |
| `Collections.AsSetFrom` | src/main/java/com/oranjava/datastrikers/Collections.java:62-64 | a fresh HashSet whose members are exactly the union of the non-null arguments |
| `Collections.AsLinkedSet` | src/main/java/com/oranjava/datastrikers/Collections.java:74-76 | a fresh LinkedHashSet whose contents are the elements added in turn to an empty linked set, so each element once, in order of first occurrence |
| `Collections.AsLinkedSetFrom` | src/main/java/com/oranjava/datastrikers/Collections.java:87-89 | the non-null arguments' elements added in turn to an empty linked set, so in argument order with later duplicates dropped; members are the union |
| `Collections.AsConcurrentSet` | src/main/java/com/oranjava/datastrikers/Collections.java:99-101 | fails iff an element is null; otherwise a fresh concurrent set whose members are exactly the elements |
| `Collections.AsConcurrentSetFrom` | src/main/java/com/oranjava/datastrikers/Collections.java:112-114 | fails iff some non-null argument holds null; otherwise its members are exactly the union of the arguments |
| `Collections.AsArrayList` | src/main/java/com/oranjava/datastrikers/Collections.java:125-127 | a fresh ArrayList equal to the elements (empty for null) |
| `Collections.AsArrayListFrom` | src/main/java/com/oranjava/datastrikers/Collections.java:138-140 | the concatenation of the non-null arguments; its length is the sum of their sizes |
| `Collections.AsLinkedList` | src/main/java/com/oranjava/datastrikers/Collections.java:151-153 | a fresh LinkedList equal to the elements (empty for null) |
| `Collections.AsLinkedListFrom` | src/main/java/com/oranjava/datastrikers/Collections.java:164-166 | the concatenation of the non-null arguments; its length is the sum of their sizes |
| `Collections.FlattenAppend` | src/main/java/com/oranjava/datastrikers/Collections.java:190-192 | copying a run of arguments then another run copies the concatenation of what each run copies |
| `Collections.FlattenLength` | src/main/java/com/oranjava/datastrikers/Collections.java:186-192 | the number of elements copied is the sum of the sizes of the non-null arguments |
| `Collections.FlattenMembers` | src/main/java/com/oranjava/datastrikers/Collections.java:186-192 | an element is copied iff some non-null argument holds it |
| `Collections.InsertAllSplit` | src/main/java/com/oranjava/datastrikers/Collections.java:187-192 | adding a concatenation is the same as adding its first part and then its second part |
| `Collections.InsertAllAppends` | src/main/java/com/oranjava/datastrikers/Collections.java:125-166 | a list kind appends every element, duplicates and nulls included |
| `Collections.InsertAllMembers` | src/main/java/com/oranjava/datastrikers/Collections.java:49-114 | after adding, every kind holds exactly the old elements and the added ones |
| `Collections.InsertAllNoDuplicates` | src/main/java/com/oranjava/datastrikers/Collections.java:49-114 | a set kind never holds an element twice |
| `Collections.InsertAllFirstOccurrenceOrder` | src/main/java/com/oranjava/datastrikers/Collections.java:74-89 | a set kind lists its elements in the order of their first occurrence in the input |
| `Collections.MergeContents` | src/main/java/com/oranjava/datastrikers/Collections.java:181-216 | merging gives the input itself for list kinds, and its first occurrences in order for set kinds |
| `Collections.InsertAllOfDistinct` | src/main/java/com/oranjava/datastrikers/Collections.java:273-275 | merging an existing set into a set kind gives it back in its own order |
| `Collections.LinkedSetUnionScenario` | src/main/java/com/oranjava/datastrikers/Collections.java:270-276 | the list [1,2,3] merged with the linked set [3,4,5] gives [1,2,3,4,5] |
| `Collections.LinkedSetKeepsNullScenario` | src/main/java/com/oranjava/datastrikers/Collections.java:284-285 | [null,"1",null,"2"] as a linked set is [null,"1","2"] |
| `Collections.LinkedSetUnionExample` | src/main/java/com/oranjava/datastrikers/Collections.java:270-276 | the demonstration built through the builders: `asLinkedSet` of the linked list [1,2,3] and the linked set [3,4,5] holds [1,2,3,4,5] |
| `Collections.LinkedSetKeepsNullExample` | src/main/java/com/oranjava/datastrikers/Collections.java:284-285 | `asLinkedSet` with the list [null,"1",null,"2"] as its one collection argument holds [null,"1","2"] |
| `Collections.AllNullScenario` | src/main/java/com/oranjava/datastrikers/Collections.java:184-194 | three null collections contribute no element, so they merge into an empty collection, of every kind |
| `Collections.ConcurrentSetExample` | src/main/java/com/oranjava/datastrikers/Collections.java:277-279 | `asConcurrentSet("Hello", 1)` holds exactly "Hello" and 1, in no promised order |
| `Collections.EmptySetExample` | src/main/java/com/oranjava/datastrikers/Collections.java:281 | `asSet()` with no arguments is an empty HashSet |
| `Collections.PredicateExamples` | src/main/java/com/oranjava/datastrikers/Collections.java:299-305 | an empty array and an empty `asSet()` hold no element and the list 1, 2, 3 holds one; the empty set is null-or-empty and the list is not |
| `Collections.ConcurrentSetRefusesNullScenario` | src/main/java/com/oranjava/datastrikers/Collections.java:99-101 | a concurrent set refuses an element list holding null that a HashSet accepts |
| `Tries.TryOrElse` | src/main/java/com/oranjava/tries/Try.java:68-78 | `tryOrElse(Callable, Function)`: code's value; if code throws, the recovery's value; if that throws too, a RuntimeException around the recovery's failure |
| `Tries.TryOrElseRun` | src/main/java/com/oranjava/tries/Try.java:119-129 | `tryOrElse(Runnable, Consumer)`: the same control flow without a value |
| `Tries.Unchecked` | src/main/java/com/oranjava/tries/Try.java:163-169 | `unchecked(Callable)`: code's value, or code's failure inside a RuntimeException |
| `Tries.UncheckedRun` | src/main/java/com/oranjava/tries/Try.java:200-206 | `unchecked(Runnable)`: returns, or throws code's failure inside a RuntimeException |
| `Tries.Step` | src/main/java/com/oranjava/tries/Try.java:68-78 | one step of the executor: run code or the recovery, and move on by how it ended; every step leaves fewer computations to run |
| `Tries.Run` | src/main/java/com/oranjava/tries/Try.java:68-78 | the executor's steps from a phase until it is done, with the calls made in order |
| `Tries.TryOrElseOutcome` | src/main/java/com/oranjava/tries/Try.java:68-78 | returns code's value when code succeeds; throws only when code and recovery both fail, with the recovery's failure as cause; otherwise returns the recovery's value |
| `Tries.ReturningRecoveryNeverThrows` | src/main/java/com/oranjava/tries/Try.java:71-73 | with a recovery that always returns, `tryOrElse` never throws |
| `Tries.UncheckedOutcome` | src/main/java/com/oranjava/tries/Try.java:163-169 | `unchecked` returns code's value on success and otherwise throws a RuntimeException whose cause is code's failure |
| `Tries.UncheckedIsTryOrElseRethrowing` | src/main/java/com/oranjava/tries/Try.java:163-169 | `unchecked(code)` equals `tryOrElse` with a recovery that rethrows what it caught |
| `Tries.VoidFormsAgree` | src/main/java/com/oranjava/tries/Try.java:119-206 | the `Runnable` forms (lines 119-129 and 200-206) end exactly as the `Callable` forms (lines 68-78 and 163-169) do on the same computations: the same return, or the same thrown exception |
| `Tries.RunAgreesWithTryOrElse` | src/main/java/com/oranjava/tries/Try.java:68-78 | the state machine that runs code, then the recovery, then wraps, ends in exactly what `tryOrElse` returns or throws |
| `Tries.CodeOnceRecoveryAtMostOnce` | src/main/java/com/oranjava/tries/Try.java:68-78 | code is called exactly once, first; the recovery is called at most once, exactly when code failed, and is given code's failure |
| `Tries.DivisionByZeroRecovers` | src/main/java/com/oranjava/tries/Try.java:213-216 | a failing division with recovery `ex -> -1` yields -1 |
| `Tries.UncheckedReturnsValueScenario` | src/main/java/com/oranjava/tries/Try.java:219-220 | `unchecked` of a class lookup that succeeds returns the class, whose simple name is "String" |
| `Tries.VoidRecoveryScenario` | src/main/java/com/oranjava/tries/Try.java:222-225 | the void `tryOrElse` of a failing division whose recovery only reports the failure returns normally |
| `Tries.PrimaryFailureIsDiscarded` | src/main/java/com/oranjava/tries/Try.java:74-76 | when both computations fail, the cause is the recovery's failure and not code's |

## Left out

- A null `more` array: `Arrays.stream(more)` throws NullPointerException on it. In the model `more` is a non-null sequence, and only its members may be null.
- Collection classes other than the five kinds: the generic factories accept any `Supplier`, such as `ArrayDeque::new` or `PriorityQueue::new`. The heap order of a PriorityQueue depends on JDK internals.
- The iteration order of HashSet and of the concurrent set: it depends on hashing, so their contracts state only their members and that no element is held twice.
- The thread safety of the concurrent set: it is modelled as a plain set.
- The boolean that `Collection.add` and `addAll` return: the source never reads it.
- What a concurrent set held before `addAll` threw: the exception propagates and the half-built collection is lost.
- The `main` methods and all printing in both classes. Their demonstrations appear as the scenario lemmas and example methods in the table, with two exceptions. The `asCollection(ArrayDeque::new, …)` and `asCollectionVarargs(PriorityQueue::new, …)` demonstrations (Collections.java:287-297) use collection classes outside the five kinds.
- The `Throwable` hierarchy, checked-exception typing, and what the caller's lambdas compute or print. A computation is the `Result` it ends in, and a failure is an opaque value.
