# DirectInstantiator, modelled in Dafny

This project models Gradle's `org.gradle.internal.reflect.DirectInstantiator`.
It builds an object of a class from a list of arguments. It does this in three steps:

- It looks up the class's public constructors in a `ConstructorCache`. This is a map
  from class to a weakly held array of `CachedConstructor` wrappers, filled lazily.
- It selects the one constructor whose `isMatch(params)` holds. It fails when none
  matches, and it fails when a second one matches.
- It invokes the selected constructor. Every `Exception` raised on the way is
  rethrown as an `ObjectInstantiationException` for the class. A failure thrown by
  the constructor body is first unwrapped from its `InvocationTargetException`.

Files:

- `wrappers.dfy`: module `Wrappers`, with `Option` (Java's null) and `Result` (return or throw).
- `java_reflection.dfy`: module `JavaReflection`. It holds the runtime types, the
  `CachedConstructor` wrapper, the throwables, and `Wrap`, the order-preserving
  wrapping that `ConstructorCache.cache` performs.
- `direct_instantiator.dfy`: module `Reflect`. It holds the selection specification
  `Selection` and the loop `DoGetConstructor` proved against it. It also holds the
  `ConstructorCache` class, the specification `Instantiation`, the
  `DirectInstantiator` class and the lemmas about them.

Selection is specified declaratively. No accepting candidate gives
`NoPublicConstructor`. Two accepting candidates `i < j` give
`MultiplePublicConstructors`. Otherwise the result is the handle of the single
accepting candidate. A second, independent definition counts the accepting
candidates (`MatchCount`). `SelectionByCount` proves that the two agree on all
three outcomes.

The cache's object invariant `Valid()` says that every live entry equals
`Wrap(getConstructors(key))`. So `Get` returns the same list on a hit and on a
miss, and every other key's entry is left as it was.

Abstracted runtime pieces. These are parameters or constants fixed when the objects are built:

- `Class.getConstructors()` is `getConstructors: Class -> seq<Constructor>`. It is a
  deterministic function, so a class always enumerates the same constructors.
- `CachedConstructor.isMatch(params)` is `isMatch: (CachedConstructor, seq<Value>) -> bool`.
  It is an arbitrary predicate, because `JavaReflectionUtil` is not part of this model.
- `Constructor.newInstance(params)` is `invoke: (Constructor, seq<Value>) -> Result<Instance, Throwable>`.
  A failure of the constructor body arrives as `InvocationTarget(cause)`. Reflective
  failures such as an illegal access arrive as `Raised(id, false)`. A
  `java.lang.Error` such as `ExceptionInInitializerError` arrives as `Raised(id, true)`.
- The garbage collector is represented by two explicit methods.
  `ClearReference` clears an entry's weak reference, which becomes `None`.
  `ExpungeEntry` drops a map entry.

## Model

| member | source | states |
|---|---|---|
| `JavaReflection.Wrap` | subprojects/base-services/src/main/java/org/gradle/internal/reflect/DirectInstantiator.java:96-101 | the wrapped list has exactly as many elements as the constructor list |
| `JavaReflection.WrapAt` | subprojects/base-services/src/main/java/org/gradle/internal/reflect/DirectInstantiator.java:96-101 | element i of the wrapped list wraps constructor i, so order is kept and `getConstructor()` returns constructor i |
| `JavaReflection.WrapInjective` | subprojects/base-services/src/main/java/org/gradle/internal/reflect/DirectInstantiator.java:96-101 | two constructor lists with equal wrappings are equal, so wrapping loses nothing |
| `Reflect.SelectionSucceedsIff` | subprojects/base-services/src/main/java/org/gradle/internal/reflect/DirectInstantiator.java:51-65 | selection returns constructor c if and only if exactly one candidate accepts the arguments and c is that candidate's constructor |
| `Reflect.SelectionUnique` | subprojects/base-services/src/main/java/org/gradle/internal/reflect/DirectInstantiator.java:51-65 | when exactly one candidate accepts, selection returns that candidate's constructor |
| `Reflect.SelectionAmbiguous` | subprojects/base-services/src/main/java/org/gradle/internal/reflect/DirectInstantiator.java:54-57 | when two different candidates accept, selection fails with the "multiple public constructors" error and returns no constructor |
| `Reflect.SelectionNoneIff` | subprojects/base-services/src/main/java/org/gradle/internal/reflect/DirectInstantiator.java:51-64 | selection fails with "could not find any public constructor" if and only if no candidate accepts, which includes an empty list |
| `Reflect.SelectionByCount` | subprojects/base-services/src/main/java/org/gradle/internal/reflect/DirectInstantiator.java:51-65 | the result is success exactly when the accepting count is 1, "could not find" exactly when it is 0, and "multiple" exactly when it is 2 or more |
| `Reflect.DoGetConstructor` | subprojects/base-services/src/main/java/org/gradle/internal/reflect/DirectInstantiator.java:50-66 | the scan with its early exit returns exactly `Selection`. Its invariant: `found` is empty if and only if nothing in the scanned prefix accepts, and otherwise it is the prefix's only accepting candidate |
| `Reflect.ConstructorCache.constructor` | subprojects/base-services/src/main/java/org/gradle/internal/reflect/DirectInstantiator.java:69-71 | a new cache is empty and satisfies the invariant that every live entry is the wrapped enumeration of its class |
| `Reflect.ConstructorCache.Get` | subprojects/base-services/src/main/java/org/gradle/internal/reflect/DirectInstantiator.java:73-85 | the result always equals `Wrap(getConstructors(key))`. On a live hit it is the stored list and the map is unchanged. On a miss (absent key or cleared reference) exactly that list is stored under key and every other entry is unchanged |
| `Reflect.ConstructorCache.GetAndCache` | subprojects/base-services/src/main/java/org/gradle/internal/reflect/DirectInstantiator.java:87-94 | the wrapped enumeration is stored under key, replacing any earlier entry, and exactly the stored list is returned. The invariant is kept |
| `Reflect.ConstructorCache.Cache` | subprojects/base-services/src/main/java/org/gradle/internal/reflect/DirectInstantiator.java:96-102 | the result is a fresh array of the same length in which element i wraps `constructors[i]` |
| `Reflect.ConstructorCache.ClearReference` | subprojects/base-services/src/main/java/org/gradle/internal/reflect/DirectInstantiator.java:71 | the collector clearing a weak reference turns that entry into `None`, leaves every other entry alone and keeps the invariant |
| `Reflect.ConstructorCache.ExpungeEntry` | subprojects/base-services/src/main/java/org/gradle/internal/reflect/DirectInstantiator.java:71 | the weak map dropping a class removes only that entry and keeps the invariant |
| `Reflect.RepeatedGetsAgree` | subprojects/base-services/src/main/java/org/gradle/internal/reflect/DirectInstantiator.java:73-94 | two lookups of one class return the same list, even when the entry is reclaimed between them |
| `Reflect.NewInstanceSucceedsIff` | subprojects/base-services/src/main/java/org/gradle/internal/reflect/DirectInstantiator.java:39-48 | newInstance returns o if and only if exactly one candidate accepts the arguments and invoking its constructor builds o |
| `Reflect.NewInstanceNoMatch` | subprojects/base-services/src/main/java/org/gradle/internal/reflect/DirectInstantiator.java:40-64 | with no accepting candidate the result is `ObjectInstantiationException(type, <could not find any public constructor>)` |
| `Reflect.NewInstanceAmbiguous` | subprojects/base-services/src/main/java/org/gradle/internal/reflect/DirectInstantiator.java:40-57 | with two accepting candidates the result is `ObjectInstantiationException(type, <multiple public constructors>)` |
| `Reflect.Rethrown` | subprojects/base-services/src/main/java/org/gradle/internal/reflect/DirectInstantiator.java:43-47 | the catch clauses never change the kind of a failure: an Exception comes out as an `ObjectInstantiationException` for the requested class, and a failure is an Exception afterwards exactly when it was one before, so a `java.lang.Error` is never turned into an Exception. The causes they keep are stated by `NewInstanceUnwrapsCause`, `NewInstanceWrapsException` and `NewInstanceWrapsFailures` |
| `Reflect.NewInstanceUnwrapsCause` | subprojects/base-services/src/main/java/org/gradle/internal/reflect/DirectInstantiator.java:40-44 | a failure thrown by the selected constructor's body is reported as `ObjectInstantiationException(type, cause)`, with the cause unwrapped from `InvocationTargetException` |
| `Reflect.NewInstanceWrapsFailures` | subprojects/base-services/src/main/java/org/gradle/internal/reflect/DirectInstantiator.java:40-47 | every Exception that leaves newInstance is an `ObjectInstantiationException` for the requested class, and its cause is one of: the "could not find" failure, the "multiple" failure, what the one accepting constructor's body threw (unwrapped from `InvocationTargetException`), or the other Exception that invoking it raised. A `java.lang.Error` from invoking the one accepting constructor is the only failure that `catch (Exception e)` lets through unchanged |
| `Reflect.NewInstanceWrapsException` | subprojects/base-services/src/main/java/org/gradle/internal/reflect/DirectInstantiator.java:45-46 | an Exception other than `InvocationTargetException` raised by invoking the one accepting constructor (an illegal access, an abstract class, an argument mismatch) is reported as `ObjectInstantiationException(type, e)` with that Exception `e` as the cause |
| `Reflect.NewInstanceOfEnumerated` | subprojects/base-services/src/main/java/org/gradle/internal/reflect/DirectInstantiator.java:39-42 | over the class's wrapped enumeration, if constructor i is the only one accepting the arguments and builds o, newInstance returns o |
| `Reflect.DirectInstantiator.constructor` | subprojects/base-services/src/main/java/org/gradle/internal/reflect/DirectInstantiator.java:30 | a new instantiator owns a fresh, empty, valid constructor cache |
| `Reflect.DirectInstantiator.NewInstance` | subprojects/base-services/src/main/java/org/gradle/internal/reflect/DirectInstantiator.java:39-48 | the result is `Instantiation` over the class's wrapped enumeration, whatever the cache held before. The ghost result `selection` is `Selection` over that enumeration. The cache changes only as `Get` changes it |
| `Reflect.RepeatedInstantiationSelectsAlike` | subprojects/base-services/src/main/java/org/gradle/internal/reflect/DirectInstantiator.java:39-48 | two instantiations of one class with the same arguments select the same constructor, whether or not the collector cleared the cache entry between the two calls. When selection fails, no constructor runs and both report the same `ObjectInstantiationException` |

## Left out

- Java reflection (`Class.getConstructors`, `Constructor.newInstance`, `type.cast`) is foreign runtime code. It appears only as the function parameters described above.
- `type.cast` is left out. It cannot fail here, because a constructor of the class returns an instance of that class.
- The `SecurityException` that `getConstructors` may throw is left out. The enumeration is a total function.
- The internals of `CachedConstructor.isMatch` are left out: arity, assignability, primitive and boxed types, and null arguments. `JavaReflectionUtil` is not part of this model.
- Weak retention is left out. Reclamation happens only through the explicit `ClearReference` and `ExpungeEntry` methods.
- The `synchronized (lock)` blocks and the benign race between concurrent misses are left out, because concurrency is out of scope. `Get` is sequential.
- Aliasing of the returned array is not captured. The cache stores and returns the wrapped constructors as a value (`seq`), not as the shared array that callers of the Java `get` receive and could mutate. Only `Cache` builds a real array.
- The text of the two `IllegalArgumentException` messages is left out. They are the distinct constructors `NoPublicConstructor` and `MultiplePublicConstructors`, each carrying the class and the arguments.
- `DoGetConstructor` is a module-level method rather than a private instance method, because it reads no state of the instantiator.
- `invoke` is a pure function, so object identity and the side effects of a constructor body are not modelled. In Java each call builds a new object, and a constructor body may fail on one call and succeed on another. The lemmas about `Instantiation` therefore say nothing about the identity of the objects built.
- The static singleton `INSTANCE` (line 28) and the `instantiate` forwarder (lines 32-34) are left out. They only give access to one shared instance.
