/**
 * The parts of the Java runtime and of JavaReflectionUtil that DirectInstantiator
 * relies on, reduced to what the instantiator observes of them: opaque handles
 * for classes, constructors, argument values and instances; the CachedConstructor
 * wrapper; and the throwables that can reach newInstance.
 */
module JavaReflection {
  import opened Wrappers

  /** A java.lang.Class, used as the cache key; only its identity matters. */
  type Class(==)

  /** A public java.lang.reflect.Constructor of some class; like any Java reference it has
      a default value (null), with which a new array of them starts out filled. */
  type Constructor(0)

  /** One argument passed to newInstance (any object, or null). */
  type Value

  /** An object built by a constructor. */
  type Instance

  /** JavaReflectionUtil.CachedConstructor: a constructor together with the parameter
      signature derived from it; getConstructor() gives back `handle`. */
  datatype CachedConstructor = CachedConstructor(handle: Constructor)

  /**
   * JavaReflectionUtil.CachedConstructor.isMatch(params): whether the wrapped
   * constructor accepts these arguments. Its internals (arity, assignability,
   * primitive and boxed types, null arguments) are not part of this model, so it
   * is an arbitrary total predicate supplied by the caller.
   */
  type Matcher = (CachedConstructor, seq<Value>) -> bool

  /** Class.getConstructors(): the public constructors of a class, in a fixed order. */
  type Enumerator = Class -> seq<Constructor>

  /** Constructor.newInstance(params): either the new object or what it throws. */
  type Invoker = (Constructor, seq<Value>) -> Result<Instance, Throwable>

  /**
   * The throwables that can reach newInstance.
   *  - NoPublicConstructor, MultiplePublicConstructors: the two IllegalArgumentExceptions
   *    of constructor selection, each naming the class and the arguments.
   *  - InvocationTarget: reflection's wrapper around whatever the constructor body threw.
   *  - ObjectInstantiation: ObjectInstantiationException(type, cause).
   *  - Raised: any other throwable (an IllegalAccessException, an InstantiationException,
   *    or an exception thrown by a constructor body), identified by `id`; `isError` marks
   *    subclasses of java.lang.Error, such as ExceptionInInitializerError.
   */
  datatype Throwable =
    | NoPublicConstructor(target: Class, params: seq<Value>)
    | MultiplePublicConstructors(target: Class, params: seq<Value>)
    | InvocationTarget(cause: Throwable)
    | ObjectInstantiation(target: Class, cause: Throwable)
    | Raised(id: nat, isError: bool)
  {
    /** Whether this throwable is a java.lang.Exception, i.e. caught by `catch (Exception e)`. */
    predicate IsException() {
      !(Raised? && isError)
    }
  }

  /** The constructors wrapped one by one, in order: what ConstructorCache.cache builds. */
  function Wrap(constructors: seq<Constructor>): (r: seq<CachedConstructor>)
    ensures |r| == |constructors|
  {
    if |constructors| == 0 then []
    else Wrap(constructors[..|constructors| - 1]) + [CachedConstructor(constructors[|constructors| - 1])]
  }

  /** Element i of the wrapped list wraps constructor i, so getConstructor() gives it back. */
  lemma {:induction false} WrapAt(constructors: seq<Constructor>, i: nat)
    requires i < |constructors|
    ensures Wrap(constructors)[i] == CachedConstructor(constructors[i])
    ensures Wrap(constructors)[i].handle == constructors[i]
  {
    var n := |constructors|;
    if i < n - 1 {
      WrapAt(constructors[..n - 1], i);
    }
  }

  /** Wrapping loses nothing: equal wrapped lists come from equal constructor lists. */
  lemma {:induction false} WrapInjective(a: seq<Constructor>, b: seq<Constructor>)
    requires Wrap(a) == Wrap(b)
    ensures a == b
  {
    assert |a| == |b|;
    forall i | 0 <= i < |a|
      ensures a[i] == b[i]
    {
      WrapAt(a, i);
      WrapAt(b, i);
    }
  }
}
