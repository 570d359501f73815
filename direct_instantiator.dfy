/**
 * org.gradle.internal.reflect.DirectInstantiator: builds an object of a class by
 * picking the one public constructor that accepts the given arguments and invoking
 * it, with the class's wrapped constructors kept in a lazily filled, weakly held cache.
 */
module Reflect {
  import opened Wrappers
  import opened JavaReflection

  // ---------------------------------------------------------------------------
  // Constructor selection
  // ---------------------------------------------------------------------------

  /** Candidate i exists and accepts the arguments. */
  predicate Accepts(candidates: seq<CachedConstructor>, params: seq<Value>, isMatch: Matcher, i: int)
  {
    0 <= i < |candidates| && isMatch(candidates[i], params)
  }

  /** Candidate i is the one and only candidate that accepts the arguments. */
  ghost predicate UniqueMatch(candidates: seq<CachedConstructor>, params: seq<Value>, isMatch: Matcher, i: int)
  {
    Accepts(candidates, params, isMatch, i) &&
    forall j :: Accepts(candidates, params, isMatch, j) ==> j == i
  }

  /** Two different candidates accept the arguments. */
  ghost predicate Ambiguous(candidates: seq<CachedConstructor>, params: seq<Value>, isMatch: Matcher)
  {
    exists i, j :: i < j && Accepts(candidates, params, isMatch, i) && Accepts(candidates, params, isMatch, j)
  }

  /**
   * What selecting a constructor of `target` for `params` yields: the constructor of
   * the unique accepting candidate, the "multiple public constructors" failure when
   * two or more accept, and the "could not find any public constructor" failure when
   * none does (which includes an empty candidate list).
   */
  ghost function Selection(target: Class, candidates: seq<CachedConstructor>, params: seq<Value>, isMatch: Matcher)
    : Result<Constructor, Throwable>
  {
    if !exists i :: Accepts(candidates, params, isMatch, i) then
      Failure(NoPublicConstructor(target, params))
    else if Ambiguous(candidates, params, isMatch) then
      Failure(MultiplePublicConstructors(target, params))
    else
      var i :| Accepts(candidates, params, isMatch, i);
      Success(candidates[i].handle)
  }

  /** An accepting candidate is either the unique one or one of two accepting candidates. */
  lemma OnlyAcceptingIsUnique(candidates: seq<CachedConstructor>, params: seq<Value>, isMatch: Matcher, i: int)
    requires Accepts(candidates, params, isMatch, i)
    ensures UniqueMatch(candidates, params, isMatch, i) || Ambiguous(candidates, params, isMatch)
  {
    if !UniqueMatch(candidates, params, isMatch, i) {
      var j :| Accepts(candidates, params, isMatch, j) && j != i;
      if j < i {
        assert j < i && Accepts(candidates, params, isMatch, j) && Accepts(candidates, params, isMatch, i);
      } else {
        assert i < j && Accepts(candidates, params, isMatch, i) && Accepts(candidates, params, isMatch, j);
      }
    }
  }

  /** Selection returns constructor c exactly when c belongs to the one accepting candidate. */
  lemma SelectionSucceedsIff(target: Class, candidates: seq<CachedConstructor>, params: seq<Value>, isMatch: Matcher, c: Constructor)
    ensures Selection(target, candidates, params, isMatch) == Success(c)
        <==> exists i :: UniqueMatch(candidates, params, isMatch, i) && candidates[i].handle == c
  {
    if exists i :: Accepts(candidates, params, isMatch, i) {
      var i :| Accepts(candidates, params, isMatch, i);
      OnlyAcceptingIsUnique(candidates, params, isMatch, i);
    }
  }

  /** With exactly one accepting candidate, selection returns its constructor. */
  lemma SelectionUnique(target: Class, candidates: seq<CachedConstructor>, params: seq<Value>, isMatch: Matcher, i: int)
    requires UniqueMatch(candidates, params, isMatch, i)
    ensures Selection(target, candidates, params, isMatch) == Success(candidates[i].handle)
  {
    SelectionSucceedsIff(target, candidates, params, isMatch, candidates[i].handle);
  }

  /** With two different accepting candidates, selection fails as ambiguous and returns nothing. */
  lemma SelectionAmbiguous(target: Class, candidates: seq<CachedConstructor>, params: seq<Value>, isMatch: Matcher, i: int, j: int)
    requires i != j
    requires Accepts(candidates, params, isMatch, i) && Accepts(candidates, params, isMatch, j)
    ensures Selection(target, candidates, params, isMatch) == Failure(MultiplePublicConstructors(target, params))
  {
    var lo, hi := if i < j then i else j, if i < j then j else i;
    assert lo < hi && Accepts(candidates, params, isMatch, lo) && Accepts(candidates, params, isMatch, hi);
  }

  /** Selection fails with "could not find any public constructor" exactly when no candidate accepts. */
  lemma SelectionNoneIff(target: Class, candidates: seq<CachedConstructor>, params: seq<Value>, isMatch: Matcher)
    ensures Selection(target, candidates, params, isMatch) == Failure(NoPublicConstructor(target, params))
        <==> forall i :: 0 <= i < |candidates| ==> !isMatch(candidates[i], params)
  {
    if exists i :: Accepts(candidates, params, isMatch, i) {
      var i :| Accepts(candidates, params, isMatch, i);
      assert !(0 <= i < |candidates| ==> !isMatch(candidates[i], params));
    } else {
      forall i | 0 <= i < |candidates|
        ensures !isMatch(candidates[i], params)
      {
        assert !Accepts(candidates, params, isMatch, i);
      }
    }
  }

  /** The number of candidates that accept the arguments. */
  function MatchCount(candidates: seq<CachedConstructor>, params: seq<Value>, isMatch: Matcher): (n: nat)
    ensures n <= |candidates|
  {
    if |candidates| == 0 then 0
    else
      MatchCount(candidates[..|candidates| - 1], params, isMatch)
      + (if isMatch(candidates[|candidates| - 1], params) then 1 else 0)
  }

  /** Accepting within a prefix is accepting within the whole list, below the prefix's end. */
  lemma AcceptsInPrefix(candidates: seq<CachedConstructor>, params: seq<Value>, isMatch: Matcher, k: nat)
    requires k <= |candidates|
    ensures forall i :: Accepts(candidates[..k], params, isMatch, i) <==> i < k && Accepts(candidates, params, isMatch, i)
  {
  }

  /** No candidate is counted exactly when none accepts. */
  lemma {:induction false} CountZeroIff(candidates: seq<CachedConstructor>, params: seq<Value>, isMatch: Matcher)
    ensures MatchCount(candidates, params, isMatch) == 0 <==> !exists i :: Accepts(candidates, params, isMatch, i)
  {
    var n := |candidates|;
    if n > 0 {
      CountZeroIff(candidates[..n - 1], params, isMatch);
      AcceptsInPrefix(candidates, params, isMatch, n - 1);
      if isMatch(candidates[n - 1], params) {
        assert Accepts(candidates, params, isMatch, n - 1);
      }
    }
  }

  /** Two or more candidates are counted exactly when two different candidates accept. */
  lemma {:induction false} CountTwoIff(candidates: seq<CachedConstructor>, params: seq<Value>, isMatch: Matcher)
    ensures MatchCount(candidates, params, isMatch) >= 2 <==> Ambiguous(candidates, params, isMatch)
  {
    var n := |candidates|;
    if n > 0 {
      var init := candidates[..n - 1];
      CountTwoIff(init, params, isMatch);
      CountZeroIff(init, params, isMatch);
      AcceptsInPrefix(candidates, params, isMatch, n - 1);
      if Ambiguous(init, params, isMatch) {
        var i, j :| i < j && Accepts(init, params, isMatch, i) && Accepts(init, params, isMatch, j);
        assert Accepts(candidates, params, isMatch, i) && Accepts(candidates, params, isMatch, j);
      }
      if Ambiguous(candidates, params, isMatch) {
        var i, j :| i < j && Accepts(candidates, params, isMatch, i) && Accepts(candidates, params, isMatch, j);
        if j < n - 1 {
          assert Accepts(init, params, isMatch, i) && Accepts(init, params, isMatch, j);
        } else {
          assert Accepts(init, params, isMatch, i);
        }
      }
      if isMatch(candidates[n - 1], params) && MatchCount(init, params, isMatch) >= 1 {
        var i :| Accepts(init, params, isMatch, i);
        assert Accepts(candidates, params, isMatch, i) && Accepts(candidates, params, isMatch, n - 1);
      }
    }
  }

  /**
   * The three outcomes of selection by number of accepting candidates: success
   * exactly for one, "could not find" exactly for none, "multiple" exactly for two or more.
   */
  lemma SelectionByCount(target: Class, candidates: seq<CachedConstructor>, params: seq<Value>, isMatch: Matcher)
    ensures Selection(target, candidates, params, isMatch).Success? <==> MatchCount(candidates, params, isMatch) == 1
    ensures Selection(target, candidates, params, isMatch) == Failure(NoPublicConstructor(target, params))
        <==> MatchCount(candidates, params, isMatch) == 0
    ensures Selection(target, candidates, params, isMatch) == Failure(MultiplePublicConstructors(target, params))
        <==> MatchCount(candidates, params, isMatch) >= 2
  {
    CountZeroIff(candidates, params, isMatch);
    CountTwoIff(candidates, params, isMatch);
  }

  /**
   * doGetConstructor: scans the candidates once, remembering the accepting one; a
   * second accepting candidate aborts the scan as ambiguous, and a scan that found
   * none fails as "could not find any public constructor".
   */
  method DoGetConstructor(target: Class, constructors: seq<CachedConstructor>, params: seq<Value>, isMatch: Matcher)
    returns (r: Result<Constructor, Throwable>)
    ensures r == Selection(target, constructors, params, isMatch)
  {
    var found: Option<CachedConstructor> := None;
    ghost var at: nat := 0;
    if |constructors| > 0 {
      for k := 0 to |constructors|
        invariant found.None? ==> forall j :: 0 <= j < k ==> !isMatch(constructors[j], params)
        invariant found.Some? ==> at < k && found.value == constructors[at] && Accepts(constructors, params, isMatch, at)
        invariant found.Some? ==> forall j :: 0 <= j < k && isMatch(constructors[j], params) ==> j == at
      {
        var candidate := constructors[k];
        if isMatch(candidate, params) {
          if found.Some? {
            SelectionAmbiguous(target, constructors, params, isMatch, at, k);
            return Failure(MultiplePublicConstructors(target, params));
          }
          found := Some(candidate);
          at := k;
        }
      }
    }
    if found.None? {
      SelectionNoneIff(target, constructors, params, isMatch);
      return Failure(NoPublicConstructor(target, params));
    }
    SelectionUnique(target, constructors, params, isMatch, at);
    return Success(found.value.handle);
  }

  // ---------------------------------------------------------------------------
  // The constructor cache
  // ---------------------------------------------------------------------------

  /**
   * ConstructorCache: a map from class to a weakly held array of its wrapped
   * constructors. An entry whose value is None stands for a weak reference the
   * garbage collector has cleared.
   */
  class ConstructorCache {
    /** Class.getConstructors, which always enumerates the same constructors of a class. */
    const getConstructors: Enumerator
    var cache: map<Class, Option<seq<CachedConstructor>>>

    /** Every live entry holds exactly the wrapped constructors of its class. */
    ghost predicate Valid()
      reads this
    {
      forall key :: key in cache && cache[key].Some? ==> cache[key].value == Wrap(getConstructors(key))
    }

    /** The cache holds a live (not yet reclaimed) entry for key. */
    predicate Live(key: Class)
      reads this
    {
      key in cache && cache[key].Some?
    }

    constructor (getConstructors: Enumerator)
      ensures Valid()
      ensures this.getConstructors == getConstructors && cache == map[]
    {
      this.getConstructors := getConstructors;
      cache := map[];
    }

    /**
     * get: a live entry is returned as it is and the map is left alone; otherwise
     * the constructors are enumerated, wrapped, stored under key and returned.
     * Either way the result is the wrapped enumeration of the class.
     */
    method Get(key: Class) returns (ctors: seq<CachedConstructor>)
      requires Valid()
      modifies this
      ensures Valid()
      ensures ctors == Wrap(getConstructors(key))
      ensures old(Live(key)) ==> cache == old(cache) && ctors == old(cache[key].value)
      ensures !old(Live(key)) ==> cache == old(cache)[key := Some(ctors)]
    {
      if key in cache {
        var cached := cache[key];
        if cached.Some? {
          return cached.value;
        }
      }
      ctors := GetAndCache(key);
    }

    /** getAndCache: enumerates and wraps the constructors of key and stores them under key. */
    method GetAndCache(key: Class) returns (ctors: seq<CachedConstructor>)
      requires Valid()
      modifies this
      ensures Valid()
      ensures ctors == Wrap(getConstructors(key))
      ensures cache == old(cache)[key := Some(ctors)]
    {
      var declared := getConstructors(key);
      var enumerated := new Constructor[|declared|](i requires 0 <= i < |declared| => declared[i]);
      assert enumerated[..] == declared;
      var wrapped := Cache(enumerated);
      ctors := wrapped[..];
      cache := cache[key := Some(ctors)];
    }

    /** cache: a fresh array of the same length whose element i wraps constructor i. */
    method Cache(constructors: array<Constructor>) returns (cachedConstructors: array<CachedConstructor>)
      ensures fresh(cachedConstructors)
      ensures cachedConstructors[..] == Wrap(constructors[..])
    {
      cachedConstructors := new CachedConstructor[constructors.Length];
      for i := 0 to constructors.Length
        invariant cachedConstructors[..i] == Wrap(constructors[..i])
      {
        cachedConstructors[i] := CachedConstructor(constructors[i]);
        assert constructors[..i + 1][..i] == constructors[..i];
      }
      assert constructors[..] == constructors[..constructors.Length];
    }

    /** The garbage collector clears the weak reference to the array held for key. */
    method ClearReference(key: Class)
      requires Valid()
      modifies this
      ensures Valid()
      ensures cache == if key in old(cache) then old(cache)[key := None] else old(cache)
    {
      if key in cache {
        cache := cache[key := None];
      }
    }

    /** The weak map drops the entry of a class that is no longer reachable elsewhere. */
    method ExpungeEntry(key: Class)
      requires Valid()
      modifies this
      ensures Valid()
      ensures cache == old(cache) - {key}
    {
      cache := cache - {key};
    }
  }

  /** Two lookups of one class agree, even when the entry is reclaimed between them. */
  method RepeatedGetsAgree(constructorCache: ConstructorCache, key: Class)
    returns (first: seq<CachedConstructor>, second: seq<CachedConstructor>)
    requires constructorCache.Valid()
    modifies constructorCache
    ensures constructorCache.Valid()
    ensures first == second && first == Wrap(constructorCache.getConstructors(key))
  {
    first := constructorCache.Get(key);
    constructorCache.ClearReference(key);
    second := constructorCache.Get(key);
  }

  // ---------------------------------------------------------------------------
  // Instantiation
  // ---------------------------------------------------------------------------

  /**
   * The two catch clauses of newInstance: what the constructor body threw is
   * unwrapped from InvocationTargetException, any other Exception is wrapped as it
   * is, and a java.lang.Error, which `catch (Exception e)` does not catch, passes through.
   */
  function Rethrown(target: Class, e: Throwable): (t: Throwable)
    ensures e.IsException() ==> t.ObjectInstantiation? && t.target == target
    ensures t.IsException() <==> e.IsException()
  {
    if e.InvocationTarget? then ObjectInstantiation(target, e.cause)
    else if e.IsException() then ObjectInstantiation(target, e)
    else e
  }

  /** What newInstance yields for `target` and `params` when the class's candidates are `candidates`. */
  ghost function Instantiation(target: Class, candidates: seq<CachedConstructor>, params: seq<Value>,
                               isMatch: Matcher, invoke: Invoker): Result<Instance, Throwable>
  {
    match Selection(target, candidates, params, isMatch)
    case Failure(e) => Failure(Rethrown(target, e))
    case Success(c) =>
      match invoke(c, params)
      case Success(o) => Success(o)
      case Failure(e) => Failure(Rethrown(target, e))
  }

  /** newInstance returns o exactly when one candidate accepts and invoking its constructor builds o. */
  lemma NewInstanceSucceedsIff(target: Class, candidates: seq<CachedConstructor>, params: seq<Value>,
                               isMatch: Matcher, invoke: Invoker, o: Instance)
    ensures Instantiation(target, candidates, params, isMatch, invoke) == Success(o)
        <==> exists i :: UniqueMatch(candidates, params, isMatch, i) && invoke(candidates[i].handle, params) == Success(o)
  {
    var selected := Selection(target, candidates, params, isMatch);
    if selected.Success? {
      SelectionSucceedsIff(target, candidates, params, isMatch, selected.value);
    }
    if exists i :: UniqueMatch(candidates, params, isMatch, i) {
      var i :| UniqueMatch(candidates, params, isMatch, i);
      SelectionUnique(target, candidates, params, isMatch, i);
    }
  }

  /** With no accepting candidate, newInstance fails with the wrapped "could not find" failure. */
  lemma NewInstanceNoMatch(target: Class, candidates: seq<CachedConstructor>, params: seq<Value>,
                           isMatch: Matcher, invoke: Invoker)
    requires forall i :: 0 <= i < |candidates| ==> !isMatch(candidates[i], params)
    ensures Instantiation(target, candidates, params, isMatch, invoke)
         == Failure(ObjectInstantiation(target, NoPublicConstructor(target, params)))
  {
    SelectionNoneIff(target, candidates, params, isMatch);
  }

  /** With two accepting candidates, newInstance fails with the wrapped "multiple" failure. */
  lemma NewInstanceAmbiguous(target: Class, candidates: seq<CachedConstructor>, params: seq<Value>,
                             isMatch: Matcher, invoke: Invoker, i: int, j: int)
    requires i != j
    requires Accepts(candidates, params, isMatch, i) && Accepts(candidates, params, isMatch, j)
    ensures Instantiation(target, candidates, params, isMatch, invoke)
         == Failure(ObjectInstantiation(target, MultiplePublicConstructors(target, params)))
  {
    SelectionAmbiguous(target, candidates, params, isMatch, i, j);
  }

  /** A failure thrown by the selected constructor's body is reported with that failure as the cause. */
  lemma NewInstanceUnwrapsCause(target: Class, candidates: seq<CachedConstructor>, params: seq<Value>,
                                isMatch: Matcher, invoke: Invoker, i: int, cause: Throwable)
    requires UniqueMatch(candidates, params, isMatch, i)
    requires invoke(candidates[i].handle, params) == Failure(InvocationTarget(cause))
    ensures Instantiation(target, candidates, params, isMatch, invoke) == Failure(ObjectInstantiation(target, cause))
  {
    SelectionUnique(target, candidates, params, isMatch, i);
  }

  /**
   * newInstance lets no exception escape raw. Every Exception is reported as an
   * ObjectInstantiationException for target whose cause is a selection failure, what
   * the one accepting constructor's body threw, or the reflective Exception raised by
   * invoking it. A java.lang.Error raised by that reflective call passes through unchanged.
   */
  lemma NewInstanceWrapsFailures(target: Class, candidates: seq<CachedConstructor>, params: seq<Value>,
                                 isMatch: Matcher, invoke: Invoker, e: Throwable)
    requires Instantiation(target, candidates, params, isMatch, invoke) == Failure(e)
    ensures e.IsException() ==>
      e.ObjectInstantiation? && e.target == target &&
      (e.cause == NoPublicConstructor(target, params) ||
       e.cause == MultiplePublicConstructors(target, params) ||
       exists i :: UniqueMatch(candidates, params, isMatch, i) &&
         (invoke(candidates[i].handle, params) == Failure(InvocationTarget(e.cause)) ||
          (invoke(candidates[i].handle, params) == Failure(e.cause) &&
           !e.cause.InvocationTarget? && e.cause.IsException())))
    ensures !e.IsException() ==>
      exists i :: UniqueMatch(candidates, params, isMatch, i) && invoke(candidates[i].handle, params) == Failure(e)
  {
    var selected := Selection(target, candidates, params, isMatch);
    if selected.Success? {
      SelectionSucceedsIff(target, candidates, params, isMatch, selected.value);
    }
  }

  /**
   * Any other Exception raised by invoking the one accepting constructor (an illegal
   * access, an abstract class, an argument mismatch) is reported with that Exception as the cause.
   */
  lemma NewInstanceWrapsException(target: Class, candidates: seq<CachedConstructor>, params: seq<Value>,
                                  isMatch: Matcher, invoke: Invoker, i: int, e: Throwable)
    requires UniqueMatch(candidates, params, isMatch, i)
    requires invoke(candidates[i].handle, params) == Failure(e)
    requires !e.InvocationTarget? && e.IsException()
    ensures Instantiation(target, candidates, params, isMatch, invoke) == Failure(ObjectInstantiation(target, e))
  {
    SelectionUnique(target, candidates, params, isMatch, i);
  }

  /**
   * For the wrapped enumeration of a class: if constructor i is the only one that
   * accepts the arguments and it builds o, newInstance returns o.
   */
  lemma NewInstanceOfEnumerated(target: Class, declared: seq<Constructor>, params: seq<Value>,
                                isMatch: Matcher, invoke: Invoker, i: nat, o: Instance)
    requires i < |declared| && isMatch(CachedConstructor(declared[i]), params)
    requires forall j :: 0 <= j < |declared| && j != i ==> !isMatch(CachedConstructor(declared[j]), params)
    requires invoke(declared[i], params) == Success(o)
    ensures Instantiation(target, Wrap(declared), params, isMatch, invoke) == Success(o)
  {
    var candidates := Wrap(declared);
    forall j | 0 <= j < |declared|
      ensures candidates[j] == CachedConstructor(declared[j])
    {
      WrapAt(declared, j);
    }
    assert UniqueMatch(candidates, params, isMatch, i);
    SelectionUnique(target, candidates, params, isMatch, i);
  }

  /**
   * DirectInstantiator: instantiates a class through its unique accepting public
   * constructor, looking the constructors up in its own ConstructorCache.
   */
  class DirectInstantiator {
    const constructorCache: ConstructorCache
    /** CachedConstructor.isMatch. */
    const isMatch: Matcher
    /** Constructor.newInstance. */
    const invoke: Invoker

    ghost predicate Valid()
      reads this, constructorCache
    {
      constructorCache.Valid()
    }

    constructor (getConstructors: Enumerator, isMatch: Matcher, invoke: Invoker)
      ensures Valid() && fresh(constructorCache)
      ensures constructorCache.getConstructors == getConstructors && constructorCache.cache == map[]
      ensures this.isMatch == isMatch && this.invoke == invoke
    {
      this.isMatch := isMatch;
      this.invoke := invoke;
      constructorCache := new ConstructorCache(getConstructors);
    }

    /**
     * newInstance: selects the constructor among the cached candidates of target and
     * invokes it, turning every failure into what the catch clauses make of it. The
     * outcome does not depend on whether the cache entry was live.
     */
    method NewInstance(target: Class, params: seq<Value>)
      returns (r: Result<Instance, Throwable>, ghost selection: Result<Constructor, Throwable>)
      requires Valid()
      modifies constructorCache
      ensures Valid()
      ensures selection == Selection(target, Wrap(constructorCache.getConstructors(target)), params, isMatch)
      ensures r == Instantiation(target, Wrap(constructorCache.getConstructors(target)), params, isMatch, invoke)
      ensures old(constructorCache.Live(target)) ==> constructorCache.cache == old(constructorCache.cache)
      ensures !old(constructorCache.Live(target)) ==>
        constructorCache.cache == old(constructorCache.cache)[target := Some(Wrap(constructorCache.getConstructors(target)))]
    {
      var candidates := constructorCache.Get(target);
      var selected := DoGetConstructor(target, candidates, params, isMatch);
      selection := selected;
      match selected {
        case Failure(e) =>
          r := Failure(Rethrown(target, e));
        case Success(ctor) =>
          var created := invoke(ctor, params);
          match created {
            case Success(o) => r := Success(o);
            case Failure(e) => r := Failure(Rethrown(target, e));
          }
      }
    }
  }

  /**
   * Instantiating the same class with the same arguments twice selects the same
   * constructor, whether or not the collector cleared the cache entry between the
   * two calls (`reclaimed`); when selection fails,
   * no constructor runs and both calls report the same failure.
   */
  method RepeatedInstantiationSelectsAlike(instantiator: DirectInstantiator, target: Class, params: seq<Value>, reclaimed: bool)
    returns (first: Result<Instance, Throwable>, second: Result<Instance, Throwable>,
             ghost firstSelection: Result<Constructor, Throwable>, ghost secondSelection: Result<Constructor, Throwable>)
    requires instantiator.Valid()
    modifies instantiator.constructorCache
    ensures firstSelection == secondSelection
    ensures firstSelection.Failure? ==> first == second && first == Failure(ObjectInstantiation(target, firstSelection.error))
  {
    first, firstSelection := instantiator.NewInstance(target, params);
    if reclaimed {
      instantiator.constructorCache.ClearReference(target);
    }
    second, secondSelection := instantiator.NewInstance(target, params);
  }
}
