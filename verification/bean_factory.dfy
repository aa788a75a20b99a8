/**
  The bean-acquisition engine of an abstract bean factory.

  A factory owns a singleton cache (name to bean) and an ordered list of
  post-processors. Looking up a bean definition and constructing a bean are
  left to two collaborators, the subclass's abstract methods, which are
  passed in here as function values. Every request probes the cache; only
  on a miss are the collaborators consulted. The factory records which
  collaborator it called, in order, as a trace.
*/
module BeanFactory {
  import opened Wrappers

  type BeanName = string

  /** A bean instance, identified by its reference (never null here). */
  datatype Obj = Obj(ref: nat)

  /** The descriptor the definition source supplies; passed through, never inspected. */
  datatype BeanDefinition = BeanDefinition(beanClass: string)

  /** The exception a collaborator may raise. */
  datatype BeansException = BeansException(message: string)

  /** The class token handed to the typed overloads. */
  datatype TypeToken = TypeToken(className: string)

  /** A registered post-processor handle; the factory never dereferences it. */
  datatype PostProcessor = PostProcessor(handle: nat)

  /** Construction arguments: `None` is the null array the argument-less overloads pass. */
  type Args = Option<seq<Obj>>

  type Cache = map<BeanName, Obj>

  /** The state a factory instance carries across requests. */
  datatype Factory = Factory(cache: Cache, postProcessors: seq<PostProcessor>)

  /**
    What the instantiator hands back: the new bean or the exception it threw,
    and the cache as it left it. The subclass runs on the factory itself, so
    it may have published entries (its own bean, beans it created along the
    way) whether or not it then succeeds.
  */
  datatype Creation = Creation(result: Result<Obj, BeansException>, cache: Cache)

  /** The two abstract methods a concrete factory supplies. */
  datatype Collaborators = Collaborators(
    getBeanDefinition: BeanName -> Result<BeanDefinition, BeansException>,
    createBeanObject: (Cache, BeanName, BeanDefinition, Args) -> Creation)

  /** One call the factory made while serving a request. */
  datatype Call =
    | GetSingletonBeanObject(name: BeanName)
    | GetBeanDefinition(name: BeanName)
    | CreateBeanObject(name: BeanName, definition: BeanDefinition, args: Args)

  /** The outcome of one request: the bean or the exception, the calls made, the state after. */
  datatype Outcome = Outcome(result: Result<Obj, BeansException>, trace: seq<Call>, factory: Factory)

  /** True when the trace contains a call to the instantiator. */
  predicate InvokedInstantiator(trace: seq<Call>) {
    exists k :: 0 <= k < |trace| && trace[k].CreateBeanObject?
  }

  /** True when the trace contains a call to the definition source. */
  predicate InvokedDefinitionSource(trace: seq<Call>) {
    exists k :: 0 <= k < |trace| && trace[k].GetBeanDefinition?
  }

  /**
    A freshly constructed factory: no post-processors, and (by assumption
    about the registry it extends) nothing cached, so the first request for
    any name goes to the definition source.
  */
  function NewFactory(): (f: Factory)
    ensures GetBeanPostProcessors(f) == []
    ensures forall env, name, args :: InvokedDefinitionSource(DoGetBean(f, env, name, args).trace)
  {
    Factory(map[], [])
  }

  /** The singleton registry's probe: the cached bean, if any. */
  function GetSingleton(cache: Cache, name: BeanName): Option<Obj>
  {
    if name in cache then Some(cache[name]) else None
  }

  /**
    Probe the cache; on a miss, fetch the definition and hand name,
    definition and arguments to the instantiator. The factory itself never
    writes the cache: any change comes from the instantiator's Creation.
  */
  function DoGetBean(f: Factory, env: Collaborators, name: BeanName, args: Args): (o: Outcome)
    // every request starts by probing the cache, and nothing else touches the post-processors
    ensures |o.trace| >= 1 && o.trace[0] == GetSingletonBeanObject(name)
    ensures o.factory.postProcessors == f.postProcessors
    // a cache hit returns the stored bean and calls no collaborator
    ensures name in f.cache ==> o.result == Success(f.cache[name]) && o.trace == [GetSingletonBeanObject(name)] && o.factory == f
    ensures InvokedDefinitionSource(o.trace) <==> name !in f.cache
    ensures InvokedInstantiator(o.trace) <==> name !in f.cache && env.getBeanDefinition(name).Success?
    // a miss asks the definition source for the same name
    ensures name !in f.cache ==> |o.trace| >= 2 && o.trace[1] == GetBeanDefinition(name)
    // a failed lookup propagates its exception and changes nothing
    ensures name !in f.cache && env.getBeanDefinition(name).Failure? ==>
      o.result == Failure(env.getBeanDefinition(name).error) && |o.trace| == 2 && o.factory == f
    // a successful lookup hands name, definition and the caller's args to the instantiator
    ensures name !in f.cache && env.getBeanDefinition(name).Success? ==>
      var definition := env.getBeanDefinition(name).value;
      var made := env.createBeanObject(f.cache, name, definition, args);
      && o.trace == [GetSingletonBeanObject(name), GetBeanDefinition(name), CreateBeanObject(name, definition, args)]
      && o.result == made.result
      && o.factory == f.(cache := made.cache)
  {
    var probe := [GetSingletonBeanObject(name)];
    match GetSingleton(f.cache, name)
    case Some(bean) => Outcome(Success(bean), probe, f)
    case None =>
      var lookup := probe + [GetBeanDefinition(name)];
      assert lookup[1].GetBeanDefinition?;
      match env.getBeanDefinition(name)
      case Failure(e) => Outcome(Failure(e), lookup, f)
      case Success(definition) =>
        var trace := lookup + [CreateBeanObject(name, definition, args)];
        assert trace[1].GetBeanDefinition? && trace[2].CreateBeanObject?;
        var made := env.createBeanObject(f.cache, name, definition, args);
        Outcome(made.result, trace, f.(cache := made.cache))
  }

  /** `getBean(name)`: resolve with a null argument array. */
  function GetBean(f: Factory, env: Collaborators, name: BeanName): (o: Outcome)
    ensures forall k :: 0 <= k < |o.trace| && o.trace[k].CreateBeanObject? ==> o.trace[k].args == None
    ensures name in f.cache ==> o.result == Success(f.cache[name])
  {
    DoGetBean(f, env, name, None)
  }

  /** `getBean(name, args...)`: resolve, forwarding the caller's arguments on a miss. */
  function GetBeanWithArgs(f: Factory, env: Collaborators, name: BeanName, args: seq<Obj>): (o: Outcome)
    ensures forall k :: 0 <= k < |o.trace| && o.trace[k].CreateBeanObject? ==> o.trace[k].args == Some(args)
    ensures name in f.cache ==> o.result == Success(f.cache[name])
  {
    DoGetBean(f, env, name, Some(args))
  }

  /** `getBean(name, requiredType)`: the untyped result under an unchecked cast. */
  function GetBeanTyped(f: Factory, env: Collaborators, name: BeanName, requiredType: TypeToken): (o: Outcome)
  {
    GetBean(f, env, name)
  }

  /** `getBean(name, requiredType, args...)`: the untyped result under an unchecked cast. */
  function GetBeanTypedWithArgs(f: Factory, env: Collaborators, name: BeanName, requiredType: TypeToken, args: seq<Obj>): (o: Outcome)
  {
    GetBeanWithArgs(f, env, name, args)
  }

  /** The typed overloads return exactly the untyped outcome, whatever type is requested. */
  lemma TypedOverloadsIgnoreRequiredType(f: Factory, env: Collaborators, name: BeanName, t: TypeToken, u: TypeToken, args: seq<Obj>)
    ensures GetBeanTyped(f, env, name, t) == GetBean(f, env, name) == GetBeanTyped(f, env, name, u)
    ensures GetBeanTypedWithArgs(f, env, name, t, args) == GetBeanWithArgs(f, env, name, args) == GetBeanTypedWithArgs(f, env, name, u, args)
  {
  }

  /** For a cached name the arguments are never consulted: any two argument choices give the same outcome. */
  lemma ArgsIgnoredOnCacheHit(f: Factory, env: Collaborators, name: BeanName, a: Args, b: Args)
    requires name in f.cache
    ensures DoGetBean(f, env, name, a) == DoGetBean(f, env, name, b)
    ensures GetBean(f, env, name).result == GetBeanWithArgs(f, env, name, []).result
  {
  }

  /** `getBeanPostProcessors()`: the live list itself, in registration order. */
  function GetBeanPostProcessors(f: Factory): (list: seq<PostProcessor>)
  {
    f.postProcessors
  }

  /**
    A caller appending to the list `getBeanPostProcessors()` returned: the
    factory's own list grows, and since the factory never invokes the list,
    every request is served exactly as before.
  */
  function AddThroughReturnedList(f: Factory, p: PostProcessor): (g: Factory)
    ensures GetBeanPostProcessors(g) == GetBeanPostProcessors(f) + [p]
    ensures forall env, name, args ::
      DoGetBean(g, env, name, args).result == DoGetBean(f, env, name, args).result
      && DoGetBean(g, env, name, args).trace == DoGetBean(f, env, name, args).trace
  {
    f.(postProcessors := GetBeanPostProcessors(f) + [p])
  }

  /** Appending the handles one after another, first to last. */
  function RegisterAll(f: Factory, hs: seq<PostProcessor>): (g: Factory)
    ensures GetBeanPostProcessors(g) == GetBeanPostProcessors(f) + hs
    ensures forall env, name, args ::
      DoGetBean(g, env, name, args).result == DoGetBean(f, env, name, args).result
      && DoGetBean(g, env, name, args).trace == DoGetBean(f, env, name, args).trace
    decreases |hs|
  {
    if hs == [] then f
    else
      var g := RegisterAll(AddThroughReturnedList(f, hs[0]), hs[1..]);
      assert hs == [hs[0]] + hs[1..];
      g
  }

  /** Registered into a new factory, the handles come back exactly in insertion order. */
  lemma PostProcessorOrder(hs: seq<PostProcessor>)
    ensures GetBeanPostProcessors(NewFactory()) == []
    ensures GetBeanPostProcessors(RegisterAll(NewFactory(), hs)) == hs
  {
  }
}
