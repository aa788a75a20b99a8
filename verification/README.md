# Bean acquisition in an abstract bean factory

This project models the core of `AbstractBeanFactory` from the Mine-Spring container (stage 06). It covers the four `getBean` overloads and the private `doGetBean` they all call. It also covers the ordered list of bean post-processors that the factory owns.

`doGetBean` works in three steps:

1. It probes the singleton cache.
2. On a miss, it asks the abstract `getBeanDefinition` for the name's definition.
3. It hands the name, the definition and the caller's construction arguments to the abstract `createBeanObject`, and returns what that produces.

The model is functional:

- The singleton cache is a `map<string, Obj>`.
- The two abstract methods are function values in a `Collaborators` record.
- `DoGetBean` is a pure function. It returns an `Outcome` with three parts: the bean or the exception, a trace of the calls it made, and the factory state afterwards.
- Java's `null` argument array, which the argument-less overloads pass, is `None`. A varargs array is `Some(args)`.
- The instantiator returns the cache as it left it together with its bean or its exception. It runs on the factory itself, so it may publish entries and still throw.

`doGetBean` never writes the cache. Publishing a new singleton is the subclass's job inside `createBeanObject`. The multi-request guarantees in module `RequestRuns` assume the instantiator publishes what it creates. That assumption is stated separately, as the predicate `PublishesCreatedBean`. It constrains only the calls the factory makes, on names missing from the cache, and an ordinary put meets it (`PutPublisherPublishes`). The lemma `NoPublishNoCaching` shows that without it the instantiator is called again on every request for the name.

Files:

- `wrappers.dfy`: the `Option` and `Result` types.
- `bean_factory.dfy`, module `BeanFactory`: the entities, `DoGetBean`, the overloads and the post-processor list.
- `request_runs.dfy`, module `RequestRuns`: a sequence of requests served in order, and the lemmas that relate several calls.

The typed overloads do an unchecked cast and never report a type mismatch, so the model has no type-mismatch error.

## Model

| member | source | states |
|---|---|---|
| BeanFactory.NewFactory | Mine-Spring/Mine-Spring/mine-spring-06/src/main/java/com/brodog/springframework/beans/factory/support/AbstractBeanFactory.java:20 | a new factory's post-processor list is empty. With the cache assumed empty too, the first request for any name goes to the definition source, whatever the collaborators and args |
| BeanFactory.DoGetBean | Mine-Spring/Mine-Spring/mine-spring-06/src/main/java/com/brodog/springframework/beans/factory/support/AbstractBeanFactory.java:109-120 | every request probes the cache first. A hit returns the stored bean untouched and calls no collaborator. The definition source is called exactly on a miss, with the same name. The instantiator is called exactly when that lookup succeeds, with the same name, the returned definition and the caller's args. Its bean or exception is the result, and the cache it leaves, even after throwing, is the factory's cache afterwards. A failed lookup propagates its exception, never reaches the instantiator and changes nothing. The post-processors are never touched. |
| BeanFactory.GetBean | Mine-Spring/Mine-Spring/mine-spring-06/src/main/java/com/brodog/springframework/beans/factory/support/AbstractBeanFactory.java:29-31 | `getBean(name)` hands a null argument array to any instantiator call, and returns the cached bean on a hit |
| BeanFactory.GetBeanWithArgs | Mine-Spring/Mine-Spring/mine-spring-06/src/main/java/com/brodog/springframework/beans/factory/support/AbstractBeanFactory.java:40-42 | `getBean(name, args...)` hands exactly the caller's array to any instantiator call, and returns the cached bean on a hit |
| BeanFactory.TypedOverloadsIgnoreRequiredType | Mine-Spring/Mine-Spring/mine-spring-06/src/main/java/com/brodog/springframework/beans/factory/support/AbstractBeanFactory.java:53-68 | both typed overloads return exactly the outcome of the untyped overload with the same name and args, whatever type is requested |
| BeanFactory.ArgsIgnoredOnCacheHit | Mine-Spring/Mine-Spring/mine-spring-06/src/main/java/com/brodog/springframework/beans/factory/support/AbstractBeanFactory.java:109-119 | for a cached name the outcome is the same whatever args are supplied, a null array included |
| BeanFactory.AddThroughReturnedList | Mine-Spring/Mine-Spring/mine-spring-06/src/main/java/com/brodog/springframework/beans/factory/support/AbstractBeanFactory.java:70-72 | the getter returns the live list, so appending to it appends to the factory's own list. Since the list is never invoked, the next request has the same result and the same trace as it would have had before the append (for whole runs see `RequestRuns.AppendKeepsRuns`) |
| BeanFactory.RegisterAll | Mine-Spring/Mine-Spring/mine-spring-06/src/main/java/com/brodog/springframework/beans/factory/support/AbstractBeanFactory.java:70-72 | handles appended one after another appear after the existing ones, in insertion order, and the next request's result and trace do not change |
| BeanFactory.PostProcessorOrder | Mine-Spring/Mine-Spring/mine-spring-06/src/main/java/com/brodog/springframework/beans/factory/support/AbstractBeanFactory.java:20 | a new factory's list is empty; after appending handles to it, the getter returns exactly those handles in order |
| RequestRuns.Serve | Mine-Spring/Mine-Spring/mine-spring-06/src/main/java/com/brodog/springframework/beans/factory/support/AbstractBeanFactory.java:109-120 | serving requests in order gives one result and one trace per request and never changes the post-processor list |
| RequestRuns.StepExtendsCache | Mine-Spring/Mine-Spring/mine-spring-06/src/main/java/com/brodog/springframework/beans/factory/support/AbstractBeanFactory.java:115-119 | if the instantiator publishes, one request keeps every cached entry, even when it fails, and a bean it returns is cached under the requested name |
| RequestRuns.RunExtendsCache | Mine-Spring/Mine-Spring/mine-spring-06/src/main/java/com/brodog/springframework/beans/factory/support/AbstractBeanFactory.java:109-120 | if the instantiator publishes, a whole run only adds cache entries and never replaces one |
| RequestRuns.CachedBeanIsStable | Mine-Spring/Mine-Spring/mine-spring-06/src/main/java/com/brodog/springframework/beans/factory/support/AbstractBeanFactory.java:111-119 | once a name is cached, every later request for it returns the cached bean after a bare cache probe, whatever its args, and the entry survives |
| RequestRuns.SingletonPerName | Mine-Spring/Mine-Spring/mine-spring-06/src/main/java/com/brodog/springframework/beans/factory/support/AbstractBeanFactory.java:109-120 | if the instantiator publishes, then after a request for a name returns a bean, every later request for that name returns the same bean and never calls the instantiator |
| RequestRuns.NoPublishNoCaching | Mine-Spring/Mine-Spring/mine-spring-06/src/main/java/com/brodog/springframework/beans/factory/support/AbstractBeanFactory.java:109-120 | the factory itself never writes the cache: with an instantiator that leaves the cache alone, the cache stays the same, and every request for an uncached name whose definition is found calls the instantiator again |
| RequestRuns.ServeIgnoresPostProcessors | Mine-Spring/Mine-Spring/mine-spring-06/src/main/java/com/brodog/springframework/beans/factory/support/AbstractBeanFactory.java:70-72 | the post-processor list never affects request handling: two factories with the same cache serve any run of requests with the same results and traces, and end with the same cache |
| RequestRuns.AppendKeepsRuns | Mine-Spring/Mine-Spring/mine-spring-06/src/main/java/com/brodog/springframework/beans/factory/support/AbstractBeanFactory.java:70-72 | appending a handle through the returned list leaves the results and traces of every later run of requests unchanged |
| RequestRuns.RepeatedGetBeanCreatesOnce | Mine-Spring/Mine-Spring/mine-spring-06/src/main/java/com/brodog/springframework/beans/factory/support/AbstractBeanFactory.java:29-31 | two successive `getBean(name)` calls on an uncached name return the same bean and call the instantiator once, if the first call succeeds and the instantiator publishes |

## Left out

- The internals of the singleton registry that the factory extends (`DefaultSingleBeanRegistry`) are not part of this model. Its probe is modelled as a map lookup, and its write as the cache the instantiator returns.
- The bodies of `getBeanDefinition` and `createBeanObject` belong to subclasses that are not part of this model. They are function values here: the lookup is a pure function of the name, and the instantiator's reach is limited to the cache (see `BeanFactory.DoGetBean` below), and the multi-request lemmas add the assumptions `PublishesCreatedBean` or `LeavesCacheAlone`.
- `createBeanObject` declares no exception, but it is modelled as able to fail. An unchecked exception from it propagates unchanged, like one from `getBeanDefinition`, and any entries it published before throwing stay in the cache. An instantiator that never fails is a special case.
- Null beans are not modelled. A null stored in the cache is treated as a miss by the source, and a null returned by `createBeanObject` would be returned to the caller. Here a bean is a non-null reference.
- Generics and the unchecked `(T)` cast are not modelled: `requiredType` has no effect, and the model has no type check.
- Post-processor invocation is left out because the source never iterates or calls the list.
- BeanFactory.GetBeanPostProcessors has no contract of its own: it returns the live list. What callers observe through it is stated by `AddThroughReturnedList`, `RegisterAll` and `PostProcessorOrder`.
- BeanFactory.AddThroughReturnedList models only appends to the returned list. The source hands out the mutable list itself, so any holder can also clear, shrink or reorder it. Insertion order is preserved only for callers that only append.
- BeanFactory.DoGetBean: the definition lookup is modelled as a side-effect-free function of the name, fixed for the factory's lifetime. In the source it is subclass code running on the factory, and definitions may be registered between requests. "A failed lookup changes nothing" and `NoPublishNoCaching`'s "the cache stays the same" hold only for such lookups, and a run uses the same lookup for every request.
- BeanFactory.DoGetBean: the instantiator is modelled as a function of the cache, the name, the definition and the args. It cannot express a fresh object on every call (Java `new`): two calls with the same inputs return the same `Obj`. So in the model, single creation is shown by the trace (whether the instantiator is called again), not by which object comes back.
- BeanFactory.DoGetBean: the instantiator sees and returns only the cache. A subclass could also reach the post-processor list through the getter while creating a bean; the model does not let it, so "post-processors are never touched" holds only for instantiators that leave the list alone.
- BeanFactory.NewFactory: the empty cache is an assumption about the singleton registry the factory extends, which is not part of this model. The source line creates only the post-processor list.
- A null definition returned by `getBeanDefinition` without throwing is passed on to `createBeanObject` by the source. The model treats it as an ordinary `Success` value; it does not distinguish null from any other definition.
- An explicit `(Object[]) null` passed to `getBean(name, args...)` and null elements inside the array are not modelled. `GetBeanWithArgs` takes a sequence of non-null beans, and the null array is modelled only for the argument-less overloads.
- Concurrency is left out because the source has no synchronisation. Requests are served one at a time.
- The commented-out earlier version of `doGetBean` is dead code and is not modelled.
- Exception details are reduced to a message: the model only says that lookup or creation can fail.
- BeanFactory.GetBeanTyped and BeanFactory.GetBeanTypedWithArgs carry no contract of their own. What they return is stated by `TypedOverloadsIgnoreRequiredType`.
