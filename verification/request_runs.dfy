/**
  A factory serving a sequence of requests one after another, each seeing the
  state the previous one left. The factory never publishes a bean itself;
  whether a bean is created once per name therefore depends on the
  instantiator publishing what it creates, stated here as an explicit
  assumption (PublishesCreatedBean) rather than built into the factory.
*/
module RequestRuns {
  import opened Wrappers
  import opened BeanFactory

  /** One `getBean` call: the name and the argument array (None for the argument-less overloads). */
  datatype Request = Request(name: BeanName, args: Args)

  /** Per-request results and traces, and the factory after the last request. */
  datatype Run = Run(results: seq<Result<Obj, BeansException>>, traces: seq<seq<Call>>, factory: Factory)

  /** `after` keeps every entry of `before` unchanged (it may add new ones). */
  ghost predicate Extends(before: Cache, after: Cache) {
    forall k :: k in before ==> k in after && after[k] == before[k]
  }

  /**
    The assumption on the instantiator, for the only calls the factory makes
    (names missing from the cache): the cache it hands back keeps every
    existing entry, whether it succeeds or throws, and on success maps the
    requested name to the bean it returns. It may add other entries (beans
    it created along the way). A plain `cache[name := bean]` meets it.
  */
  ghost predicate PublishesCreatedBean(env: Collaborators) {
    forall cache, name, definition, args | name !in cache ::
      var made := env.createBeanObject(cache, name, definition, args);
      && Extends(cache, made.cache)
      && (made.result.Success? ==> name in made.cache && made.cache[name] == made.result.value)
  }

  /** An instantiator that, on the calls the factory makes, never touches the cache. */
  ghost predicate LeavesCacheAlone(env: Collaborators) {
    forall cache, name, definition, args | name !in cache ::
      env.createBeanObject(cache, name, definition, args).cache == cache
  }

  /** An instantiator that builds `bean` and publishes it with a plain put meets the assumption. */
  lemma PutPublisherPublishes(lookup: BeanName -> Result<BeanDefinition, BeansException>, bean: Obj)
    ensures PublishesCreatedBean(Collaborators(lookup, (cache: Cache, name: BeanName, definition: BeanDefinition, args: Args) =>
      Creation(Success(bean), cache[name := bean])))
  {
  }

  /** Serve the requests in order, threading the factory state through. */
  function Serve(f: Factory, env: Collaborators, reqs: seq<Request>): (run: Run)
    ensures |run.results| == |reqs| && |run.traces| == |reqs|
    ensures run.factory.postProcessors == f.postProcessors
    decreases |reqs|
  {
    if reqs == [] then Run([], [], f)
    else
      var o := DoGetBean(f, env, reqs[0].name, reqs[0].args);
      var rest := Serve(o.factory, env, reqs[1..]);
      Run([o.result] + rest.results, [o.trace] + rest.traces, rest.factory)
  }

  /** One request under a publishing instantiator: the cache only grows, and a returned bean is cached. */
  lemma StepExtendsCache(f: Factory, env: Collaborators, req: Request)
    requires PublishesCreatedBean(env)
    ensures var o := DoGetBean(f, env, req.name, req.args);
      && Extends(f.cache, o.factory.cache)
      && (o.result.Success? ==> req.name in o.factory.cache && o.factory.cache[req.name] == o.result.value)
  {
  }

  /** Under a publishing instantiator, a whole run only ever adds cache entries. */
  lemma {:induction false} RunExtendsCache(f: Factory, env: Collaborators, reqs: seq<Request>)
    requires PublishesCreatedBean(env)
    ensures Extends(f.cache, Serve(f, env, reqs).factory.cache)
    decreases |reqs|
  {
    if reqs != [] {
      var o := DoGetBean(f, env, reqs[0].name, reqs[0].args);
      StepExtendsCache(f, env, reqs[0]);
      RunExtendsCache(o.factory, env, reqs[1..]);
    }
  }

  /**
    Once a name is cached, every later request for it returns the cached
    bean after a bare cache probe, whatever arguments it carries, and the
    entry survives the run.
  */
  lemma {:induction false} CachedBeanIsStable(f: Factory, env: Collaborators, reqs: seq<Request>, name: BeanName)
    requires PublishesCreatedBean(env)
    requires name in f.cache
    ensures var run := Serve(f, env, reqs);
      && name in run.factory.cache && run.factory.cache[name] == f.cache[name]
      && forall i :: 0 <= i < |reqs| && reqs[i].name == name ==>
           run.results[i] == Success(f.cache[name]) && run.traces[i] == [GetSingletonBeanObject(name)]
    decreases |reqs|
  {
    if reqs != [] {
      var o := DoGetBean(f, env, reqs[0].name, reqs[0].args);
      StepExtendsCache(f, env, reqs[0]);
      CachedBeanIsStable(o.factory, env, reqs[1..], name);
      var run := Serve(f, env, reqs);
      var rest := Serve(o.factory, env, reqs[1..]);
      forall i | 0 <= i < |reqs| && reqs[i].name == name
        ensures run.results[i] == Success(f.cache[name]) && run.traces[i] == [GetSingletonBeanObject(name)]
      {
        if i > 0 {
          assert reqs[i] == reqs[1..][i - 1];
          assert run.results[i] == rest.results[i - 1];
          assert run.traces[i] == rest.traces[i - 1];
        }
      }
    }
  }

  /**
    The singleton guarantee: under a publishing instantiator, once a request
    for a name has returned a bean, every later request for that name
    returns the same bean and does not call the instantiator again.
  */
  lemma {:induction false} SingletonPerName(f: Factory, env: Collaborators, reqs: seq<Request>)
    requires PublishesCreatedBean(env)
    ensures var run := Serve(f, env, reqs);
      forall i, j :: 0 <= i < j < |reqs| && reqs[i].name == reqs[j].name && run.results[i].Success? ==>
        run.results[j] == run.results[i] && !InvokedInstantiator(run.traces[j])
    decreases |reqs|
  {
    if reqs != [] {
      var o := DoGetBean(f, env, reqs[0].name, reqs[0].args);
      var run := Serve(f, env, reqs);
      var rest := Serve(o.factory, env, reqs[1..]);
      assert run.results == [o.result] + rest.results && run.traces == [o.trace] + rest.traces;
      SingletonPerName(o.factory, env, reqs[1..]);
      forall i, j | 0 <= i < j < |reqs| && reqs[i].name == reqs[j].name && run.results[i].Success?
        ensures run.results[j] == run.results[i] && !InvokedInstantiator(run.traces[j])
      {
        assert reqs[j] == reqs[1..][j - 1];
        if i == 0 {
          FirstResultIsStable(f, env, reqs, j);
        } else {
          assert reqs[i] == reqs[1..][i - 1];
        }
      }
    }
  }

  /** The case of SingletonPerName where the earlier request is the first one of the run. */
  lemma FirstResultIsStable(f: Factory, env: Collaborators, reqs: seq<Request>, j: int)
    requires PublishesCreatedBean(env)
    requires 0 < j < |reqs| && reqs[0].name == reqs[j].name
    requires Serve(f, env, reqs).results[0].Success?
    ensures var run := Serve(f, env, reqs);
      run.results[j] == run.results[0] && !InvokedInstantiator(run.traces[j])
  {
    var o := DoGetBean(f, env, reqs[0].name, reqs[0].args);
    var rest := Serve(o.factory, env, reqs[1..]);
    StepExtendsCache(f, env, reqs[0]);
    CachedBeanIsStable(o.factory, env, reqs[1..], reqs[0].name);
    assert reqs[1..][j - 1] == reqs[j];
    assert rest.traces[j - 1] == [GetSingletonBeanObject(reqs[0].name)];
  }

  /**
    The factory does not write the cache itself: with an instantiator that
    leaves the cache alone, the cache never changes, and every request for an
    uncached name with a definition calls the instantiator again.
  */
  lemma {:induction false} NoPublishNoCaching(f: Factory, env: Collaborators, reqs: seq<Request>)
    requires LeavesCacheAlone(env)
    ensures var run := Serve(f, env, reqs);
      && run.factory.cache == f.cache
      && forall i :: 0 <= i < |reqs| && reqs[i].name !in f.cache && env.getBeanDefinition(reqs[i].name).Success? ==>
           InvokedInstantiator(run.traces[i])
    decreases |reqs|
  {
    if reqs != [] {
      var o := DoGetBean(f, env, reqs[0].name, reqs[0].args);
      assert o.factory.cache == f.cache;
      NoPublishNoCaching(o.factory, env, reqs[1..]);
      var run := Serve(f, env, reqs);
      var rest := Serve(o.factory, env, reqs[1..]);
      forall i | 0 <= i < |reqs| && reqs[i].name !in f.cache && env.getBeanDefinition(reqs[i].name).Success?
        ensures InvokedInstantiator(run.traces[i])
      {
        if i > 0 {
          assert reqs[i] == reqs[1..][i - 1];
          assert run.traces[i] == rest.traces[i - 1];
        }
      }
    }
  }

  /**
    The post-processor list never affects request handling: two factories
    with the same cache serve any run with the same results and traces, and
    end with the same cache.
  */
  lemma {:induction false} ServeIgnoresPostProcessors(f: Factory, g: Factory, env: Collaborators, reqs: seq<Request>)
    requires f.cache == g.cache
    ensures Serve(f, env, reqs).results == Serve(g, env, reqs).results
    ensures Serve(f, env, reqs).traces == Serve(g, env, reqs).traces
    ensures Serve(f, env, reqs).factory.cache == Serve(g, env, reqs).factory.cache
    decreases |reqs|
  {
    if reqs != [] {
      var o := DoGetBean(f, env, reqs[0].name, reqs[0].args);
      var q := DoGetBean(g, env, reqs[0].name, reqs[0].args);
      assert o.result == q.result && o.trace == q.trace && o.factory.cache == q.factory.cache;
      ServeIgnoresPostProcessors(o.factory, q.factory, env, reqs[1..]);
    }
  }

  /** Appending a handle through the returned list leaves every later run exactly as it was. */
  lemma AppendKeepsRuns(f: Factory, p: PostProcessor, env: Collaborators, reqs: seq<Request>)
    ensures Serve(AddThroughReturnedList(f, p), env, reqs).results == Serve(f, env, reqs).results
    ensures Serve(AddThroughReturnedList(f, p), env, reqs).traces == Serve(f, env, reqs).traces
  {
    ServeIgnoresPostProcessors(AddThroughReturnedList(f, p), f, env, reqs);
  }

  /**
    Two successive `getBean(name)` calls on an uncached name whose first
    resolution succeeds: the same bean both times, one instantiator call.
  */
  lemma RepeatedGetBeanCreatesOnce(f: Factory, env: Collaborators, name: BeanName)
    requires PublishesCreatedBean(env)
    requires name !in f.cache
    requires GetBean(f, env, name).result.Success?
    ensures var run := Serve(f, env, [Request(name, None), Request(name, None)]);
      && run.results[1] == run.results[0]
      && InvokedInstantiator(run.traces[0]) && !InvokedInstantiator(run.traces[1])
  {
    SingletonPerName(f, env, [Request(name, None), Request(name, None)]);
  }
}
