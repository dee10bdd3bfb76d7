/** The TSDB backend selector (src/sentry/tsdb/selector.py): a table-driven
    rule that, given a TSDB method name and its call arguments, names the one
    backend that serves the call. */
module Selector {
  import opened Results
  import opened Extractors

  /** READ (0) and WRITE (1): which slot of a backend pair a method reads. */
  datatype OperationType = Read | Write

  datatype Backend = Redis | Snuba | Dummy

  /** A `(read, write)` backend pair of the model backend table. */
  datatype BackendPair = BackendPair(read: Backend, write: Backend) {

    /** `pair[operation_type]`: slot 0 for reads, slot 1 for writes. */
    function Slot(op: OperationType): Backend {
      match op
      case Read => read
      case Write => write
    }
  }

  /** One row of the method specification table. */
  datatype Specification = Specification(op: OperationType, extractor: Extractor)

  /** `method_specifications`: the operation type and model extractor of every
      TSDB method the selector knows. */
  const MethodSpecifications: map<string, Specification> := map[
    "get_range" := Specification(Read, SingleModelArgument),
    "get_sums" := Specification(Read, SingleModelArgument),
    "get_distinct_counts_series" := Specification(Read, SingleModelArgument),
    "get_distinct_counts_totals" := Specification(Read, SingleModelArgument),
    "get_distinct_counts_union" := Specification(Read, SingleModelArgument),
    "get_most_frequent" := Specification(Read, SingleModelArgument),
    "get_most_frequent_series" := Specification(Read, SingleModelArgument),
    "get_frequency_series" := Specification(Read, SingleModelArgument),
    "get_frequency_totals" := Specification(Read, SingleModelArgument),
    "incr" := Specification(Write, SingleModelArgument),
    "incr_multi" := Specification(Write, ItemPairs),
    "merge" := Specification(Write, SingleModelArgument),
    "delete" := Specification(Write, MultipleModelArgument),
    "record" := Specification(Write, SingleModelArgument),
    "record_multi" := Specification(Write, ItemTriples),
    "merge_distinct_counts" := Specification(Write, SingleModelArgument),
    "delete_distinct_counts" := Specification(Write, MultipleModelArgument),
    "record_frequency_multi" := Specification(Write, RequestPairs),
    "merge_frequencies" := Specification(Write, SingleModelArgument),
    "delete_frequencies" := Specification(Write, MultipleModelArgument),
    "flush" := Specification(Write, DontDoThis)
  ]

  /** The method names the table classifies as operations of type `op`. */
  function MethodsOfType(op: OperationType): set<string> {
    set name | name in MethodSpecifications && MethodSpecifications[name].op == op
  }

  /** The state the selector module builds when it is imported. */
  datatype Selector = Selector(modelBackends: map<Model, BackendPair>)

  /** `model_backends`: every known model gets `('redis', 'redis')`, except
      the models Snuba has columns for, which read from Snuba and write to the
      dummy backend. */
  function ModelBackends(models: set<Model>, snubaModels: set<Model>): (mb: map<Model, BackendPair>)
    ensures mb.Keys == models
    ensures forall m :: m in mb ==> (mb[m].read == Snuba <==> m in snubaModels)
    ensures forall m :: m in mb ==> (mb[m].write == Dummy <==> m in snubaModels)
    ensures forall m :: m in mb && m !in snubaModels ==> mb[m] == BackendPair(Redis, Redis)
    ensures forall m :: m in mb && m in snubaModels ==> mb[m] == BackendPair(Snuba, Dummy)
  {
    map m | m in models :: if m !in snubaModels then BackendPair(Redis, Redis) else BackendPair(Snuba, Dummy)
  }

  /** Importing the selector module: the assertion that the table covers
      exactly the read and write methods of the TSDB interface, then the
      construction of the model backend table. */
  function Load(readMethods: set<string>, writeMethods: set<string>,
                models: set<Model>, snubaModels: set<Model>): (r: Result<Selector>)
    ensures r.Success? <==> MethodSpecifications.Keys == readMethods + writeMethods
    ensures r.Failure? ==> r.error == SpecificationMismatch
    ensures r.Success? ==> r.value.modelBackends.Keys == models
    ensures r.Success? ==> r.value.modelBackends == ModelBackends(models, snubaModels)
  {
    if MethodSpecifications.Keys == readMethods + writeMethods then
      Success(Selector(ModelBackends(models, snubaModels)))
    else
      Failure(SpecificationMismatch)
  }

  /** The backends of the touched models in slot `op`; a touched model the
      table does not know raises `KeyError`. */
  function BackendsOf(mb: map<Model, BackendPair>, touched: set<Model>, op: OperationType): (r: Result<set<Backend>>)
    ensures r.Success? <==> touched <= mb.Keys
    ensures r.Failure? ==> r.error == UnknownModel
    ensures r.Success? ==> forall b :: b in r.value <==> exists m :: m in touched && m in mb && mb[m].Slot(op) == b
  {
    if touched <= mb.Keys then
      Success(set m | m in touched :: mb[m].Slot(op))
    else
      Failure(UnknownModel)
  }

  /** The first of Redis, Snuba and Dummy that the set holds. */
  function AnyOf(s: set<Backend>): (b: Backend)
    requires s != {}
    ensures b in s
  {
    if Redis in s then Redis
    else if Snuba in s then Snuba
    else
      assert Dummy in s by {
        var x :| x in s;
        assert x != Redis && x != Snuba;
      }
      Dummy
  }

  /** `list(backends)`: the distinct elements of a backend set, in a fixed
      order (Python's order depends on hashing). */
  function ListOf(s: set<Backend>): (r: seq<Backend>)
    ensures |r| == |s|
    ensures forall b :: b in r <==> b in s
    decreases |s|
  {
    if s == {} then
      []
    else
      var b := AnyOf(s);
      [b] + ListOf(s - {b})
  }

  /** Lines 67-71 of `selector_func`, for a method whose table row is `spec`:
      extract the touched models, look up each one's backend in the method's
      slot, and require that exactly one backend results. */
  function Route(sel: Selector, spec: Specification, callargs: CallArgs): (r: Result<seq<Backend>>)
    ensures r.Success? ==> |r.value| == 1
    ensures spec.extractor == DontDoThis ==> r == Failure(NotImplemented)
    ensures !Accepts(spec.extractor, callargs) ==> r == Failure(RaisedBy(spec.extractor, callargs))
  {
    var touched :- Extract(spec.extractor, callargs);
    var backends :- BackendsOf(sel.modelBackends, touched, spec.op);
    if |backends| == 1 then Success(ListOf(backends)) else Failure(NotSingleBackend)
  }

  /** `selector_func`: the backends to route one TSDB call to. Methods the
      table does not know go to Redis, whatever their arguments; `context` is
      never read. */
  function Select<C>(sel: Selector, context: C, methodName: string, callargs: CallArgs): (r: Result<seq<Backend>>)
    ensures methodName !in MethodSpecifications ==> r == Success([Redis])
    ensures methodName in MethodSpecifications && r.Success? ==> |r.value| == 1
    ensures methodName == "flush" ==> r == Failure(NotImplemented)
  {
    if methodName !in MethodSpecifications then
      Success([Redis])
    else
      Route(sel, MethodSpecifications[methodName], callargs)
  }

  /** Independent description of a successful routing: the call has the shape
      the extractor reads, names at least one model, and every model it names
      is known and has `b` in the operation's slot. */
  ghost predicate RoutesTo(sel: Selector, spec: Specification, callargs: CallArgs, b: Backend) {
    && Accepts(spec.extractor, callargs)
    && (exists m :: Mentions(callargs, m))
    && forall m :: Mentions(callargs, m) ==>
         m in sel.modelBackends && sel.modelBackends[m].Slot(spec.op) == b
  }

  /** A set of backends holding `b` has exactly one element iff it is `{b}`. */
  lemma SingletonIff(s: set<Backend>, b: Backend)
    requires b in s
    ensures |s| == 1 <==> s == {b}
  {
    if |s| == 1 {
      assert |s - {b}| == 0;
      assert s - {b} == {};
    }
  }

  /** A call that routes to `b` is sent to `[b]`. */
  lemma RoutesToSelects(sel: Selector, spec: Specification, callargs: CallArgs, b: Backend)
    requires RoutesTo(sel, spec, callargs, b)
    ensures Route(sel, spec, callargs) == Success([b])
  {
    var touched := Extract(spec.extractor, callargs).value;
    var bs := BackendsOf(sel.modelBackends, touched, spec.op).value;
    var m :| Mentions(callargs, m);
    assert m in touched;
    assert b in bs;
    forall b' | b' in bs ensures b' == b {
      var m' :| m' in touched && m' in sel.modelBackends && sel.modelBackends[m'].Slot(spec.op) == b';
      assert Mentions(callargs, m');
    }
    assert bs == {b};
    assert ListOf(bs) == [b];
  }

  /** A call sent to `[b]` routes to `b`. */
  lemma SelectsRoutesTo(sel: Selector, spec: Specification, callargs: CallArgs, b: Backend)
    requires Route(sel, spec, callargs) == Success([b])
    ensures RoutesTo(sel, spec, callargs, b)
  {
    var touched := Extract(spec.extractor, callargs).value;
    var bs := BackendsOf(sel.modelBackends, touched, spec.op).value;
    assert |bs| == 1 && ListOf(bs) == [b];
    assert b in ListOf(bs);
    SingletonIff(bs, b);
    var m :| m in touched && m in sel.modelBackends && sel.modelBackends[m].Slot(spec.op) == b;
    assert Mentions(callargs, m);
    forall m' | Mentions(callargs, m')
      ensures m' in sel.modelBackends && sel.modelBackends[m'].Slot(spec.op) == b
    {
      assert m' in touched;
      assert sel.modelBackends[m'].Slot(spec.op) in bs;
    }
  }

  /** Routing returns `[b]` exactly when the call routes to `b`. */
  lemma RouteIff(sel: Selector, spec: Specification, callargs: CallArgs, b: Backend)
    ensures Route(sel, spec, callargs) == Success([b]) <==> RoutesTo(sel, spec, callargs, b)
  {
    if RoutesTo(sel, spec, callargs, b) {
      RoutesToSelects(sel, spec, callargs, b);
    }
    if Route(sel, spec, callargs) == Success([b]) {
      SelectsRoutesTo(sel, spec, callargs, b);
    }
  }

  /** For a known method, selection returns `[b]` exactly when the call routes
      to `b` through the method's table row. */
  lemma SelectRoutesTo<C>(sel: Selector, context: C, methodName: string, callargs: CallArgs, b: Backend)
    requires methodName in MethodSpecifications
    ensures Select(sel, context, methodName, callargs) == Success([b]) <==>
            RoutesTo(sel, MethodSpecifications[methodName], callargs, b)
  {
    RouteIff(sel, MethodSpecifications[methodName], callargs, b);
  }

  /** Routing fails exactly when the call routes to no backend. */
  lemma RouteFailsIffNoRoute(sel: Selector, spec: Specification, callargs: CallArgs)
    ensures Route(sel, spec, callargs).Failure? <==> forall b :: !RoutesTo(sel, spec, callargs, b)
  {
    var r := Route(sel, spec, callargs);
    if r.Success? {
      assert r.value == [r.value[0]];
      RouteIff(sel, spec, callargs, r.value[0]);
    } else {
      forall b ensures !RoutesTo(sel, spec, callargs, b) {
        RouteIff(sel, spec, callargs, b);
      }
    }
  }

  /** For a known method, a call its extractor cannot read fails with the
      extractor's own exception, before any model is looked up: `get_range`
      without a `model` entry raises `KeyError('model')`, `incr_multi` with a
      triple among its items raises `ValueError`. */
  lemma SelectRejectsMalformedCall<C>(sel: Selector, context: C, methodName: string, callargs: CallArgs)
    requires methodName in MethodSpecifications
    requires !Accepts(MethodSpecifications[methodName].extractor, callargs)
    ensures Select(sel, context, methodName, callargs) ==
            Failure(RaisedBy(MethodSpecifications[methodName].extractor, callargs))
    ensures methodName == "get_range" && !callargs.ModelArg? ==>
            Select(sel, context, methodName, callargs) == Failure(MissingArgument("model"))
    ensures methodName == "incr_multi" && callargs.ItemsArg? ==>
            Select(sel, context, methodName, callargs) == Failure(UnpackMismatch(2))
  {
  }

  /** A call that names a model the backend table does not know raises
      `KeyError`, once its extractor has succeeded. */
  lemma UnknownModelFails(sel: Selector, spec: Specification, callargs: CallArgs, m: Model)
    requires Accepts(spec.extractor, callargs)
    requires Mentions(callargs, m) && m !in sel.modelBackends
    ensures Route(sel, spec, callargs) == Failure(UnknownModel)
  {
  }

  /** A call whose touched models map to no backend, or to two different
      backends, fails the single-backend assertion. */
  lemma NoSingleBackendFails(sel: Selector, spec: Specification, callargs: CallArgs)
    requires Accepts(spec.extractor, callargs)
    requires forall m :: Mentions(callargs, m) ==> m in sel.modelBackends
    requires || (forall m :: !Mentions(callargs, m))
             || (exists m1, m2 :: Mentions(callargs, m1) && Mentions(callargs, m2) &&
                   sel.modelBackends[m1].Slot(spec.op) != sel.modelBackends[m2].Slot(spec.op))
    ensures Route(sel, spec, callargs) == Failure(NotSingleBackend)
  {
    var touched := Extract(spec.extractor, callargs).value;
    var bs := BackendsOf(sel.modelBackends, touched, spec.op).value;
    if exists m1, m2 :: Mentions(callargs, m1) && Mentions(callargs, m2) &&
         sel.modelBackends[m1].Slot(spec.op) != sel.modelBackends[m2].Slot(spec.op) {
      var m1, m2 :| Mentions(callargs, m1) && Mentions(callargs, m2) &&
        sel.modelBackends[m1].Slot(spec.op) != sel.modelBackends[m2].Slot(spec.op);
      var b := sel.modelBackends[m1].Slot(spec.op);
      assert m1 in touched && m2 in touched;
      assert b in bs;
      assert sel.modelBackends[m2].Slot(spec.op) in bs;
      SingletonIff(bs, b);
    } else {
      assert bs == {};
    }
  }

  /** A single-model call routes to the model's backend in the operation's slot. */
  lemma SingleModelCall(sel: Selector, spec: Specification, m: Model)
    requires spec.extractor == SingleModelArgument
    requires m in sel.modelBackends
    ensures Route(sel, spec, ModelArg(m)) == Success([sel.modelBackends[m].Slot(spec.op)])
  {
    RouteIff(sel, spec, ModelArg(m), sel.modelBackends[m].Slot(spec.op));
  }

  /** Routing through the table built at import: a call that only names Snuba
      models reads from Snuba and writes to the dummy backend, a call that
      names no Snuba model goes to Redis, and a call that mixes the two fails. */
  lemma LoadedRouting(readMethods: set<string>, writeMethods: set<string>,
                      models: set<Model>, snubaModels: set<Model>,
                      spec: Specification, callargs: CallArgs)
    requires Load(readMethods, writeMethods, models, snubaModels).Success?
    requires Accepts(spec.extractor, callargs)
    requires exists m :: Mentions(callargs, m)
    requires forall m :: Mentions(callargs, m) ==> m in models
    ensures var r := Route(Load(readMethods, writeMethods, models, snubaModels).value, spec, callargs);
            && ((forall m :: Mentions(callargs, m) ==> m in snubaModels) ==>
                  r == Success([if spec.op == Read then Snuba else Dummy]))
            && ((forall m :: Mentions(callargs, m) ==> m !in snubaModels) ==>
                  r == Success([Redis]))
            && ((exists m1, m2 :: Mentions(callargs, m1) && Mentions(callargs, m2) &&
                   m1 in snubaModels && m2 !in snubaModels) ==>
                  r == Failure(NotSingleBackend))
  {
    var sel := Load(readMethods, writeMethods, models, snubaModels).value;
    var mb := sel.modelBackends;
    assert mb == ModelBackends(models, snubaModels);
    if forall m :: Mentions(callargs, m) ==> m in snubaModels {
      var b := if spec.op == Read then Snuba else Dummy;
      forall m | Mentions(callargs, m) ensures m in mb && mb[m].Slot(spec.op) == b {
        assert mb[m] == BackendPair(Snuba, Dummy);
      }
      RouteIff(sel, spec, callargs, b);
    }
    if forall m :: Mentions(callargs, m) ==> m !in snubaModels {
      forall m | Mentions(callargs, m) ensures m in mb && mb[m].Slot(spec.op) == Redis {
        assert mb[m] == BackendPair(Redis, Redis);
      }
      RouteIff(sel, spec, callargs, Redis);
    }
    if exists m1, m2 :: Mentions(callargs, m1) && Mentions(callargs, m2) &&
         m1 in snubaModels && m2 !in snubaModels {
      var m1, m2 :| Mentions(callargs, m1) && Mentions(callargs, m2) &&
        m1 in snubaModels && m2 !in snubaModels;
      assert mb[m1] == BackendPair(Snuba, Dummy);
      assert mb[m2] == BackendPair(Redis, Redis);
      assert mb[m1].Slot(spec.op) != mb[m2].Slot(spec.op);
      NoSingleBackendFails(sel, spec, callargs);
    }
  }

  /** The table's key set is exactly its read methods and its write methods,
      which are disjoint, so the import-time assertion holds for them; the nine
      `get_*` methods are the reads. */
  lemma TableIsReadsAndWrites(models: set<Model>, snubaModels: set<Model>)
    ensures MethodsOfType(Read) == {
      "get_range", "get_sums", "get_distinct_counts_series", "get_distinct_counts_totals",
      "get_distinct_counts_union", "get_most_frequent", "get_most_frequent_series",
      "get_frequency_series", "get_frequency_totals"}
    ensures MethodsOfType(Read) + MethodsOfType(Write) == MethodSpecifications.Keys
    ensures MethodsOfType(Read) !! MethodsOfType(Write)
    ensures Load(MethodsOfType(Read), MethodsOfType(Write), models, snubaModels).Success?
  {
  }

  /** The selection never depends on the call context. */
  lemma ContextIgnored<C>(sel: Selector, c1: C, c2: C, methodName: string, callargs: CallArgs)
    ensures Select(sel, c1, methodName, callargs) == Select(sel, c2, methodName, callargs)
  {
  }
}
