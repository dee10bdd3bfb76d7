/** The model extractors of the TSDB backend selector: each one reads the
    arguments of a TSDB call and returns the set of TSDB models that call
    touches (src/sentry/tsdb/selector.py lines 16-25, 40, 44 and 47). */
module Extractors {
  import opened Results

  /** A TSDB model (an entry of the TSDB model enumeration). */
  datatype Model = Model(id: int)

  /** A key of a TSDB series (an issue, project or release id). */
  type Key = int

  /** One entry of an `items` argument: `(model, key)` for `incr_multi`,
      `(model, key, values)` for `record_multi`. A list may mix both. */
  datatype Item =
    | Pair(model: Model, key: Key)
    | Triple(model: Model, key: Key, values: seq<int>)
  {
    /** The number of names the tuple unpacks into. */
    function Arity(): nat {
      if Pair? then 2 else 3
    }
  }

  /** One `(model, data)` entry of the `requests` argument of
      `record_frequency_multi`; `data` maps keys to item scores. */
  datatype FrequencyRequest = FrequencyRequest(model: Model, data: map<Key, map<string, int>>)

  /** The call arguments of a TSDB method, by the one entry an extractor reads:
      `model`, `models`, `items` or `requests`. Any other entry of the Python
      dictionary is never read by the selector and is not represented. */
  datatype CallArgs =
    | ModelArg(model: Model)
    | ModelsArg(models: seq<Model>)
    | ItemsArg(items: seq<Item>)
    | RequestsArg(requests: seq<FrequencyRequest>)

  /** The extractor column of the method specification table. */
  datatype Extractor =
    | SingleModelArgument     // single_model_argument
    | MultipleModelArgument   // multiple_model_argument
    | ItemPairs               // the incr_multi lambda
    | ItemTriples             // the record_multi lambda
    | RequestPairs            // the record_frequency_multi lambda
    | DontDoThis              // dont_do_this

  /** Independent description of the models a call names, whatever its shape. */
  ghost predicate Mentions(args: CallArgs, m: Model) {
    match args
    case ModelArg(x) => x == m
    case ModelsArg(ms) => m in ms
    case ItemsArg(items) => exists it :: it in items && it.model == m
    case RequestsArg(rs) => exists q :: q in rs && q.model == m
  }

  /** Independent description of the calls an extractor handles without raising:
      the entry it reads is present and every tuple in it has the arity it unpacks. */
  ghost predicate Accepts(e: Extractor, args: CallArgs) {
    match e
    case SingleModelArgument => args.ModelArg?
    case MultipleModelArgument => args.ModelsArg?
    case ItemPairs => args.ItemsArg? && forall it :: it in args.items ==> it.Pair?
    case ItemTriples => args.ItemsArg? && forall it :: it in args.items ==> it.Triple?
    case RequestPairs => args.RequestsArg?
    case DontDoThis => false
  }

  /** `single_model_argument`: the one model named by `callargs['model']`. */
  function SingleModel(args: CallArgs): (r: Result<set<Model>>)
    ensures r.Success? <==> args.ModelArg?
    ensures r.Success? ==> |r.value| == 1 && args.model in r.value
    ensures r.Failure? ==> r.error == MissingArgument("model")
  {
    match args
    case ModelArg(m) => Success({m})
    case _ => Failure(MissingArgument("model"))
  }

  /** `multiple_model_argument`: the distinct elements of `callargs['models']`. */
  function MultipleModels(args: CallArgs): (r: Result<set<Model>>)
    ensures r.Success? <==> args.ModelsArg?
    ensures r.Success? ==> forall m :: m in r.value <==> m in args.models
    ensures r.Success? ==> |r.value| <= |args.models|
    ensures r.Failure? ==> r.error == MissingArgument("models")
  {
    match args
    case ModelsArg(ms) =>
      var s := set m | m in ms;
      ElementsBound(ms);
      Success(s)
    case _ => Failure(MissingArgument("models"))
  }

  /** A list has at least as many entries as it has distinct elements. */
  lemma {:induction false} ElementsBound(ms: seq<Model>)
    ensures |set m | m in ms| <= |ms|
  {
    if ms != [] {
      ElementsBound(ms[1..]);
      assert (set m | m in ms) == {ms[0]} + (set m | m in ms[1..]);
    }
  }

  /** The first components of a list of tuples that must each unpack into
      `arity` names, walked in order as the Python generator walks them; the
      first entry of another arity raises. */
  function ItemModels(items: seq<Item>, arity: nat): (r: Result<set<Model>>)
    ensures r.Success? <==> forall i :: 0 <= i < |items| ==> items[i].Arity() == arity
    ensures r.Success? ==> forall m :: m in r.value <==> exists it :: it in items && it.model == m
    ensures r.Failure? ==> r.error == UnpackMismatch(arity)
    decreases |items|
  {
    if items == [] then
      Success({})
    else if items[0].Arity() != arity then
      Failure(UnpackMismatch(arity))
    else
      var rest :- ItemModels(items[1..], arity);
      assert forall m :: m in rest ==> exists it :: it in items && it.model == m by {
        forall m | m in rest ensures exists it :: it in items && it.model == m {
          var it :| it in items[1..] && it.model == m;
          assert it in items;
        }
      }
      Success({items[0].model} + rest)
  }

  /** The `items` extractors of `incr_multi` (pairs) and `record_multi` (triples). */
  function ItemsModels(args: CallArgs, arity: nat): (r: Result<set<Model>>)
    ensures r.Success? <==> args.ItemsArg? && forall it :: it in args.items ==> it.Arity() == arity
    ensures !args.ItemsArg? ==> r == Failure(MissingArgument("items"))
    ensures r.Failure? && args.ItemsArg? ==> r.error == UnpackMismatch(arity)
    ensures r.Success? ==> forall m :: m in r.value <==> exists it :: it in args.items && it.model == m
  {
    match args
    case ItemsArg(items) => ItemModels(items, arity)
    case _ => Failure(MissingArgument("items"))
  }

  /** The `record_frequency_multi` extractor: the first components of `requests`. */
  function RequestModels(args: CallArgs): (r: Result<set<Model>>)
    ensures r.Success? <==> args.RequestsArg?
    ensures r.Success? ==> forall m :: m in r.value <==> exists q :: q in args.requests && q.model == m
    ensures r.Failure? ==> r.error == MissingArgument("requests")
  {
    match args
    case RequestsArg(rs) => Success(set q | q in rs :: q.model)
    case _ => Failure(MissingArgument("requests"))
  }

  /** The exception an extractor raises on a call it does not accept: `KeyError`
      for the entry it reads when that entry is missing, `ValueError` when an
      `items` tuple does not unpack, and `NotImplementedError` for `dont_do_this`. */
  function RaisedBy(e: Extractor, args: CallArgs): Error {
    match e
    case SingleModelArgument => MissingArgument("model")
    case MultipleModelArgument => MissingArgument("models")
    case ItemPairs => if args.ItemsArg? then UnpackMismatch(2) else MissingArgument("items")
    case ItemTriples => if args.ItemsArg? then UnpackMismatch(3) else MissingArgument("items")
    case RequestPairs => MissingArgument("requests")
    case DontDoThis => NotImplemented
  }

  /** Runs an extractor on the call arguments. */
  function Extract(e: Extractor, args: CallArgs): (r: Result<set<Model>>)
    ensures r.Success? <==> Accepts(e, args)
    ensures r.Success? ==> forall m :: m in r.value <==> Mentions(args, m)
    ensures r.Failure? ==> r.error == RaisedBy(e, args)
    ensures e == DontDoThis ==> r == Failure(NotImplemented)
  {
    match e
    case SingleModelArgument => SingleModel(args)
    case MultipleModelArgument => MultipleModels(args)
    case ItemPairs => ItemsModels(args, 2)
    case ItemTriples => ItemsModels(args, 3)
    case RequestPairs => RequestModels(args)
    case DontDoThis => Failure(NotImplemented)
  }
}
