# TSDB backend selector

A Dafny model of Sentry's TSDB backend selector (`src/sentry/tsdb/selector.py`).
Sentry's time-series database (TSDB) is served by several backends: Redis, Snuba,
and a dummy backend that drops writes. The selector routes each TSDB call to one
of them. Given the TSDB method name and its call arguments, it:

- looks the method up in the method specification table, which gives the
  operation type (READ = slot 0, WRITE = slot 1) and a model extractor;
- sends methods missing from the table to `['redis']`;
- otherwise extracts the set of TSDB models the call touches, and looks up each
  model's `(read, write)` backend pair in the model backend table;
- requires that the touched models agree on exactly one backend, and returns it.

The model backend table is built once, when the module is imported. Models that
Snuba has columns for get `('snuba', 'dummy')`. Every other model gets
`('redis', 'redis')`. Also at import, an assertion checks that the table
covers exactly the read and write methods of the TSDB interface.

Layout:

- `results.dfy`, module `Results`: the Python exceptions the selector can raise,
  as an `Error` datatype, and `Result<T>`, a Success/Failure type usable with `:-`.
- `extractors.dfy`, module `Extractors`: models, call arguments (one variant per
  argument shape) and the extractors. Two ghost predicates give an independent
  reference: `Mentions(args, m)` says the call names model `m`, and
  `Accepts(e, args)` says extractor `e` can read the call without raising.
- `selector.dfy`, module `Selector`: the specification table, the model backend
  table, module import (`Load`), `selector_func` (`Select`, with `Route` for a
  known method's row), and the routing lemmas. The ghost predicate
  `RoutesTo(sel, spec, args, b)` is the reference description of a successful
  routing to backend `b`.

Inputs the module takes from classes outside this file are parameters:

- the TSDB interface's model set and its read and write method sets (`BaseTSDB`);
- the models Snuba has columns for (`SnubaTSDB.model_columns`).

The call context is a type parameter that `Select` never inspects.

## Model

| member | source | states |
|---|---|---|
| `Extractors.SingleModel` | src/sentry/tsdb/selector.py:16-17 | `single_model_argument` succeeds exactly when the call has a `model` entry, and then yields a one-element set holding that model; otherwise it raises `KeyError('model')` |
| `Extractors.MultipleModels` | src/sentry/tsdb/selector.py:20-21 | `multiple_model_argument` succeeds exactly when the call has a `models` entry; a model is in the result iff it occurs in the list, and the result is no larger than the list; otherwise it raises `KeyError('models')` |
| `Extractors.ItemModels` | src/sentry/tsdb/selector.py:40-44 | walking a tuple list the way the generator does: success iff every entry has the unpacked arity (2 for `incr_multi`, 3 for `record_multi`), and then a model is in the result iff it is the first component of some entry; otherwise `ValueError` |
| `Extractors.ItemsModels` | src/sentry/tsdb/selector.py:40-44 | the `items` extractors raise `KeyError('items')` without an `items` entry, succeed iff every item has the expected arity, and yield exactly the items' first components |
| `Extractors.RequestModels` | src/sentry/tsdb/selector.py:47 | the `record_frequency_multi` extractor succeeds exactly when there is a `requests` entry, and yields exactly the first components of the requests |
| `Extractors.Extract` | src/sentry/tsdb/selector.py:16-50 | every extractor succeeds exactly when it `Accepts` the call, and then yields exactly the models the call `Mentions`; otherwise it raises the extractor's own exception (`KeyError` for its missing entry, `ValueError` for an `items` tuple of the wrong arity); `dont_do_this` always raises `NotImplementedError` |
| `Selector.ModelBackends` | src/sentry/tsdb/selector.py:56-59 | the backend table has exactly the known models as keys; a model Snuba has columns for gets `('snuba', 'dummy')`, and every other model gets `('redis', 'redis')` |
| `Selector.Load` | src/sentry/tsdb/selector.py:53-59 | importing the module succeeds iff the table's key set equals the union of the read and write method sets, otherwise fails with the assertion error; on success the selector holds the backend table built from the known models and the Snuba models |
| `Selector.TableIsReadsAndWrites` | src/sentry/tsdb/selector.py:28-54 | the table's read methods are the nine `get_*` methods; read and write methods are disjoint and together make up the table's key set, so the import assertion holds for the table's own classification |
| `Selector.BackendsOf` | src/sentry/tsdb/selector.py:68 | the lookup succeeds iff every touched model is in the backend table (otherwise `KeyError`), and a backend is in the result iff some touched model has it in the operation's slot |
| `Selector.ListOf` | src/sentry/tsdb/selector.py:71 | `list(backends)` has as many entries as the set has elements, and holds exactly the set's elements |
| `Selector.Route` | src/sentry/tsdb/selector.py:67-71 | for a known method, a successful selection has exactly one element; a call the extractor cannot read fails with the extractor's exception; the `flush` row always fails with `NotImplementedError` |
| `Selector.Select` | src/sentry/tsdb/selector.py:62-71 | a method missing from the table yields exactly `['redis']` whatever the arguments; a known method's successful result has exactly one element; `flush` always fails |
| `Selector.RoutesToSelects` | src/sentry/tsdb/selector.py:67-71 | if the call has the shape its extractor reads, names at least one model, and all its models are known with backend `b` in the slot, then the selection is `[b]` |
| `Selector.SelectsRoutesTo` | src/sentry/tsdb/selector.py:67-71 | if the selection is `[b]`, then the call has the shape its extractor reads, names a model, and every model it names is known with backend `b` in the slot |
| `Selector.RouteIff` | src/sentry/tsdb/selector.py:67-71 | both directions together: a known method's selection is `[b]` iff the call routes to `b` |
| `Selector.SelectRoutesTo` | src/sentry/tsdb/selector.py:62-71 | for a method in the table, `selector_func` returns `[b]` iff the call routes to `b` through that method's row |
| `Selector.RouteFailsIffNoRoute` | src/sentry/tsdb/selector.py:67-71 | a known method's selection fails iff the call routes to no backend at all |
| `Selector.SelectRejectsMalformedCall` | src/sentry/tsdb/selector.py:62-68 | for a method in the table, a call its extractor cannot read fails with that extractor's exception; for example `get_range` without `model` raises `KeyError('model')` and `incr_multi` with a non-pair item raises `ValueError` |
| `Selector.UnknownModelFails` | src/sentry/tsdb/selector.py:56-68 | once the extractor succeeds, a call naming a model outside the backend table fails with `KeyError` |
| `Selector.NoSingleBackendFails` | src/sentry/tsdb/selector.py:68-70 | a call whose known models map to zero backends, or to two different backends, fails the single-backend assertion |
| `Selector.SingleModelCall` | src/sentry/tsdb/selector.py:67-68 | a single-model call to a known model routes to `[model_backends[model][type]]`: slot 0 for reads, slot 1 for writes |
| `Selector.LoadedRouting` | src/sentry/tsdb/selector.py:56-70 | with the table built at import: a call naming only Snuba models goes to `snuba` for reads and `dummy` for writes; a call naming no Snuba model goes to `redis`; a call mixing the two fails |
| `Selector.ContextIgnored` | src/sentry/tsdb/selector.py:62-71 | the selection is the same for any two call contexts |

## Left out

- `BaseTSDB` and `SnubaTSDB` are not part of this model. Their model set, read
  and write method sets, and Snuba column set are parameters of `Load`.
- The unused logger (lines 3 and 9) has no behaviour to model.
- Python `assert` statements are modelled as enabled. Under `python -O`, the
  module would load with a mismatched table, and `selector_func` would return
  any number of backends.
- `Selector.ListOf`: fixes the order Redis, Snuba, Dummy, whereas Python's set
  order depends on hashing. `selector_func` only calls it on a one-element set,
  where the order cannot matter.
- Call arguments keep only the entry the selector reads (`model`, `models`,
  `items` or `requests`). Other entries are never read. A call without the
  entry its extractor reads becomes `KeyError`.
- Python's dynamic typing is reduced to typed values. Tuples in `items` are pairs
  or triples: another arity raises `ValueError` in Python just as a pair does
  for `record_multi`. Every entry of `requests` is a `(model, data)` pair, so
  the `ValueError` that `record_frequency_multi`'s extractor raises on an entry
  of another arity is not modelled. Unhashable values and non-list iterables
  are left out.
- Which unknown model the `KeyError` names depends on set iteration order. The
  model's `UnknownModel` error carries no model.
