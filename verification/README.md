# Transaction naming of the CakePHP NewRelic trait

A model of the naming logic of `NewRelicTrait`, the trait the CakePHP NewRelic
plugin mixes into components, dispatcher filters and shells. The trait keeps
one piece of state, the transaction name `_name`. `setName` stores a name,
deriving it first when it is given a console `Shell` or a `CakeRequest`.
`getName` reads it back, and `start` hands it to the monitoring client unless
an explicit name is passed.

Files:

- `php.dfy`, module `Php`: the PHP value semantics the naming relies on.
  String-or-null values are `Option<string>`. Truthiness (`null`, `""` and
  `"0"` are falsy) is `Truthy`. `array_filter` without a callback is
  `FilterTruthy`. `implode` is `Implode`, with its inverse `Explode` for a
  one-character delimiter.
- `naming.dfy`, module `Naming`: the shell and request descriptors (only the
  fields the trait reads), `_deriveNameFromShell`, `_deriveNameFromRequest` and
  the resolution `setName` applies, with the lemmas about them. The
  derivations are Dafny functions without `reads` clauses. They are therefore
  deterministic, total and unable to touch `_name`.
- `tracker.dfy`, module `NewRelic`: class `NewRelicTrait` with the mutable
  field `name` (the trait's `_name`) and the methods that write and read it,
  plus two client methods that run `setName`, `getName` and `start` on a fresh
  object.

The argument of `setName` is the tagged union `NameInput`: `Str`, `ShellIn`,
`RequestIn` or `Null`. `setName(null)` stores null, as the source does.

The code's checks are truthiness checks. `"0"` is falsy in PHP, so a plugin,
prefix, controller, action or extension equal to `"0"` is dropped, just like
`""` or null.

## Model

| member | source | states |
|---|---|---|
| `Php.Truthy` | Trait/NewRelicTrait.php:200 | PHP truthiness of a string-or-null value, used by the `if ($x)` checks at lines 200, 221, 225 and 239 and by `array_filter` at line 232: null, `""` and `"0"` are falsy; its consequences are stated by the lemmas below |
| `Php.ToStr` | Trait/NewRelicTrait.php:204-207 | `implode` turns a null shell name or command into `""`; `Naming.ShellNameShape` states the resulting name |
| `Php.FilterTruthy` | Trait/NewRelicTrait.php:232 | `array_filter` followed by reading the values; it never lengthens the list, and `Php.FilterTruthySpec`, `Php.FilterTruthyCounts` and `Php.FilterTruthyAppend` state what it keeps and in which order |
| `Php.FilterTruthySpec` | Trait/NewRelicTrait.php:232 | every kept value is truthy, every truthy entry is kept, and the result is empty exactly when every entry is falsy |
| `Php.FilterTruthyCounts` | Trait/NewRelicTrait.php:232 | each string occurs in the result exactly as often as it occurs as a truthy entry: nothing is invented and no duplicate is lost |
| `Php.Implode` | Trait/NewRelicTrait.php:207 | `implode('/', ...)` at lines 207 and 237; `Php.ExplodeImplode` proves that splitting at the glue gives back the slash-free pieces, `Php.ImplodeAppendToLast` that a suffix lands on the last piece |
| `Php.ImplodeAppendToLast` | Trait/NewRelicTrait.php:237-241 | appending `.ext` to the joined name is the same as appending it to the last segment before joining |
| `Php.FilterTruthyAppend` | Trait/NewRelicTrait.php:232 | filtering distributes over concatenation, so entries keep their relative order |
| `Php.ExplodeImplode` | Trait/NewRelicTrait.php:237 | imploding slash-free segments with "/" and splitting at "/" gives back exactly those segments |
| `Naming.DeriveNameFromShell` | Trait/NewRelicTrait.php:196-208 | `_deriveNameFromShell`; its closed forms are stated by `Naming.ShellNameShape` and its segments by `Naming.ShellNameSegments` |
| `Naming.CollectRequestSegments` | Trait/NewRelicTrait.php:219-230 | the list built before filtering: prefix and plugin only when truthy, controller and action always; `Naming.FilteredRequestSegments` states what survives the filter |
| `Naming.DeriveNameFromRequest` | Trait/NewRelicTrait.php:217-244 | `_deriveNameFromRequest`; its fallback and extension cases are stated by `Naming.RequestNameCases`, `Naming.RequestFallbackIgnoresExt` and `Naming.RequestNameAllTruthy`, its segments by `Naming.RequestNameSegments` |
| `Naming.ResolveName` | Trait/NewRelicTrait.php:22-32 | a string argument is stored unchanged; a shell or request always yields a name; only null leaves the name unset |
| `Naming.ShellNameShape` | Trait/NewRelicTrait.php:196-208 | a falsy plugin gives `name/command`, a truthy one gives `plugin/name/command`; name and command appear even when empty |
| `Naming.ShellNameSegments` | Trait/NewRelicTrait.php:198-207 | the shell name splits back into the optional plugin, the shell name and the command when none holds a "/" |
| `Naming.FilteredRequestSegments` | Trait/NewRelicTrait.php:219-232 | after filtering, the segments are exactly the truthy ones among prefix, plugin, controller and action, in that order |
| `Naming.RequestNameCases` | Trait/NewRelicTrait.php:232-243 | the raw path `here` is returned exactly when all four routing fields are falsy; otherwise the joined segments, with `.ext` appended if and only if `ext` is truthy |
| `Naming.RequestFallbackIgnoresExt` | Trait/NewRelicTrait.php:233-235 | on the fallback path `here` is returned verbatim whatever the extension is |
| `Naming.RequestNameSegments` | Trait/NewRelicTrait.php:237-241 | the request name splits back into its truthy segments in order, the last one carrying the `.ext` suffix, when none holds a "/" |
| `Naming.RequestNameAllTruthy` | Trait/NewRelicTrait.php:221-243 | with all fields truthy the name is `prefix/plugin/controller/action.ext` |
| `Naming.RequestNameExampleUsersView` | Trait/NewRelicTrait.php:229-237 | controller `Users` and action `view` alone give `Users/view` |
| `Naming.RequestNameExampleZeroDropped` | Trait/NewRelicTrait.php:221-241 | an empty prefix, a plugin `"0"` and an extension `"0"` are all dropped |
| `NewRelic.NewRelicTrait.constructor` | Trait/NewRelicTrait.php:12 | the name is unset (null) before any `setName` |
| `NewRelic.NewRelicTrait.SetName` | Trait/NewRelicTrait.php:22-33 | stores the resolved name of its argument and changes nothing else |
| `NewRelic.NewRelicTrait.GetName` | Trait/NewRelicTrait.php:40-43 | returns the stored name |
| `NewRelic.NewRelicTrait.GetTransactionName` | Trait/NewRelicTrait.php:180-187 | a string argument, including `""`, is returned as given; null falls back to the stored name |
| `NewRelic.NewRelicTrait.Start` | Trait/NewRelicTrait.php:64-67 | the name handed to the client is the effective transaction name; the stored name is unchanged |
| `NewRelic.SetThenGetName` | Trait/NewRelicTrait.php:22-43 | `getName` after `setName(x)` returns `x` for a string, the shell derivation for a shell and the request derivation for a request |
| `NewRelic.StartAfterSetName` | Trait/NewRelicTrait.php:64-67 | after `setName` and `start(override)` on a fresh trait, the client has been handed exactly one name, the override if it is a string and the stored name otherwise; the stored name is unchanged |

## Left out

- The delegations to the monitoring client singleton (`applicationName`, `stop`, `ignoreTransaction`, `ignoreApdex`, `parameter`, `metric`, `captureParams`, `addTracer`, `user`, `sendException`, lines 52-171): each forwards its arguments in one call to an external client whose behaviour is not visible.
- `NewRelic.NewRelicTrait.Start`: the client call itself is not modelled. Only the name it would receive is recorded, in the ghost log `started`.
- `metric`'s floating-point value: floating point, and a pure pass-through.
- Class loading through `App::uses` (line 3) and the framework classes `Shell` and `CakeRequest`: only the fields the trait reads are modelled.
- Descriptor fields are strings or null. Other PHP types (`false`, integers, arrays) that PHP would also judge by truthiness are not modelled.
- `Naming.ResolveName`: `setName` arguments other than a string, a shell, a request or null are stored unchanged by the source. The model has no variant for them.
- `NewRelic.NewRelicTrait.GetTransactionName`: a non-string, non-null argument (an integer, say) also falls back to the stored name in the source. The model's argument is a string or null.
- `Php.Explode` splits at a single character only, the one delimiter the naming uses; PHP's `explode` itself is not called by the trait.
