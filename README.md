# Scheduled-trigger compilation of serverless-offline-scheduler

This project models the part of `lib/scheduler.js` that turns a Serverless
service configuration into scheduled jobs, and it proves properties of that model.
The modelled parts are:

- how each `schedule` entry of a function becomes an `EventData` trigger
  descriptor;
- how `rate(...)` and `cron(...)` expressions compile to five-field cron
  strings;
- how `_getFuncConfigs` gathers one record per function that has schedules;
- the event and context objects a scheduled function is invoked with;
- the environment merge performed before scheduling.

The modules are:

- `values.dfy` (`Values`): the untyped configuration as a `Json` value.
  `null` and `undefined` property reads, `hasOwnProperty` and the TypeErrors
  they can raise are modelled as `Result.Throws`.
- `js_string.dfy` (`JsString`): the JavaScript string operations used.
  - `split` with one separator, empty pieces kept.
  - `replace` with a string pattern, first occurrence only.
  - `startsWith`.
- `expression.dfy` (`Expression`): `_convertRateToCron`, `_convertCronSyntax`
  (including the regular expression `/\s\S+$/`, with JavaScript's `\s`
  written out by code point) and `_convertExpressionToCron`.
- `descriptor.dfy` (`Descriptor`): the `EventData` constructor,
  `_parseScheduleObject`, `_parseScheduleExpression`, `_parseEvent` and
  `_getFuncConfigs`.
  - The loop is a `while` loop proved equal to the specification function
    `FuncConfigs`.
  - Lemmas relate that function to the functions that have schedule entries.
- `payload.dfy` (`Payload`): `_getEvent` and `_getContext`. The clock and the
  identifier generator are parameters.
- `environment.dfy` (`Environment`): `_setEnvironmentVars`. The process
  environment is a class whose `vars` map is updated in place.

Behaviours of the code that a reader may not expect; the model follows the
code:

- An expression that does not compile is not dropped. Its descriptor is kept
  with `cron = null`, because the last `.filter((s) => s)` tests the
  descriptor object and not its cron.
- An object entry compiles only its `rate` property. An object that gives its
  expression under `cron` throws, because `.replace` is called on
  `undefined`.
- No descriptor gets a `ruleName`. A schedule's `name` is ignored, even
  though the tests expect `ruleName` (tests/scheduler.test.js:53-61 and
  152-154).
- The year strip applies to any cron body of six or more space-separated
  fields, not only to one of exactly six. When the body ends in
  non-whitespace, its last whitespace character and everything after it are
  cut. When the body ends in whitespace (`1 2 3 4 5 ` splits into six
  fields), `/\s\S+$/` does not match and the body is returned unchanged.
- The event's `resources` entry is always
  `arn:aws:events:serverless-offline:123456789012:rule/my-schedule`.
- `getRemainingTimeInMillis` is not part of the context built by the code.
- `_convertExpressionToCron` removes the first `)` wherever it occurs, so a
  body that itself contains `)` is changed before it is converted: `cron(a)b)`
  compiles as the body `a` + `b` + `)` (for example `cron(1 2 ) 3 4 5)` as the
  six fields `1 2  3 4 5)`, whose last field is then cut as a year). The
  lemmas about whole expressions therefore assume a body without parentheses.

## Model

| member | source | states |
|---|---|---|
| Values.HasOwnProperty | lib/scheduler.js:177 | throws exactly on a `null`/`undefined` entry; true exactly for an object that has the property |
| Values.Lookup | lib/scheduler.js:194-196 | a property read gives `undefined` when the key is absent, else the key's value (names are distinct in any JavaScript object) |
| JsString.Split | lib/scheduler.js:123 | `split` yields at least one piece and no piece contains the separator |
| JsString.JoinSplit | lib/scheduler.js:123 | joining the pieces of a split with the separator gives back the original string |
| JsString.SplitJoin | lib/scheduler.js:147 | splitting a join of separator-free pieces gives back those pieces |
| JsString.ReplaceFirst | lib/scheduler.js:155-158 | a string without the pattern is unchanged; otherwise only the first occurrence is replaced |
| JsString.IndexOf | lib/scheduler.js:155-158 | the index found is an occurrence and no earlier index is one; none means no occurrence |
| Expression.StripTrailingField | lib/scheduler.js:151 | wherever `/\s\S+$/` matches, the result is the text before the match; without a match the string is unchanged; always a prefix |
| Expression.ConvertCronSyntax | lib/scheduler.js:145-152 | the result is a prefix of the cron body |
| Expression.ShortCronUnchanged | lib/scheduler.js:147-149 | fewer than 6 space-separated fields: returned unchanged |
| Expression.TrailingWhitespaceKept | lib/scheduler.js:151 | a cron body ending in whitespace is returned unchanged, even with six or more fields |
| Expression.YearFieldDropped | lib/scheduler.js:145-152 | 6 or more fields whose last field is non-empty and contains no whitespace: exactly that field and its space are removed, and the remaining fields split back unchanged |
| Expression.ConvertRateToCron | lib/scheduler.js:122-143 | a rate compiles exactly when it has a second space-separated token starting with `minute`, `hour` or `day` |
| Expression.RateCompiles | lib/scheduler.js:122-143 | unit starting with `minute`/`hour`/`day` gives `*/N * * * *`/`0 */N * * *`/`0 0 */N * *` with N copied verbatim; any other unit gives null |
| Expression.RateWithoutUnit | lib/scheduler.js:123-127 | a rate with no second token gives null |
| Expression.RateGivesFiveFields | lib/scheduler.js:129-139 | every compiled rate has exactly five fields, one of which is `*/` followed by the amount |
| Expression.Params | lib/scheduler.js:155-158 | the three first-occurrence removals leave an expression without parentheses unchanged (the wrapper lemmas below give the stripped cases) |
| Expression.ConvertExpressionToCron | lib/scheduler.js:154-169 | a `cron(` expression always compiles to some cron string |
| Expression.CronWrapperStripped | lib/scheduler.js:155-158 | the parameters of `cron(body)` are `body` when the body has no parentheses |
| Expression.RateWrapperStripped | lib/scheduler.js:155-158 | the parameters of `rate(body)` are `body` when the body has no parentheses |
| Expression.CronExpressionCompiles | lib/scheduler.js:160-162 | when the body has no parentheses, `cron(body)` compiles to the body with any trailing year field removed |
| Expression.RateExpressionCompiles | lib/scheduler.js:163-165 | when the body has no parentheses, `rate(body)` compiles as the rate body does |
| Expression.InnerCloseParams | lib/scheduler.js:155-158 | in `cron(a)b)` with `a` and `b` free of parentheses, the `)` after `a` is the one removed: the parameters are `a` + `b` + `)` |
| Expression.InnerCloseParenDropped | lib/scheduler.js:154-162 | `cron(a)b)` with `a` and `b` free of parentheses compiles to what the body `a` + `b` + `)` compiles to |
| Expression.UnknownPrefixRejected | lib/scheduler.js:154-169 | an expression starting with neither `cron(` nor `rate(` gives null |
| Expression.RateExpressionTemplates | tests/scheduler.test.js:64-79 | end to end, for amount and unit tokens without spaces or parentheses, `rate(N unit)` gives the minute/hour/day template or null |
| Expression.CronFiveFieldsKept | tests/scheduler.test.js:45-48 | end to end, `cron(...)` around five fields, each free of spaces and parentheses, gives those five fields |
| Expression.CronSixFieldsDropYear | tests/scheduler.test.js:49-50 | end to end, `cron(...)` around six fields, each free of spaces and parentheses and the last non-empty and free of whitespace, gives the first five |
| Descriptor.NewEventData | lib/scheduler.js:9-21 | `enabled` is true when given undefined or null, and the given value otherwise; `input` is present exactly when the given input is truthy |
| Descriptor.Construct | lib/scheduler.js:10-20 | the constructor's assign-then-overwrite steps produce the descriptor `NewEventData` specifies |
| Descriptor.ParseScheduleExpression | lib/scheduler.js:199-201 | a bare string gives an enabled descriptor without input whose cron is the compiled expression |
| Descriptor.ParseScheduleObject | lib/scheduler.js:191-197 | succeeds exactly for a non-nullish value with a string `rate`; compiles `rate` and carries its `enabled` (true when nullish) and its `input`, present exactly when truthy and then equal to the object's `input` |
| Descriptor.ParseEvent | lib/scheduler.js:203-208 | a string entry never throws; every descriptor is well formed and named after the function |
| Descriptor.OnlyRateEnabledInputRead | lib/scheduler.js:191-197 | objects agreeing on `rate`, `enabled` and `input` give the same descriptor (`name` and `cron` are ignored) |
| Descriptor.ObjectWithoutRateThrows | lib/scheduler.js:194 | an object without a string `rate` throws, even when it has `cron` |
| Descriptor.ScheduleEntries | lib/scheduler.js:177 | throws exactly when some entry is nullish; keeps every entry with a `schedule` property and only those |
| Descriptor.ScheduleEntriesSnoc | lib/scheduler.js:177 | appending an entry appends it to the kept entries exactly when it has `schedule`: the filter keeps order |
| Descriptor.ParseAll | lib/scheduler.js:178-179 | one descriptor per schedule entry, in order; throws exactly when some entry's parse throws |
| Descriptor.FunctionScheduleEvents | lib/scheduler.js:175-179 | every descriptor of a function is well formed and named after it |
| Descriptor.InvalidExpressionKept | lib/scheduler.js:176-179 | a bare-string entry whose expression does not compile keeps its place, enabled, with a null cron |
| Descriptor.ModuleName | lib/scheduler.js:184 | the module name is a dot-free prefix of the handler that ends at the handler's end or at a dot, so at its first dot; a non-string handler throws |
| Descriptor.FuncConfigs | lib/scheduler.js:171-189 | every record has at least one descriptor, each well formed and named after the record's function |
| Descriptor.GetFuncConfigs | lib/scheduler.js:171-189 | the loop returns exactly what `FuncConfigs` specifies, including the first TypeError |
| Descriptor.ThrowPersists | lib/scheduler.js:174-187 | once one function throws, the whole walk throws that error |
| Descriptor.NonEmptyIffScheduled | lib/scheduler.js:176-180 | a function yields descriptors exactly when it has an entry with a `schedule` property |
| Descriptor.FuncConfigsIds | lib/scheduler.js:171-189 | the records are the functions with a schedule entry, in iteration order, and no others |
| Payload.StageVariables | lib/scheduler.js:102-103 | a falsy `custom` is passed on; a truthy one gives its `stageVariables` property or undefined |
| Payload.DefaultEvent | lib/scheduler.js:90-104 | the default event is an object with exactly the ten property names of the literal, in order |
| Payload.GetEvent | lib/scheduler.js:85-105 | a truthy input is returned verbatim; otherwise a ten-property event carrying this firing's time, id and stage variables |
| Payload.EventKeysDistinct | lib/scheduler.js:90-104 | the default event names no property twice |
| Payload.DefaultEventStamp | lib/scheduler.js:96-97 | reading `time` and `id` gives this firing's timestamp and identifier |
| Payload.DefaultEventSentinels | lib/scheduler.js:95-101 | `source` is `aws.events` and `isOffline` is true |
| Payload.FiringsDifferInTimeAndId | lib/scheduler.js:90-104 | two default events differ only in `time` and `id` |
| Payload.LookupAt | lib/scheduler.js:90-104 | with distinct names, reading a property gives its own value |
| Payload.GetContext | lib/scheduler.js:107-120 | the context keeps the function name and both identifiers; the log group and ARN start with their fixed prefixes |
| Payload.FunctionOfArn | lib/scheduler.js:118 | inverse of the ARN template: defined exactly on ARNs with the prefix, and prefix plus name gives the ARN back |
| Payload.FunctionOfLogGroup | lib/scheduler.js:111 | inverse of the log-group template, in the same sense |
| Payload.ContextNamesFunction | lib/scheduler.js:107-120 | the context's ARN and log group both name the function it was built for |
| Payload.ContextIgnoresIds | lib/scheduler.js:107-120 | two contexts of one function differ only in `awsRequestId` and `invokeid` |
| Environment.OrEmpty | lib/scheduler.js:79-80 | a missing environment contributes nothing |
| Environment.Overlay | lib/scheduler.js:82 | `Object.assign`: the names are the union; the source's value wins; other names keep their value |
| Environment.Merged | lib/scheduler.js:79-82 | the merged environment holds the previous, provider and function names and no others; every function name holds the function's value |
| Environment.Precedence | lib/scheduler.js:78-83 | a function value beats a provider value, which beats the previous value; no other name appears |
| Environment.MergedIdempotent | lib/scheduler.js:38-43 | setting one function's variables again, once per trigger, leaves the environment as it was |
| Environment.EarlierFunctionLeaks | lib/scheduler.js:38-43 | a variable of a function scheduled earlier remains set when the next function is set up, unless that function or the provider names it |
| Environment.ProcessEnv.SetEnvironmentVars | lib/scheduler.js:78-83 | the process environment becomes the previous one overlaid by the provider's and then the function's variables |

## Left out

- `run` (lib/scheduler.js:31-62) is not modelled: job registration through
  `node-schedule`, timers and concurrency, and the `location` set from the
  plugin lookup. In particular, `run` schedules disabled descriptors too.
- `_requireFunction` (lib/scheduler.js:64-76) is not modelled. It is
  filesystem access and a dynamic `require`.
- Logging through `serverless.cli.log` is not modelled.
- `utils.guid` and `new Date().toISOString()` are parameters of `GetEvent`
  and `GetContext`, and are not constrained.
- `getRemainingTimeInMillis` and `ruleName` are not modelled. The code does
  not produce them.
- The context is a record of its fields, not a JSON object.
- Numbers are integers: JavaScript's floating-point numbers, `NaN` and
  `-0` only matter here through truthiness.
- Descriptor.GetFuncConfigs: the functions are given in `for...in` iteration
  order. JavaScript's rule that integer-like keys come first is not modelled.
- Environment.Overlay: environment values are strings. The string coercion
  `process.env` applies to other values is not modelled.
- Environment.OrEmpty: a truthy environment that is not an object (a string
  or an array copied index by index) is not modelled.
- Environment.ProcessEnv.SetEnvironmentVars: the function's configuration
  is assumed to exist, as it does for every function `run` schedules. A
  missing one would throw.
- A configuration object that carries its own `hasOwnProperty`, `filter`,
  `replace` or `split` property is not modelled (such an entry can make
  `e.hasOwnProperty("schedule")` throw where the model answers). Nor is a prototype chain.
- `EventData` descriptors are immutable values. Nothing updates a
  descriptor after the constructor has run, so aliasing is not modelled.
