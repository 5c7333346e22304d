# Request-time parameter dispatch of sinatra-swagger-exposer, in Dafny

This project models the request-time dispatch layer of sinatra-swagger-exposer
(`lib/sinatra/swagger-exposer/processing/swagger-processor-dispatcher.rb`):

- `HashForHeaders` (module `HashForHeaders`): the read-only header view. A
  logical header name is turned into its Rack environment key by
  `key_to_header_key` (prefix `HTTP_`, every `-` replaced by `_`, then
  upper-cased), and both `[]` and `key?` consult the request environment under
  that key. The environment is a `map<string, Nilable<V>>`: a header may be
  present and hold `nil`.
- `SwaggerProcessorDispatcher` (module `ProcessorDispatcher`): a
  `(how_to_pass, processor)` pair (`Dispatcher`, whose constructor is
  `initialize` and whose fields are the two `attr_reader`s), its `useful?`
  rule, and `process`. The value processors are opaque: a `Processor` carries
  its name, its `useful?` answer and its kind (array processor, processor with
  an optional ordered list of attribute processors, or another processor).
  `Process` is a pure function answering the sequence of processor calls that
  `process` makes, so which branch runs, with which arguments and in which
  order, is stated directly. `app.params` is a `map<string, Nilable<V>>`
  passed in (Rack reads `?size` as `size` holding `nil`).
- `RubyHash`: `Nilable`, a Ruby value that may be `nil`, and `Index`, a
  Ruby Hash `[]` that answers `nil` both for a missing key and for a key
  that holds `nil`.

Upper-casing is ASCII-only and `gsub(/-/, '_')` is a per-character map.

## Model

| member | source | states |
|---|---|---|
| RubyHash.Index | lib/sinatra/swagger-exposer/processing/swagger-processor-dispatcher.rb:54 | `params[name]` answers exactly what is stored under the key, which may itself be `nil`, and `nil` when the key is absent |
| HashForHeaders.Underscored | lib/sinatra/swagger-exposer/processing/swagger-processor-dispatcher.rb:28 | `gsub(/-/, '_')` keeps the length, replaces each dash by an underscore position by position, and leaves no dash |
| HashForHeaders.Upcase | lib/sinatra/swagger-exposer/processing/swagger-processor-dispatcher.rb:28 | `upcase` keeps the length, capitalises each ASCII letter position by position, and leaves no lower-case ASCII letter |
| HashForHeaders.KeyToHeaderKey | lib/sinatra/swagger-exposer/processing/swagger-processor-dispatcher.rb:26-29 | the header key is `HTTP_` followed by the name with each character mapped (dash to underscore, then upper-cased); its length is the name's plus 5; it holds no dash and no lower-case letter after the prefix |
| HashForHeaders.FoldedCharsEqualIff | lib/sinatra/swagger-exposer/processing/swagger-processor-dispatcher.rb:28 | two characters map to the same key character exactly when they are equal, both dash-or-underscore, or one ASCII letter in both cases |
| HashForHeaders.SameHeaderKeyImpliesEquivalent | lib/sinatra/swagger-exposer/processing/swagger-processor-dispatcher.rb:27-29 | names with the same header key differ only in letter case and dash versus underscore |
| HashForHeaders.EquivalentImpliesSameHeaderKey | lib/sinatra/swagger-exposer/processing/swagger-processor-dispatcher.rb:27-29 | names differing only in letter case and dash versus underscore get the same header key |
| HashForHeaders.SameHeaderKeyIff | lib/sinatra/swagger-exposer/processing/swagger-processor-dispatcher.rb:27-29 | both directions: same header key if and only if the names differ only in case and dash versus underscore |
| HashForHeaders.CanonicalNameIsOnlyPrefixed | lib/sinatra/swagger-exposer/processing/swagger-processor-dispatcher.rb:27-29 | a name with no dash and no lower-case letter is only prefixed with `HTTP_` |
| HashForHeaders.HeaderKeySuffixIsCanonical | lib/sinatra/swagger-exposer/processing/swagger-processor-dispatcher.rb:27-29 | what follows the prefix is already in Rack's spelling, and feeding it back through `key_to_header_key` rebuilds the same key |
| HashForHeaders.Lookup | lib/sinatra/swagger-exposer/processing/swagger-processor-dispatcher.rb:16-22 | `[]` and `key?` consult the same transformed key: when `key?` holds, `[]` answers exactly the environment's value under `key_to_header_key(name)` (possibly `nil`); when it does not, `[]` answers `nil` |
| HashForHeaders.EquivalentNamesLookUpAlike | lib/sinatra/swagger-exposer/processing/swagger-processor-dispatcher.rb:16-22 | names differing only in case or dash versus underscore get the same `[]` and `key?` answers |
| HashForHeaders.NonHeaderEntriesAreInvisible | lib/sinatra/swagger-exposer/processing/swagger-processor-dispatcher.rb:16-29 | an environment entry whose key does not start with `HTTP_` changes neither `[]` nor `key?` for any name |
| HashForHeaders.RackSpellingIsFound | lib/sinatra/swagger-exposer/processing/swagger-processor-dispatcher.rb:16-29 | a header stored as `HTTP_<canonical>` is found, with its value, under every name equivalent to `canonical` |
| HashForHeaders.ApiKeyHeaderExample | lib/sinatra/swagger-exposer/processing/swagger-processor-dispatcher.rb:16-29 | `X-Api-Key` reads the value stored under `HTTP_X_API_KEY` |
| ProcessorDispatcher.Useful | lib/sinatra/swagger-exposer/processing/swagger-processor-dispatcher.rb:48-50 | a path dispatcher is never useful; any other is useful exactly when its processor is |
| ProcessorDispatcher.WrapBody | lib/sinatra/swagger-exposer/processing/swagger-processor-dispatcher.rb:64 | the wrapped body has exactly one key, the processor's name, holding the parsed body |
| ProcessorDispatcher.AttributeCalls | lib/sinatra/swagger-exposer/processing/swagger-processor-dispatcher.rb:69-71 | when no call raises: one call per attribute processor, in list order, each `process_value(parsed_body, wrapped body)` |
| ProcessorDispatcher.Process | lib/sinatra/swagger-exposer/processing/swagger-processor-dispatcher.rb:53-78 | for a run in which no call raises, every call targets the dispatcher's processor or one of its attribute processors; more than one call happens only for a non-array body |
| ProcessorDispatcher.PathIsSkippedSafely | lib/sinatra/swagger-exposer/processing/swagger-processor-dispatcher.rb:48-58 | a path dispatcher is not useful and makes no call, so skipping it is unobservable |
| ProcessorDispatcher.NoCallsIff | lib/sinatra/swagger-exposer/processing/swagger-processor-dispatcher.rb:53-78 | no call is made exactly for path, an unrecognised location, or a non-array body with no attribute processors |
| ProcessorDispatcher.QueryProcessesOwnParam | lib/sinatra/swagger-exposer/processing/swagger-processor-dispatcher.rb:54-59 | a query parameter makes exactly one `process_value(params[name])`: the stored value (possibly `nil`), or `nil` when the parameter is absent |
| ProcessorDispatcher.HeaderProcessesOwnParam | lib/sinatra/swagger-exposer/processing/swagger-processor-dispatcher.rb:60-62 | a header parameter makes exactly one `process_value(value, HashForHeaders.new(value))` on its own parameter value |
| ProcessorDispatcher.FormDataProcessesOwnParamWithBody | lib/sinatra/swagger-exposer/processing/swagger-processor-dispatcher.rb:73-74 | a form-data parameter makes exactly one `process_value(params[name], parsed_body)` |
| ProcessorDispatcher.ArrayBodyOnlyValidates | lib/sinatra/swagger-exposer/processing/swagger-processor-dispatcher.rb:63-66 | an array body makes exactly one `validate_value(parsed_body)` and no `process_value` call |
| ProcessorDispatcher.ObjectBodyRunsAttributesInOrder | lib/sinatra/swagger-exposer/processing/swagger-processor-dispatcher.rb:63-71 | when no call raises, a non-array body calls each attribute processor once, in order, with the parsed body and `{name => parsed_body}`; `nil` attributes mean no call |
| ProcessorDispatcher.ReadsOnlyOwnParam | lib/sinatra/swagger-exposer/processing/swagger-processor-dispatcher.rb:54 | requests whose `params[name]` reads alike for the processor's own name (absent and `nil` included) give the same calls |
| ProcessorDispatcher.ParsedBodyUse | lib/sinatra/swagger-exposer/processing/swagger-processor-dispatcher.rb:53-78 | only body and form-data calls depend on the parsed body, and body calls depend on nothing else |

## Left out

- The value processors (`process_value`, `validate_value`, `useful?`, `attributes_processors`) are not part of this model; they appear only as the targets of recorded calls, so whether a call raises is not modelled.
- ProcessorDispatcher.Process: the trace lists the calls made when no call raises. A processor that raises stops `process` there; for a body, it also stops the `each` of lines 69-71, so later attribute processors are not called.
- ProcessorDispatcher.ObjectBodyRunsAttributesInOrder: equal arguments in the trace stand for the same Ruby object, not for unchanged contents. Line 64 builds one `{name => parsed_body}` hash, and lines 69-71 pass that hash and the same `parsed_body` to every attribute processor. The processors write their normalised values into the hash they are given, so a later call sees earlier calls' writes. Those writes are not modelled.
- The `HOW_TO_PASS_*` constants are not part of this model; they are enum cases, and any other value is `Unrecognised`.
- ProcessorDispatcher.AttributesOf: line 68 calls `attributes_processors` on every non-array body processor. A processor class without that method (`ScalarProcessor` here) would raise `NoMethodError` in Ruby. The model gives it no call, the same trace as `ObjectProcessor(Nil)`, so that error path is not modelled.
- `HeaderProcessesOwnParam`: states only that one call is made with a header view built over the parameter value. The source (line 62, marked TODO) builds `HashForHeaders` over the value rather than the app, so end-to-end header resolution through the dispatcher is not claimed.
- The Sinatra `app`, `app.params` and `request.env` are plain maps passed in; Sinatra's indifferent string/symbol keys are not modelled.
- The body hash `{ "#{name}": parsed_body }` has a Symbol key in Ruby; it is modelled with the name as a string key.
- Ruby's `upcase` outside ASCII and the regular-expression machinery of `gsub` are not modelled.
- `HashForHeaders` inherits the rest of `Hash`, which the view never fills; only `[]` and `key?` are modelled.
- `example/petstore.rb` is a demonstration application with no dispatch logic of its own.
