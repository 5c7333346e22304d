/** `SwaggerProcessorDispatcher`: binds one declared parameter's location
    ("how to pass") to its value processor, and at request time decides which
    processor operation runs and with which arguments. The value processors
    themselves are opaque here; `Process` answers the sequence of processor
    calls the dispatcher makes, in order. */
module ProcessorDispatcher {
  import opened RubyHash

  /** Where a parameter arrives in the request (the `HOW_TO_PASS_*` constants).
      Any other value falls into the `else` branch of `process`. */
  datatype HowToPass =
    | Path
    | Query
    | Header
    | Body
    | FormData
    | Unrecognised(tag: string)

  /** A value processor, seen from the dispatcher: its name, its `useful?`
      answer, and what kind of processor it is. */
  datatype Processor = Processor(name: string, useful: bool, kind: ProcessorKind)

  /** An array processor (`SwaggerArrayValueProcessor`), a processor exposing
      `attributes_processors` (possibly `nil`), or any other processor. */
  datatype ProcessorKind =
    | ArrayProcessor
    | ObjectProcessor(attributes: Nilable<seq<Processor>>)
    | ScalarProcessor

  /** The attribute processors a non-array body processor iterates over;
      `nil`, and a processor without attributes, give none. */
  function AttributesOf(p: Processor): seq<Processor> {
    match p.kind
    case ObjectProcessor(Present(attrs)) => attrs
    case ObjectProcessor(Nil) => []
    case _ => []
  }

  /** The second argument handed to `process_value`. */
  datatype Context<V> =
    /** `HashForHeaders.new(value)`: a header view built over the parameter value. */
    | HeadersOver(source: Nilable<V>)
    /** The parsed request body, as passed for form data. */
    | ParsedBody(body: Nilable<V>)
    /** `{ name => parsed_body }`: the body wrapped under the processor's name. */
    | NamedBody(wrapped: map<string, Nilable<V>>)

  /** One call the dispatcher makes on a processor. */
  datatype Call<V> =
    /** `target.process_value(value)` */
    | ProcessValue(target: Processor, value: Nilable<V>)
    /** `target.process_value(value, context)` */
    | ProcessValueIn(target: Processor, value: Nilable<V>, context: Context<V>)
    /** `target.validate_value(value)` */
    | ValidateValue(target: Processor, value: Nilable<V>)
  {
    function Target(): Processor {
      match this
      case ProcessValue(t, _) => t
      case ProcessValueIn(t, _, _) => t
      case ValidateValue(t, _) => t
    }
  }

  /** `initialize(how_to_pass, processor)`; both are read back through the fields. */
  datatype Dispatcher = Dispatcher(howToPass: HowToPass, processor: Processor)

  /** `useful?`: path parameters are never worth dispatching, other
      parameters are exactly when their processor is. */
  function Useful(d: Dispatcher): (u: bool)
    ensures d.howToPass.Path? ==> !u
    ensures !d.howToPass.Path? ==> u == d.processor.useful
  {
    d.howToPass != Path && d.processor.useful
  }

  /** `{ "#{name}": parsed_body }`: a one-entry hash holding the body under
      the processor's name. */
  function WrapBody<V>(name: string, body: Nilable<V>): (m: map<string, Nilable<V>>)
    ensures m.Keys == {name}
    ensures m[name] == body
  {
    map[name := body]
  }

  /** The `each` over `attributes_processors`: every attribute processor is
      given the body and the wrapped body, once each, in list order. */
  function AttributeCalls<V>(attrs: seq<Processor>, body: Nilable<V>, wrapped: map<string, Nilable<V>>)
    : (t: seq<Call<V>>)
    ensures |t| == |attrs|
    ensures forall i :: 0 <= i < |attrs| ==> t[i] == ProcessValueIn(attrs[i], body, NamedBody(wrapped))
  {
    if attrs == [] then []
    else [ProcessValueIn(attrs[0], body, NamedBody(wrapped))] + AttributeCalls(attrs[1..], body, wrapped)
  }

  /** `process(app, parsed_body)`: the processor calls made for one request,
      where `params` stands for `app.params`. Every call targets the
      dispatcher's own processor or one of its attribute processors, and only
      a non-array body can make more than one call. */
  function Process<V>(d: Dispatcher, params: map<string, Nilable<V>>, parsedBody: Nilable<V>): (t: seq<Call<V>>)
    ensures forall i :: 0 <= i < |t| ==>
              t[i].Target() == d.processor || t[i].Target() in AttributesOf(d.processor)
    ensures |t| > 1 ==> d.howToPass.Body? && !d.processor.kind.ArrayProcessor?
  {
    var value := Index(params, d.processor.name);
    match d.howToPass
    case Path => []
    case Query => [ProcessValue(d.processor, value)]
    case Header => [ProcessValueIn(d.processor, value, HeadersOver(value))]
    case Body =>
      if d.processor.kind.ArrayProcessor? then
        [ValidateValue(d.processor, parsedBody)]
      else
        AttributeCalls(AttributesOf(d.processor), parsedBody, WrapBody(d.processor.name, parsedBody))
    case FormData => [ProcessValueIn(d.processor, value, ParsedBody(parsedBody))]
    case Unrecognised(_) => []
  }

  /** A path parameter is never useful and its dispatch makes no processor
      call, so skipping it changes nothing. */
  lemma PathIsSkippedSafely<V>(d: Dispatcher, params: map<string, Nilable<V>>, parsedBody: Nilable<V>)
    requires d.howToPass.Path?
    ensures !Useful(d)
    ensures Process(d, params, parsedBody) == []
  {
  }

  /** The dispatcher makes no call at all exactly for a path parameter, an
      unrecognised location, or a non-array body without attribute processors. */
  lemma NoCallsIff<V>(d: Dispatcher, params: map<string, Nilable<V>>, parsedBody: Nilable<V>)
    ensures Process(d, params, parsedBody) == [] <==>
              || d.howToPass.Path?
              || d.howToPass.Unrecognised?
              || (d.howToPass.Body? && !d.processor.kind.ArrayProcessor? && AttributesOf(d.processor) == [])
  {
  }

  /** A query parameter: one `process_value` on the parameter's own value
      (`nil` when the request does not carry it). */
  lemma QueryProcessesOwnParam<V>(d: Dispatcher, params: map<string, Nilable<V>>, parsedBody: Nilable<V>)
    requires d.howToPass.Query?
    ensures var t := Process(d, params, parsedBody);
            && |t| == 1
            && t[0].ProcessValue?
            && t[0].target == d.processor
            && (d.processor.name in params ==> t[0].value == params[d.processor.name])
            && (d.processor.name !in params ==> t[0].value == Nil)
  {
  }

  /** A form-data parameter: one `process_value` on the parameter's own
      value, with the parsed body as second argument. */
  lemma FormDataProcessesOwnParamWithBody<V>(d: Dispatcher, params: map<string, Nilable<V>>, parsedBody: Nilable<V>)
    requires d.howToPass.FormData?
    ensures var t := Process(d, params, parsedBody);
            && |t| == 1
            && t[0].ProcessValueIn?
            && t[0].target == d.processor
            && t[0].value == Index(params, d.processor.name)
            && t[0].context == ParsedBody(parsedBody)
  {
  }

  /** A header parameter: one `process_value` on the parameter's own value,
      with a header view built over that same value. */
  lemma HeaderProcessesOwnParam<V>(d: Dispatcher, params: map<string, Nilable<V>>, parsedBody: Nilable<V>)
    requires d.howToPass.Header?
    ensures var t := Process(d, params, parsedBody);
            && |t| == 1
            && t[0].ProcessValueIn?
            && t[0].target == d.processor
            && t[0].value == Index(params, d.processor.name)
            && t[0].context == HeadersOver(t[0].value)
  {
  }

  /** An array body: the processor validates the whole parsed body, once,
      and no attribute processor runs. */
  lemma ArrayBodyOnlyValidates<V>(d: Dispatcher, params: map<string, Nilable<V>>, parsedBody: Nilable<V>)
    requires d.howToPass.Body? && d.processor.kind.ArrayProcessor?
    ensures Process(d, params, parsedBody) == [ValidateValue(d.processor, parsedBody)]
    ensures forall c :: c in Process(d, params, parsedBody) ==> !c.ProcessValueIn? && !c.ProcessValue?
  {
  }

  /** A non-array body: each attribute processor runs once, in list order,
      on the parsed body and the body wrapped under the processor's name;
      `nil` attributes mean no call. */
  lemma ObjectBodyRunsAttributesInOrder<V>(d: Dispatcher, params: map<string, Nilable<V>>, parsedBody: Nilable<V>)
    requires d.howToPass.Body? && !d.processor.kind.ArrayProcessor?
    ensures var t := Process(d, params, parsedBody);
            var attrs := AttributesOf(d.processor);
            && |t| == |attrs|
            && (forall i :: 0 <= i < |t| ==>
                  && t[i].ProcessValueIn?
                  && t[i].target == attrs[i]
                  && t[i].value == parsedBody
                  && t[i].context.NamedBody?
                  && t[i].context.wrapped.Keys == {d.processor.name}
                  && t[i].context.wrapped[d.processor.name] == parsedBody)
    ensures d.processor.kind.ObjectProcessor? && d.processor.kind.attributes.Nil? ==>
              Process(d, params, parsedBody) == []
  {
    var w := WrapBody(d.processor.name, parsedBody);
    assert Process(d, params, parsedBody) == AttributeCalls(AttributesOf(d.processor), parsedBody, w);
  }

  /** Of the request parameters, the dispatcher reads only its processor's
      own, through `params[name]`: requests that read alike there (a missing
      entry and one holding `nil` included) give the same calls. */
  lemma ReadsOnlyOwnParam<V>(d: Dispatcher, p1: map<string, Nilable<V>>, p2: map<string, Nilable<V>>, parsedBody: Nilable<V>)
    requires Index(p1, d.processor.name) == Index(p2, d.processor.name)
    ensures Process(d, p1, parsedBody) == Process(d, p2, parsedBody)
  {
  }

  /** Only body and form-data parameters look at the parsed body, and a body
      parameter looks at nothing else. */
  lemma ParsedBodyUse<V>(d: Dispatcher, p1: map<string, Nilable<V>>, p2: map<string, Nilable<V>>, b1: Nilable<V>, b2: Nilable<V>)
    ensures !d.howToPass.Body? && !d.howToPass.FormData? ==>
              Process(d, p1, b1) == Process(d, p1, b2)
    ensures d.howToPass.Body? ==>
              Process(d, p1, b1) == Process(d, p2, b1)
  {
  }
}
