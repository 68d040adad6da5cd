/** Capturing the trigger and invocation spans of an invocation among its function spans, and emitting them
    when the runtime is done (src/telemetry/processor/span_processor.rs). */
module SpanCapture {
  import opened Sequences
  import opened Telemetry

  const LANGUAGE_ATTRIBUTE := "telemetry.sdk.language"
  const FAAS_TRIGGER_ATTRIBUTE := "faas.trigger"
  const SPAN_ROLE_ATTRIBUTE := "cx.internal.span.role"
  const SPAN_STATE_ATTRIBUTE := "cx.internal.span.state"
  const SPAN_ID_ATTRIBUTE := "cx.internal.span.id"
  const TRACE_ID_ATTRIBUTE := "cx.internal.trace.id"

  datatype Category =
    | CxEarlyTrigger
    | CxEarlyInvocation
    | CxTrigger
    | CxInvocation
    | GenericInvocation
    | CxWarmup
    | Other
  {
    predicate Capturable() {
      !CxWarmup? && !Other?
    }
  }

  // ---------------------------------------------------------------------------
  // Cleaning and categorizing a span.

  /** `get_string_value` */
  function StringValue(a: KeyValue): Option<string> {
    match a.value
    case Some(Text(s)) => Some(s)
    case _ => None
  }

  function HexDigit(c: char): (d: Option<nat>)
    ensures d.Some? ==> d.value < 16
  {
    if '0' <= c <= '9' then Some(c as int - '0' as int)
    else if 'a' <= c <= 'f' then Some(c as int - 'a' as int + 10)
    else if 'A' <= c <= 'F' then Some(c as int - 'A' as int + 10)
    else None
  }

  /** `hex::decode` */
  function HexDecode(s: string): Option<Bytes> {
    if s == [] then Some([])
    else if |s| == 1 then None
    else
      var hi, lo, rest := HexDigit(s[0]), HexDigit(s[1]), HexDecode(s[2..]);
      if hi.Some? && lo.Some? && rest.Some? then Some([hi.value * 16 + lo.value] + rest.value) else None
  }

  /** What the attributes of a span say, and those that are kept. A later attribute overrides an earlier one. */
  datatype Scan = Scan(role: Option<string>, early: bool, spanId: Option<string>, traceId: Option<string>,
                       faasTrigger: bool, kept: seq<KeyValue>)

  const NOTHING_SCANNED := Scan(None, false, None, None, false, [])

  function ScanNext(s: Scan, a: KeyValue): Scan {
    if a.key == SPAN_ROLE_ATTRIBUTE then s.(role := StringValue(a))
    else if a.key == SPAN_STATE_ATTRIBUTE then s.(early := s.early || StringValue(a) == Some("early"))
    else if a.key == SPAN_ID_ATTRIBUTE then s.(spanId := StringValue(a))
    else if a.key == TRACE_ID_ATTRIBUTE then s.(traceId := StringValue(a))
    else s.(faasTrigger := s.faasTrigger || a.key == FAAS_TRIGGER_ATTRIBUTE, kept := s.kept + [a])
  }

  function ScanAll(attributes: seq<KeyValue>): Scan {
    if attributes == [] then NOTHING_SCANNED
    else ScanNext(ScanAll(attributes[..|attributes| - 1]), Last(attributes))
  }

  function CategoryOf(s: Scan, kind: SpanKind): Category {
    match s.role
    case Some(role) =>
      if role == "trigger" then (if s.early then CxEarlyTrigger else CxTrigger)
      else if role == "invocation" then (if s.early then CxEarlyInvocation else CxInvocation)
      else if role == "warmup" then CxWarmup
      else Other
    case None =>
      if (kind.Server? || kind.Consumer?) && !s.faasTrigger then GenericInvocation else Other
  }

  /** An id given by an attribute of an early span, if it decodes, or else the span's own. */
  function OverriddenId(s: Scan, given: Option<string>, own: Bytes): Bytes {
    if s.role.Some? && s.early && given.Some? && HexDecode(given.value).Some? then HexDecode(given.value).value else own
  }

  function Categorize(span: Span): Category {
    CategoryOf(ScanAll(span.attributes), span.kind)
  }

  /** `excludes` are the attribute keys that the configuration filters out. */
  function Clean(span: Span, excludes: string -> bool): Span {
    var s := ScanAll(span.attributes);
    span.(spanId := OverriddenId(s, s.spanId, span.spanId),
          traceId := OverriddenId(s, s.traceId, span.traceId),
          attributes := Filtered(s.kept, excludes))
  }

  function Filtered(attributes: seq<KeyValue>, excludes: string -> bool): seq<KeyValue> {
    if attributes == [] then []
    else Filtered(attributes[..|attributes| - 1], excludes)
         + if excludes(Last(attributes).key) then [] else [Last(attributes)]
  }

  /** `process_and_categorize_span` and `filter_span_attributes`, in one pass over the attributes each. */
  method ProcessAndCategorize(span: Span, excludes: string -> bool) returns (cleaned: Span, category: Category)
    ensures cleaned == Clean(span, excludes) && category == Categorize(span)
  {
    var s := NOTHING_SCANNED;
    for i := 0 to |span.attributes|
      invariant s == ScanAll(span.attributes[..i])
    {
      assert span.attributes[..i + 1][..i] == span.attributes[..i];
      s := ScanNext(s, span.attributes[i]);
    }
    assert span.attributes[..|span.attributes|] == span.attributes;
    category := CategoryOf(s, span.kind);
    var kept := [];
    for i := 0 to |s.kept|
      invariant kept == Filtered(s.kept[..i], excludes)
    {
      assert s.kept[..i + 1][..i] == s.kept[..i];
      kept := kept + if excludes(s.kept[i].key) then [] else [s.kept[i]];
    }
    assert s.kept[..|s.kept|] == s.kept;
    cleaned := span.(spanId := OverriddenId(s, s.spanId, span.spanId),
                     traceId := OverriddenId(s, s.traceId, span.traceId),
                     attributes := kept);
  }

  predicate IsInternal(key: string) {
    key == SPAN_ROLE_ATTRIBUTE || key == SPAN_STATE_ATTRIBUTE || key == SPAN_ID_ATTRIBUTE || key == TRACE_ID_ATTRIBUTE
  }

  /** The value of the last attribute with the given key. */
  function FindLast(attributes: seq<KeyValue>, key: string): Option<AttributeValue> {
    if attributes == [] then None
    else if Last(attributes).key == key then Last(attributes).value
    else FindLast(attributes[..|attributes| - 1], key)
  }

  function LastString(attributes: seq<KeyValue>, key: string): Option<string> {
    match FindLast(attributes, key)
    case Some(Text(s)) => Some(s)
    case _ => None
  }

  lemma KeysDiffer()
    ensures SPAN_ROLE_ATTRIBUTE != SPAN_STATE_ATTRIBUTE && SPAN_ROLE_ATTRIBUTE != SPAN_ID_ATTRIBUTE
    ensures SPAN_ROLE_ATTRIBUTE != TRACE_ID_ATTRIBUTE && SPAN_STATE_ATTRIBUTE != SPAN_ID_ATTRIBUTE
    ensures SPAN_STATE_ATTRIBUTE != TRACE_ID_ATTRIBUTE && SPAN_ID_ATTRIBUTE != TRACE_ID_ATTRIBUTE
  {
    assert |SPAN_ROLE_ATTRIBUTE| == 21 && |SPAN_STATE_ATTRIBUTE| == 22;
    assert |SPAN_ID_ATTRIBUTE| == 19 && |TRACE_ID_ATTRIBUTE| == 20;
  }

  lemma LastStringNext(front: seq<KeyValue>, x: KeyValue, key: string)
    ensures LastString(front + [x], key) == if x.key == key then StringValue(x) else LastString(front, key)
  {
    assert (front + [x])[..|front|] == front;
  }

  /** The last word of an internal attribute counts. */
  lemma {:induction false} ScannedStrings(attributes: seq<KeyValue>)
    ensures ScanAll(attributes).role == LastString(attributes, SPAN_ROLE_ATTRIBUTE)
    ensures ScanAll(attributes).spanId == LastString(attributes, SPAN_ID_ATTRIBUTE)
    ensures ScanAll(attributes).traceId == LastString(attributes, TRACE_ID_ATTRIBUTE)
  {
    if attributes != [] {
      var front, x := attributes[..|attributes| - 1], Last(attributes);
      assert attributes == front + [x];
      ScannedStrings(front);
      KeysDiffer();
      LastStringNext(front, x, SPAN_ROLE_ATTRIBUTE);
      LastStringNext(front, x, SPAN_ID_ATTRIBUTE);
      LastStringNext(front, x, TRACE_ID_ATTRIBUTE);
    }
  }

  ghost predicate SomeAttribute(attributes: seq<KeyValue>, p: KeyValue -> bool) {
    exists i :: 0 <= i < |attributes| && p(attributes[i])
  }

  /** But a single "early" suffices. */
  lemma {:induction false} ScannedFlags(attributes: seq<KeyValue>)
    ensures var s := ScanAll(attributes);
            && (s.early <==>
                  SomeAttribute(attributes, (a: KeyValue) =>
                                  a.key == SPAN_STATE_ATTRIBUTE && StringValue(a) == Some("early")))
            && (s.faasTrigger <==> SomeAttribute(attributes, (a: KeyValue) => a.key == FAAS_TRIGGER_ATTRIBUTE))
  {
    if attributes != [] {
      var front := attributes[..|attributes| - 1];
      ScannedFlags(front);
      assert forall i :: 0 <= i < |attributes| ==> i == |front| || attributes[i] == front[i];
    }
  }

  lemma {:induction false} ScannedRest(attributes: seq<KeyValue>, internal: string -> bool)
    requires forall k :: internal(k) <==> IsInternal(k)
    ensures ScanAll(attributes).kept == Filtered(attributes, internal)
  {
    if attributes != [] {
      ScannedRest(attributes[..|attributes| - 1], internal);
    }
  }

  lemma {:induction false} FilteredTwice(attributes: seq<KeyValue>, p: string -> bool, q: string -> bool,
                                         r: string -> bool)
    requires forall k :: r(k) <==> p(k) || q(k)
    ensures Filtered(Filtered(attributes, p), q) == Filtered(attributes, r)
  {
    if attributes != [] {
      var front, x := attributes[..|attributes| - 1], Last(attributes);
      FilteredTwice(front, p, q, r);
      var kept := Filtered(front, p);
      assert (kept + [x])[..|kept|] == kept;
      assert kept + [] == kept;
    }
  }

  /** What is left of the attributes, in order: neither internal nor excluded by the configuration. */
  lemma CleanedAttributes(span: Span, excludes: string -> bool, dropped: string -> bool)
    requires forall k :: dropped(k) <==> IsInternal(k) || excludes(k)
    ensures Clean(span, excludes).attributes == Filtered(span.attributes, dropped)
  {
    ScannedRest(span.attributes, key => IsInternal(key));
    FilteredTwice(span.attributes, key => IsInternal(key), excludes, dropped);
  }

  // ---------------------------------------------------------------------------
  // The slots.

  datatype SpanWithScope = SpanWithScope(span: Span, scope: Option<Scope>) {
    function IntoScopeSpans(): ScopeSpans {
      ScopeSpans(scope, [span])
    }
  }

  /** `InvocationTracingState` */
  datatype TracingState = TracingState(
    shouldProduceSpans: bool,
    processedFunctionSpans: nat,
    language: Option<AttributeValue>,
    cxEarlyTrigger: Option<SpanWithScope>,
    cxTrigger: Option<SpanWithScope>,
    cxEarlyInvocation: Option<SpanWithScope>,
    cxInvocation: Option<SpanWithScope>,
    genericInvocation: Option<SpanWithScope>)
  {
    function Slot(c: Category): Option<SpanWithScope> {
      match c
      case CxEarlyTrigger => cxEarlyTrigger
      case CxTrigger => cxTrigger
      case CxEarlyInvocation => cxEarlyInvocation
      case CxInvocation => cxInvocation
      case GenericInvocation => genericInvocation
      case _ => None
    }

    function WithSlot(c: Category, s: SpanWithScope): (r: TracingState)
      ensures forall d :: r.Slot(d) == if d == c && c.Capturable() then Some(s) else Slot(d)
      ensures r == this.(cxEarlyTrigger := r.cxEarlyTrigger, cxTrigger := r.cxTrigger,
                         cxEarlyInvocation := r.cxEarlyInvocation, cxInvocation := r.cxInvocation,
                         genericInvocation := r.genericInvocation)
    {
      match c
      case CxEarlyTrigger => this.(cxEarlyTrigger := Some(s))
      case CxTrigger => this.(cxTrigger := Some(s))
      case CxEarlyInvocation => this.(cxEarlyInvocation := Some(s))
      case CxInvocation => this.(cxInvocation := Some(s))
      case GenericInvocation => this.(genericInvocation := Some(s))
      case _ => this
    }

    /** `invocation_span` */
    function InvocationSpan(): Option<Span> {
      if cxInvocation.Some? then Some(cxInvocation.value.span)
      else if cxEarlyInvocation.Some? then Some(cxEarlyInvocation.value.span)
      else if genericInvocation.Some? then Some(genericInvocation.value.span)
      else None
    }
  }

  function NewTracingState(shouldProduceSpans: bool): TracingState {
    TracingState(shouldProduceSpans, 0, None, None, None, None, None, None)
  }

  // ---------------------------------------------------------------------------
  // Spans in their scopes.

  /** A span with the scope it came in. */
  datatype Scoped = Scoped(span: Span, scope: Option<Scope>)

  function InScope(ss: ScopeSpans): seq<Scoped> {
    seq(|ss.spans|, i requires 0 <= i < |ss.spans| => Scoped(ss.spans[i], ss.scope))
  }

  function InScopes(sss: seq<ScopeSpans>): seq<Scoped> {
    if sss == [] then [] else InScopes(sss[..|sss| - 1]) + InScope(Last(sss))
  }

  function AllSpans(rs: seq<ResourceSpans>): seq<Scoped> {
    if rs == [] then [] else AllSpans(rs[..|rs| - 1]) + InScopes(Last(rs).scopeSpans)
  }

  lemma InScopesNext(sss: seq<ScopeSpans>, ss: ScopeSpans)
    ensures InScopes(sss + [ss]) == InScopes(sss) + InScope(ss) && |InScope(ss)| == |ss.spans|
  {
    assert (sss + [ss])[..|sss|] == sss;
  }

  lemma AllSpansNext(rs: seq<ResourceSpans>, r: ResourceSpans)
    ensures AllSpans(rs + [r]) == AllSpans(rs) + InScopes(r.scopeSpans)
  {
    assert (rs + [r])[..|rs|] == rs;
  }

  lemma InScopesUpTo(sss: seq<ScopeSpans>, i: nat)
    requires i < |sss|
    ensures InScopes(sss[..i + 1]) == InScopes(sss[..i]) + InScope(sss[i])
  {
    assert sss[..i + 1][..i] == sss[..i];
  }

  lemma AllSpansUpTo(rs: seq<ResourceSpans>, i: nat)
    requires i < |rs|
    ensures AllSpans(rs[..i + 1]) == AllSpans(rs[..i]) + InScopes(rs[i].scopeSpans)
  {
    assert rs[..i + 1][..i] == rs[..i];
  }

  // ---------------------------------------------------------------------------
  // Capturing, span by span.

  function CaptureNext(t: TracingState, x: Scoped, excludes: string -> bool): TracingState {
    var c := Categorize(x.span);
    if c.Capturable() && t.Slot(c).None? then t.WithSlot(c, SpanWithScope(Clean(x.span, excludes), x.scope)) else t
  }

  /** What is passed on: everything but captured spans and warmup spans. */
  function ForwardNext(t: TracingState, x: Scoped, excludes: string -> bool): seq<Scoped> {
    var c := Categorize(x.span);
    if c.CxWarmup? || (c.Capturable() && t.Slot(c).None?) then []
    else [x.(span := Clean(x.span, excludes))]
  }

  function CaptureAll(t: TracingState, xs: seq<Scoped>, excludes: string -> bool): TracingState {
    if xs == [] then t else CaptureNext(CaptureAll(t, xs[..|xs| - 1], excludes), Last(xs), excludes)
  }

  function ForwardAll(t: TracingState, xs: seq<Scoped>, excludes: string -> bool): seq<Scoped> {
    if xs == [] then []
    else
      var front := xs[..|xs| - 1];
      ForwardAll(t, front, excludes) + ForwardNext(CaptureAll(t, front, excludes), Last(xs), excludes)
  }

  lemma {:induction false} CaptureAppend(t: TracingState, a: seq<Scoped>, b: seq<Scoped>, excludes: string -> bool)
    ensures CaptureAll(t, a + b, excludes) == CaptureAll(CaptureAll(t, a, excludes), b, excludes)
    ensures ForwardAll(t, a + b, excludes)
         == ForwardAll(t, a, excludes) + ForwardAll(CaptureAll(t, a, excludes), b, excludes)
  {
    if b == [] {
      assert a + b == a;
    } else {
      assert (a + b)[..|a + b| - 1] == a + b[..|b| - 1];
      CaptureAppend(t, a, b[..|b| - 1], excludes);
    }
  }

  /** The count of processed spans plays no part. */
  lemma {:induction false} CaptureIgnoresCount(t: TracingState, n: nat, xs: seq<Scoped>, excludes: string -> bool)
    ensures CaptureAll(t.(processedFunctionSpans := n), xs, excludes)
         == CaptureAll(t, xs, excludes).(processedFunctionSpans := n)
    ensures ForwardAll(t.(processedFunctionSpans := n), xs, excludes) == ForwardAll(t, xs, excludes)
  {
    if xs != [] {
      CaptureIgnoresCount(t, n, xs[..|xs| - 1], excludes);
    }
  }

  // ---------------------------------------------------------------------------
  // The language of the function.

  function FindAttribute(attributes: seq<KeyValue>, key: string): Option<AttributeValue> {
    if attributes == [] then None
    else if attributes[0].key == key then attributes[0].value
    else FindAttribute(attributes[1..], key)
  }

  function LanguageOf(rs: seq<ResourceSpans>): Option<AttributeValue> {
    if rs == [] then None
    else
      var l := FindAttribute(rs[0].attributes, LANGUAGE_ATTRIBUTE);
      if l.Some? then l else LanguageOf(rs[1..])
  }

  function LanguageAfter(t: TracingState, rs: seq<ResourceSpans>): Option<AttributeValue> {
    if t.language.Some? then t.language else LanguageOf(rs)
  }

  /** The state after a batch of spans. */
  function AfterSpans(t: TracingState, rs: seq<ResourceSpans>, excludes: string -> bool): TracingState {
    CaptureAll(t, AllSpans(rs), excludes)
      .(processedFunctionSpans := t.processedFunctionSpans + |AllSpans(rs)|, language := LanguageAfter(t, rs))
  }

  // ---------------------------------------------------------------------------
  // What goes out when the runtime is done.

  datatype RuntimeDone = RuntimeDone(time: int, status: Status, errorType: Option<string>)

  /** `translate_status` */
  function TranslateStatus(status: Status, errorType: Option<string>): SpanStatus {
    match status
    case Success => SpanStatus("OK", StatusCode.Ok)
    case Timeout => SpanStatus(if errorType.Some? then errorType.value else "timeout", ErrorCode)
    case Error => SpanStatus(if errorType.Some? then errorType.value else "error", ErrorCode)
    case Failure => SpanStatus(if errorType.Some? then errorType.value else "failure", ErrorCode)
  }

  /** `conclude_early_span_with_runtime_status`; the time is cast to 64 bits. */
  function Conclude(span: Span, done: RuntimeDone): Span {
    span.(status := Some(TranslateStatus(done.status, done.errorType)), endTime := done.time % 0x1_0000_0000_0000_0000)
  }

  /** `add_language_attribute_to_span` */
  function AddLanguage(span: Span, language: Option<AttributeValue>): Span {
    if language.None? then span else span.(attributes := span.attributes + [KeyValue(LANGUAGE_ATTRIBUTE, language)])
  }

  function EmitSlot(s: Option<SpanWithScope>, f: Span -> Span): seq<Scoped> {
    if s.None? then [] else [Scoped(f(s.value.span), s.value.scope)]
  }

  function TriggerSpan(t: TracingState, done: RuntimeDone): seq<Scoped> {
    if t.cxTrigger.Some? then EmitSlot(t.cxTrigger, x => x)
    else EmitSlot(t.cxEarlyTrigger, x => Conclude(x, done))
  }

  function InvocationSpanOut(t: TracingState, done: RuntimeDone): seq<Scoped> {
    if t.cxInvocation.Some? then EmitSlot(t.cxInvocation, x => AddLanguage(x, t.language))
    else if t.cxEarlyInvocation.Some? then
      EmitSlot(t.cxEarlyInvocation, x => AddLanguage(Conclude(x, done), t.language))
    else EmitSlot(t.genericInvocation, x => AddLanguage(x, t.language))
  }

  /** A generic invocation span besides the real one is an ordinary span. */
  function GenericLeftOver(t: TracingState): seq<Scoped> {
    if t.cxInvocation.Some? || t.cxEarlyInvocation.Some? then EmitSlot(t.genericInvocation, x => x) else []
  }

  function SpecialSpans(t: TracingState, done: RuntimeDone): seq<Scoped> {
    TriggerSpan(t, done) + InvocationSpanOut(t, done) + GenericLeftOver(t)
  }

  /** Each span in a scope of its own. */
  function ToScopeSpans(xs: seq<Scoped>): seq<ScopeSpans> {
    seq(|xs|, i requires 0 <= i < |xs| => ScopeSpans(xs[i].scope, [xs[i].span]))
  }

  lemma {:induction false} CaptureIgnoresLanguage(t: TracingState, l: Option<AttributeValue>, xs: seq<Scoped>,
                                                  excludes: string -> bool)
    ensures CaptureAll(t.(language := l), xs, excludes) == CaptureAll(t, xs, excludes).(language := l)
    ensures ForwardAll(t.(language := l), xs, excludes) == ForwardAll(t, xs, excludes)
  {
    if xs != [] {
      CaptureIgnoresLanguage(t, l, xs[..|xs| - 1], excludes);
    }
  }

  lemma CaptureMore(t: TracingState, a: seq<Scoped>, b: seq<Scoped>, n: nat, excludes: string -> bool)
    ensures CaptureAll(CaptureAll(t, a, excludes).(processedFunctionSpans := n), b, excludes)
         == CaptureAll(t, a + b, excludes).(processedFunctionSpans := n)
    ensures ForwardAll(t, a + b, excludes)
         == ForwardAll(t, a, excludes)
            + ForwardAll(CaptureAll(t, a, excludes).(processedFunctionSpans := n), b, excludes)
  {
    CaptureAppend(t, a, b, excludes);
    CaptureIgnoresCount(CaptureAll(t, a, excludes), n, b, excludes);
  }

  // ---------------------------------------------------------------------------
  // The loops over resources, scopes and spans.

  lemma CaptureOneMore(t: TracingState, n: nat, xs: seq<Scoped>, i: nat, excludes: string -> bool)
    requires i < |xs|
    ensures CaptureAll(t, xs[..i + 1], excludes) == CaptureNext(CaptureAll(t, xs[..i], excludes), xs[i], excludes)
    ensures CaptureNext(CaptureAll(t, xs[..i], excludes).(processedFunctionSpans := n), xs[i], excludes)
         == CaptureAll(t, xs[..i + 1], excludes).(processedFunctionSpans := n)
    ensures ForwardAll(t, xs[..i + 1], excludes)
         == ForwardAll(t, xs[..i], excludes)
            + ForwardNext(CaptureAll(t, xs[..i], excludes).(processedFunctionSpans := n), xs[i], excludes)
  {
    assert xs[..i + 1][..i] == xs[..i];
  }

  lemma InScopeAppend(scope: Option<Scope>, a: seq<Span>, b: seq<Span>)
    ensures InScope(ScopeSpans(scope, a + b)) == InScope(ScopeSpans(scope, a)) + InScope(ScopeSpans(scope, b))
  {}

  /** Every resource is still there with its attributes. */
  ghost predicate SameResources(rs: seq<ResourceSpans>, rest: seq<ResourceSpans>) {
    |rest| == |rs| && forall i :: 0 <= i < |rs| ==> rest[i].attributes == rs[i].attributes
  }

  lemma SameResourcesNext(rs: seq<ResourceSpans>, i: nat, rest: seq<ResourceSpans>, next: ResourceSpans)
    requires i < |rs| && SameResources(rs[..i], rest) && next.attributes == rs[i].attributes
    ensures SameResources(rs[..i + 1], rest + [next])
  {}

  class InvocationTracingState {
    const shouldProduceSpans: bool
    var processedFunctionSpans: nat
    var language: Option<AttributeValue>
    var cxEarlyTriggerSpan: Option<SpanWithScope>
    var cxTriggerSpan: Option<SpanWithScope>
    var cxEarlyInvocationSpan: Option<SpanWithScope>
    var cxInvocationSpan: Option<SpanWithScope>
    var genericInvocationSpan: Option<SpanWithScope>

    function View(): TracingState
      reads this
    {
      TracingState(shouldProduceSpans, processedFunctionSpans, language, cxEarlyTriggerSpan, cxTriggerSpan,
                   cxEarlyInvocationSpan, cxInvocationSpan, genericInvocationSpan)
    }

    constructor (shouldProduceSpans: bool)
      ensures View() == NewTracingState(shouldProduceSpans)
    {
      this.shouldProduceSpans := shouldProduceSpans;
      processedFunctionSpans, language := 0, None;
      cxEarlyTriggerSpan, cxTriggerSpan := None, None;
      cxEarlyInvocationSpan, cxInvocationSpan, genericInvocationSpan := None, None, None;
    }

    /** `process_function_spans` of the span processor */
    method ProcessFunctionSpans(functionSpans: seq<ResourceSpans>, excludes: string -> bool)
      returns (rest: seq<ResourceSpans>)
      modifies this
      ensures View() == AfterSpans(old(View()), functionSpans, excludes)
      ensures AllSpans(rest) == ForwardAll(old(View()), AllSpans(functionSpans), excludes)
      ensures forall x, ss :: x in rest && ss in x.scopeSpans ==> ss.spans != []
      ensures SameResources(functionSpans, rest)
    {
      CaptureIgnoresLanguage(View(), LanguageAfter(View(), functionSpans), AllSpans(functionSpans), excludes);
      DetectLanguage(functionSpans);
      rest := ProcessSpans(functionSpans, excludes);
    }

    /** The language is that of the first resource that names one. */
    method DetectLanguage(functionSpans: seq<ResourceSpans>)
      modifies this`language
      ensures language == LanguageAfter(old(View()), functionSpans)
    {
      if language.None? {
        var i := 0;
        while i < |functionSpans| && language.None?
          invariant i <= |functionSpans|
          invariant language.None? ==> LanguageOf(functionSpans) == LanguageOf(functionSpans[i..])
          invariant language.Some? ==> LanguageOf(functionSpans) == language
        {
          language := FindAttribute(functionSpans[i].attributes, LANGUAGE_ATTRIBUTE);
          assert functionSpans[i..][1..] == functionSpans[i + 1..];
          i := i + 1;
        }
      }
    }

    method ProcessSpans(rs: seq<ResourceSpans>, excludes: string -> bool) returns (rest: seq<ResourceSpans>)
      modifies this
      ensures View() == CaptureAll(old(View()), AllSpans(rs), excludes)
                        .(processedFunctionSpans := old(processedFunctionSpans) + |AllSpans(rs)|)
      ensures AllSpans(rest) == ForwardAll(old(View()), AllSpans(rs), excludes)
      ensures forall x, ss :: x in rest && ss in x.scopeSpans ==> ss.spans != []
      ensures SameResources(rs, rest)
    {
      rest := [];
      ghost var t, seen, out := View(), [], [];
      for i := 0 to |rs|
        invariant seen == AllSpans(rs[..i]) && out == AllSpans(rest)
        invariant View() == CaptureAll(t, seen, excludes).(processedFunctionSpans := t.processedFunctionSpans + |seen|)
        invariant out == ForwardAll(t, seen, excludes)
        invariant forall x, ss :: x in rest && ss in x.scopeSpans ==> ss.spans != []
        invariant SameResources(rs[..i], rest)
      {
        AllSpansUpTo(rs, i);
        CaptureMore(t, seen, InScopes(rs[i].scopeSpans), processedFunctionSpans, excludes);
        var scopes := ProcessScopes(rs[i].scopeSpans, excludes);
        var next := rs[i].(scopeSpans := scopes);
        AllSpansNext(rest, next);
        seen, out := seen + InScopes(rs[i].scopeSpans), out + InScopes(scopes);
        SameResourcesNext(rs, i, rest, next);
        rest := rest + [next];
      }
      assert rs[..|rs|] == rs;
    }

    /** The scopes of one resource; those left without spans are dropped. */
    method ProcessScopes(sss: seq<ScopeSpans>, excludes: string -> bool) returns (rest: seq<ScopeSpans>)
      modifies this
      ensures View() == CaptureAll(old(View()), InScopes(sss), excludes)
                        .(processedFunctionSpans := old(processedFunctionSpans) + |InScopes(sss)|)
      ensures InScopes(rest) == ForwardAll(old(View()), InScopes(sss), excludes)
      ensures forall ss :: ss in rest ==> ss.spans != []
    {
      rest := [];
      ghost var t, seen, out := View(), [], [];
      for i := 0 to |sss|
        invariant seen == InScopes(sss[..i]) && out == InScopes(rest)
        invariant View() == CaptureAll(t, seen, excludes).(processedFunctionSpans := t.processedFunctionSpans + |seen|)
        invariant out == ForwardAll(t, seen, excludes)
        invariant forall ss :: ss in rest ==> ss.spans != []
      {
        InScopesUpTo(sss, i);
        CaptureMore(t, seen, InScope(sss[i]), processedFunctionSpans, excludes);
        var spans := ProcessScope(sss[i], excludes);
        var next := sss[i].(spans := spans);
        seen, out := seen + InScope(sss[i]), out + InScope(next);
        if spans != [] {
          InScopesNext(rest, next);
          rest := rest + [next];
        }
      }
      assert sss[..|sss|] == sss;
    }

    method ProcessScope(ss: ScopeSpans, excludes: string -> bool) returns (spans: seq<Span>)
      modifies this
      ensures View() == CaptureAll(old(View()), InScope(ss), excludes)
                        .(processedFunctionSpans := old(processedFunctionSpans) + |ss.spans|)
      ensures InScope(ss.(spans := spans)) == ForwardAll(old(View()), InScope(ss), excludes)
    {
      ghost var t, xs := View(), InScope(ss);
      processedFunctionSpans := processedFunctionSpans + |ss.spans|;
      var n := processedFunctionSpans;
      spans := [];
      for i := 0 to |ss.spans|
        invariant View() == CaptureAll(t, xs[..i], excludes).(processedFunctionSpans := n)
        invariant InScope(ss.(spans := spans)) == ForwardAll(t, xs[..i], excludes)
      {
        CaptureOneMore(t, n, xs, i, excludes);
        var forwarded := CaptureSpan(ss.spans[i], ss.scope, excludes);
        InScopeAppend(ss.scope, spans, forwarded);
        spans := spans + forwarded;
      }
      assert xs[..|ss.spans|] == xs;
    }

    /** What becomes of one span. */
    method CaptureSpan(span: Span, scope: Option<Scope>, excludes: string -> bool) returns (forwarded: seq<Span>)
      modifies this
      ensures View() == CaptureNext(old(View()), Scoped(span, scope), excludes)
      ensures InScope(ScopeSpans(scope, forwarded)) == ForwardNext(old(View()), Scoped(span, scope), excludes)
    {
      var cleaned, category := ProcessAndCategorize(span, excludes);
      if category.Capturable() {
        var captured := TryCapture(category, SpanWithScope(cleaned, scope));
        forwarded := if captured then [] else [cleaned];
      } else {
        forwarded := if category.Other? then [cleaned] else [];
      }
    }

    /** `try_capture_span` */
    method TryCapture(c: Category, s: SpanWithScope) returns (captured: bool)
      requires c.Capturable()
      modifies this
      ensures captured <==> old(View()).Slot(c).None?
      ensures View() == if captured then old(View()).WithSlot(c, s) else old(View())
    {
      captured := View().Slot(c).None?;
      if captured {
        match c {
          case CxEarlyTrigger => cxEarlyTriggerSpan := Some(s);
          case CxTrigger => cxTriggerSpan := Some(s);
          case CxEarlyInvocation => cxEarlyInvocationSpan := Some(s);
          case CxInvocation => cxInvocationSpan := Some(s);
          case GenericInvocation => genericInvocationSpan := Some(s);
        }
      }
    }

    /** `emit_trigger_and_invocation_spans` */
    method EmitTriggerAndInvocationSpans(done: RuntimeDone) returns (spans: seq<ScopeSpans>)
      ensures spans == ToScopeSpans(SpecialSpans(View(), done))
    {
      spans := [];
      match cxTriggerSpan {
        case Some(s) => spans := spans + [s.IntoScopeSpans()];
        case None =>
          match cxEarlyTriggerSpan {
            case Some(s) => spans := spans + [s.(span := Conclude(s.span, done)).IntoScopeSpans()];
            case None =>
          }
      }
      if cxInvocationSpan.Some? {
        var s := cxInvocationSpan.value;
        spans := spans + [s.(span := AddLanguage(s.span, language)).IntoScopeSpans()];
      } else if cxEarlyInvocationSpan.Some? {
        var s := cxEarlyInvocationSpan.value;
        spans := spans + [s.(span := AddLanguage(Conclude(s.span, done), language)).IntoScopeSpans()];
      } else if genericInvocationSpan.Some? {
        var s := genericInvocationSpan.value;
        spans := spans + [s.(span := AddLanguage(s.span, language)).IntoScopeSpans()];
      }
      if cxInvocationSpan.Some? || cxEarlyInvocationSpan.Some? {
        if genericInvocationSpan.Some? {
          spans := spans + [genericInvocationSpan.value.IntoScopeSpans()];
        }
      }
    }
  }

  // ---------------------------------------------------------------------------
  // What capturing amounts to over a whole invocation.

  /** Some span of category c is among xs. */
  ghost predicate Has(xs: seq<Scoped>, c: Category) {
    exists i :: 0 <= i < |xs| && Categorize(xs[i].span) == c
  }

  /** The first span of category c, cleaned. */
  function FirstOf(xs: seq<Scoped>, c: Category, excludes: string -> bool): Option<SpanWithScope> {
    if xs == [] then None
    else if Categorize(xs[0].span) == c then Some(SpanWithScope(Clean(xs[0].span, excludes), xs[0].scope))
    else FirstOf(xs[1..], c, excludes)
  }

  lemma {:induction false} FirstOfNext(xs: seq<Scoped>, x: Scoped, c: Category, excludes: string -> bool)
    ensures FirstOf(xs + [x], c, excludes)
         == if FirstOf(xs, c, excludes).Some? then FirstOf(xs, c, excludes) else FirstOf([x], c, excludes)
    ensures FirstOf(xs, c, excludes).Some? <==> Has(xs, c)
  {
    if xs == [] {
      assert [] + [x] == [x];
    } else {
      assert (xs + [x])[1..] == xs[1..] + [x];
      FirstOfNext(xs[1..], x, c, excludes);
      assert forall i :: 0 <= i < |xs[1..]| ==> xs[1..][i] == xs[i + 1];
      assert Has(xs, c) <==> Categorize(xs[0].span) == c || Has(xs[1..], c);
    }
  }

  /** The spans that are passed on: ordinary ones, and those whose slot was taken by an earlier span. */
  ghost function PassedOn(xs: seq<Scoped>, excludes: string -> bool): seq<Scoped> {
    if xs == [] then []
    else
      var front, x := xs[..|xs| - 1], Last(xs);
      var c := Categorize(x.span);
      PassedOn(front, excludes)
      + if c.Other? || (c.Capturable() && Has(front, c)) then [x.(span := Clean(x.span, excludes))] else []
  }

  /** Slots are write-once: each holds the first span of its category. */
  lemma {:induction false} SlotHoldsFirst(t: TracingState, xs: seq<Scoped>, c: Category, excludes: string -> bool)
    requires c.Capturable() && t.Slot(c).None?
    ensures CaptureAll(t, xs, excludes).Slot(c) == FirstOf(xs, c, excludes)
    ensures CaptureAll(t, xs, excludes).Slot(c).Some? <==> Has(xs, c)
  {
    if xs != [] {
      var front, x := xs[..|xs| - 1], Last(xs);
      SlotHoldsFirst(t, front, c, excludes);
      assert xs == front + [x];
      FirstOfNext(front, x, c, excludes);
      FirstOfNext(xs, x, c, excludes);
    }
  }

  /** Everything but warmup spans and the first span of each capturable category is passed on, in order. */
  lemma {:induction false} ForwardsTheRest(t: TracingState, xs: seq<Scoped>, excludes: string -> bool)
    requires forall c: Category :: t.Slot(c).None?
    ensures ForwardAll(t, xs, excludes) == PassedOn(xs, excludes)
  {
    if xs != [] {
      var front, x := xs[..|xs| - 1], Last(xs);
      ForwardsTheRest(t, front, excludes);
      var c := Categorize(x.span);
      if c.Capturable() {
        SlotHoldsFirst(t, front, c, excludes);
      }
    }
  }

  // ---------------------------------------------------------------------------
  // Accounting. Spans are told apart by the part that the exporter never touches.

  function One(b: bool): nat {
    if b then 1 else 0
  }

  function Count(xs: seq<Scoped>, n: nat): nat {
    if xs == [] then 0 else Count(xs[..|xs| - 1], n) + One(Last(xs).span.rest == n)
  }

  lemma {:induction false} CountAppend(a: seq<Scoped>, b: seq<Scoped>, n: nat)
    ensures Count(a + b, n) == Count(a, n) + Count(b, n)
  {
    if b == [] {
      assert a + b == a;
    } else {
      assert (a + b)[..|a + b| - 1] == a + b[..|b| - 1];
      CountAppend(a, b[..|b| - 1], n);
    }
  }

  function CountSlot(s: Option<SpanWithScope>, n: nat): nat {
    One(s.Some? && s.value.span.rest == n)
  }

  function CountSlots(t: TracingState, n: nat): nat {
    CountSlot(t.cxEarlyTrigger, n) + CountSlot(t.cxTrigger, n) + CountSlot(t.cxEarlyInvocation, n)
    + CountSlot(t.cxInvocation, n) + CountSlot(t.genericInvocation, n)
  }

  function CountWarmups(xs: seq<Scoped>, n: nat): nat {
    if xs == [] then 0
    else CountWarmups(xs[..|xs| - 1], n) + One(Categorize(Last(xs).span).CxWarmup? && Last(xs).span.rest == n)
  }

  /** Early spans that were captured, but whose final version was captured too. */
  function CountSuperseded(t: TracingState, n: nat): nat {
    (if t.cxTrigger.Some? then CountSlot(t.cxEarlyTrigger, n) else 0)
    + (if t.cxInvocation.Some? then CountSlot(t.cxEarlyInvocation, n) else 0)
  }

  lemma FillingASlot(t: TracingState, c: Category, s: SpanWithScope, n: nat)
    requires c.Capturable() && t.Slot(c).None?
    ensures CountSlots(t.WithSlot(c, s), n) == CountSlots(t, n) + One(s.span.rest == n)
  {
    match c
    case CxEarlyTrigger =>
    case CxTrigger =>
    case CxEarlyInvocation =>
    case CxInvocation =>
    case GenericInvocation =>
  }

  lemma CountSingle(x: Scoped, n: nat)
    ensures Count([x], n) == One(x.span.rest == n)
  {
    assert Count([x], n) == Count([x][..0], n) + One(x.span.rest == n);
  }

  lemma CaptureCounts(t: TracingState, x: Scoped, n: nat, excludes: string -> bool)
    ensures CountSlots(CaptureNext(t, x, excludes), n) + Count(ForwardNext(t, x, excludes), n)
            + One(Categorize(x.span).CxWarmup? && x.span.rest == n)
         == CountSlots(t, n) + One(x.span.rest == n)
  {
    var c, cleaned := Categorize(x.span), Clean(x.span, excludes);
    if c.Capturable() && t.Slot(c).None? {
      FillingASlot(t, c, SpanWithScope(cleaned, x.scope), n);
    } else if !c.CxWarmup? {
      CountSingle(x.(span := cleaned), n);
    }
  }

  /** While spans come in, each is in a slot, or has been passed on, or was a warmup span. */
  lemma {:induction false} CapturingAccounts(t: TracingState, xs: seq<Scoped>, n: nat, excludes: string -> bool)
    ensures CountSlots(CaptureAll(t, xs, excludes), n) + Count(ForwardAll(t, xs, excludes), n) + CountWarmups(xs, n)
         == CountSlots(t, n) + Count(xs, n)
  {
    if xs != [] {
      var front, x := xs[..|xs| - 1], Last(xs);
      var u := CaptureAll(t, front, excludes);
      CapturingAccounts(t, front, n, excludes);
      CaptureCounts(u, x, n, excludes);
      CountAppend(ForwardAll(t, front, excludes), ForwardNext(u, x, excludes), n);
    }
  }

  lemma CountOption(s: Option<SpanWithScope>, f: Span -> Span, n: nat)
    requires forall x :: f(x).rest == x.rest
    ensures Count(EmitSlot(s, f), n) == CountSlot(s, n)
  {
    if s.Some? {
      assert EmitSlot(s, f)[..0] == [];
    }
  }

  lemma CountTrigger(t: TracingState, done: RuntimeDone, n: nat)
    ensures Count(TriggerSpan(t, done), n)
         == if t.cxTrigger.Some? then CountSlot(t.cxTrigger, n) else CountSlot(t.cxEarlyTrigger, n)
  {
    CountOption(t.cxTrigger, x => x, n);
    CountOption(t.cxEarlyTrigger, x => Conclude(x, done), n);
  }

  lemma CountInvocation(t: TracingState, done: RuntimeDone, n: nat)
    ensures Count(InvocationSpanOut(t, done), n)
         == if t.cxInvocation.Some? then CountSlot(t.cxInvocation, n)
            else if t.cxEarlyInvocation.Some? then CountSlot(t.cxEarlyInvocation, n)
            else CountSlot(t.genericInvocation, n)
  {
    CountOption(t.cxInvocation, x => AddLanguage(x, t.language), n);
    CountOption(t.cxEarlyInvocation, x => AddLanguage(Conclude(x, done), t.language), n);
    CountOption(t.genericInvocation, x => AddLanguage(x, t.language), n);
  }

  lemma CountLeftOver(t: TracingState, n: nat)
    ensures Count(GenericLeftOver(t), n)
         == if t.cxInvocation.Some? || t.cxEarlyInvocation.Some? then CountSlot(t.genericInvocation, n) else 0
  {
    CountOption(t.genericInvocation, x => x, n);
  }

  /** Emitting empties the account: what was in the slots goes out, except superseded early spans. */
  lemma EmissionAccounts(t: TracingState, done: RuntimeDone, n: nat)
    ensures Count(SpecialSpans(t, done), n) + CountSuperseded(t, n) == CountSlots(t, n)
  {
    CountAppend(TriggerSpan(t, done) + InvocationSpanOut(t, done), GenericLeftOver(t), n);
    CountAppend(TriggerSpan(t, done), InvocationSpanOut(t, done), n);
    CountTrigger(t, done, n);
    CountInvocation(t, done, n);
    CountLeftOver(t, n);
  }

  /** A captured invocation span goes out under its own ids, with the language added; one that is still the
      early version is given the end and the status of the runtime. */
  lemma InvocationSpanGoesOut(t: TracingState, done: RuntimeDone)
    ensures t.InvocationSpan().Some? <==> InvocationSpanOut(t, done) != []
    ensures t.InvocationSpan().Some? ==>
              var own, out := t.InvocationSpan().value, InvocationSpanOut(t, done)[0].span;
              && InvocationSpanOut(t, done) <= SpecialSpans(t, done)[|TriggerSpan(t, done)|..]
              && out.spanId == own.spanId && out.traceId == own.traceId
              && FindLast(out.attributes, LANGUAGE_ATTRIBUTE)
                 == (if t.language.Some? then t.language else FindLast(own.attributes, LANGUAGE_ATTRIBUTE))
              && (if t.cxInvocation.None? && t.cxEarlyInvocation.Some?
                  then out.endTime == done.time % 0x1_0000_0000_0000_0000
                       && out.status == Some(TranslateStatus(done.status, done.errorType))
                  else out.endTime == own.endTime && out.status == own.status)
  {
    if t.InvocationSpan().Some? {
      var own := t.InvocationSpan().value;
      var added := own.attributes + [KeyValue(LANGUAGE_ATTRIBUTE, t.language)];
      assert added[..|own.attributes|] == own.attributes;
      assert SpecialSpans(t, done)[|TriggerSpan(t, done)|..] == InvocationSpanOut(t, done) + GenericLeftOver(t);
    }
  }
}
