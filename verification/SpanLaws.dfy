/** What categorizing, cleaning and emitting a span amounts to, told from its attributes and fields
    (src/telemetry/processor/span_processor.rs). */
module SpanLaws {
  import opened Sequences
  import opened Telemetry
  import opened SpanCapture
  import opened InvocationProcessing
  import opened Correlation

  // ---------------------------------------------------------------------------
  // Categories.

  predicate IsEarlyState(a: KeyValue) {
    a.key == "cx.internal.span.state" && a.value == Some(Text("early"))
  }

  predicate IsTriggerMark(a: KeyValue) {
    a.key == "faas.trigger"
  }

  /** Some state attribute says "early". */
  ghost predicate IsEarly(span: Span) {
    SomeAttribute(span.attributes, IsEarlyState)
  }

  ghost predicate MarksTrigger(span: Span) {
    SomeAttribute(span.attributes, IsTriggerMark)
  }

  /** What the last role attribute says. */
  function RoleOf(span: Span): Option<string> {
    LastString(span.attributes, "cx.internal.span.role")
  }

  lemma FlagsOf(span: Span)
    ensures ScanAll(span.attributes).early <==> IsEarly(span)
    ensures ScanAll(span.attributes).faasTrigger <==> MarksTrigger(span)
  {
    ScannedFlags(span.attributes);
    var early := (a: KeyValue) => a.key == SPAN_STATE_ATTRIBUTE && StringValue(a) == Some("early");
    var trigger := (a: KeyValue) => a.key == FAAS_TRIGGER_ATTRIBUTE;
    if SomeAttribute(span.attributes, early) {
      var i :| 0 <= i < |span.attributes| && early(span.attributes[i]);
      assert IsEarlyState(span.attributes[i]);
    }
    if IsEarly(span) {
      var i :| 0 <= i < |span.attributes| && IsEarlyState(span.attributes[i]);
      assert early(span.attributes[i]);
    }
    if SomeAttribute(span.attributes, trigger) {
      var i :| 0 <= i < |span.attributes| && trigger(span.attributes[i]);
      assert IsTriggerMark(span.attributes[i]);
    }
    if MarksTrigger(span) {
      var i :| 0 <= i < |span.attributes| && IsTriggerMark(span.attributes[i]);
      assert trigger(span.attributes[i]);
    }
  }

  /** The category of a span: its role and state decide, and without a role its kind, unless it marks a trigger. */
  lemma CategoryExactly(span: Span)
    ensures Categorize(span) == CxEarlyTrigger <==> RoleOf(span) == Some("trigger") && IsEarly(span)
    ensures Categorize(span) == CxTrigger <==> RoleOf(span) == Some("trigger") && !IsEarly(span)
    ensures Categorize(span) == CxEarlyInvocation <==> RoleOf(span) == Some("invocation") && IsEarly(span)
    ensures Categorize(span) == CxInvocation <==> RoleOf(span) == Some("invocation") && !IsEarly(span)
    ensures Categorize(span) == CxWarmup <==> RoleOf(span) == Some("warmup")
    ensures Categorize(span) == GenericInvocation
       <==> RoleOf(span).None? && (span.kind == Server || span.kind == Consumer) && !MarksTrigger(span)
  {
    ScannedStrings(span.attributes);
    FlagsOf(span);
    RolesDiffer();
  }

  lemma RolesDiffer()
    ensures "trigger" != "invocation" && "trigger" != "warmup" && "invocation" != "warmup"
  {
    assert |"trigger"| == 7 && |"invocation"| == 10 && |"warmup"| == 6;
  }

  // ---------------------------------------------------------------------------
  // Ids.

  const LOWER_DIGITS := "0123456789abcdef"
  const UPPER_DIGITS := "0123456789ABCDEF"

  /** The hexadecimal digit c stands for d. */
  predicate StandsFor(c: char, d: nat) {
    d < 16 && (c == LOWER_DIGITS[d] || c == UPPER_DIGITS[d])
  }

  /** Two digits stand for a byte. */
  ghost predicate ByteOf(hi: char, lo: char, b: Byte) {
    exists h: nat, l: nat :: StandsFor(hi, h) && StandsFor(lo, l) && b == h * 16 + l
  }

  /** The text is a hexadecimal rendering of the bytes. */
  ghost predicate Renders(s: string, bytes: Bytes) {
    |s| == 2 * |bytes| && forall i: nat :: i < |bytes| ==> ByteOf(s[2 * i], s[2 * i + 1], bytes[i])
  }

  lemma DigitExactly(c: char, d: nat)
    ensures StandsFor(c, d) <==> HexDigit(c) == Some(d)
  {
    if d < 16 {
      assert LOWER_DIGITS[d] as int == if d < 10 then '0' as int + d else 'a' as int + (d - 10);
      assert UPPER_DIGITS[d] as int == if d < 10 then '0' as int + d else 'A' as int + (d - 10);
    }
  }

  lemma ByteExactly(hi: char, lo: char, b: Byte)
    ensures ByteOf(hi, lo, b)
       <==> HexDigit(hi).Some? && HexDigit(lo).Some? && b == HexDigit(hi).value * 16 + HexDigit(lo).value
  {
    if h: nat, l: nat :| StandsFor(hi, h) && StandsFor(lo, l) && b == h * 16 + l {
      DigitExactly(hi, h);
      DigitExactly(lo, l);
    }
    if HexDigit(hi).Some? && HexDigit(lo).Some? {
      DigitExactly(hi, HexDigit(hi).value);
      DigitExactly(lo, HexDigit(lo).value);
    }
  }

  lemma RendersNext(s: string, bytes: Bytes)
    requires |s| >= 2 && bytes != []
    ensures Renders(s, bytes) <==> ByteOf(s[0], s[1], bytes[0]) && Renders(s[2..], bytes[1..])
  {
    if ByteOf(s[0], s[1], bytes[0]) && Renders(s[2..], bytes[1..]) {
      forall i: nat | i < |bytes| ensures ByteOf(s[2 * i], s[2 * i + 1], bytes[i]) {
        if i > 0 {
          assert s[2..][2 * (i - 1)] == s[2 * i] && s[2..][2 * (i - 1) + 1] == s[2 * i + 1];
          assert bytes[1..][i - 1] == bytes[i];
        }
      }
    }
    if Renders(s, bytes) {
      assert ByteOf(s[2 * 0], s[2 * 0 + 1], bytes[0]);
      forall i: nat | i < |bytes[1..]| ensures ByteOf(s[2..][2 * i], s[2..][2 * i + 1], bytes[1..][i]) {
        assert ByteOf(s[2 * (i + 1)], s[2 * (i + 1) + 1], bytes[i + 1]);
      }
    }
  }

  /** Decoding yields the bytes that a text renders, if it renders any. */
  lemma {:induction false} DecodesExactly(s: string, bytes: Bytes)
    ensures HexDecode(s) == Some(bytes) <==> Renders(s, bytes)
    decreases |s|
  {
    if |s| >= 2 && bytes != [] {
      DecodesExactly(s[2..], bytes[1..]);
      RendersNext(s, bytes);
      ByteExactly(s[0], s[1], bytes[0]);
      assert bytes == [bytes[0]] + bytes[1..];
    }
  }

  /** An id that the attributes give to an early span with a role: the last attribute with the key renders it. */
  ghost predicate GivesId(span: Span, key: string, id: Bytes) {
    && RoleOf(span).Some? && IsEarly(span)
    && LastString(span.attributes, key).Some? && Renders(LastString(span.attributes, key).value, id)
  }

  /** The ids of a cleaned span are those that the attributes give, and otherwise its own. */
  lemma CleanIds(span: Span, excludes: string -> bool)
    ensures forall id :: GivesId(span, "cx.internal.span.id", id) ==> Clean(span, excludes).spanId == id
    ensures forall id :: GivesId(span, "cx.internal.trace.id", id) ==> Clean(span, excludes).traceId == id
    ensures (forall id :: !GivesId(span, "cx.internal.span.id", id)) ==> Clean(span, excludes).spanId == span.spanId
    ensures (forall id :: !GivesId(span, "cx.internal.trace.id", id)) ==> Clean(span, excludes).traceId == span.traceId
  {
    ScannedStrings(span.attributes);
    FlagsOf(span);
    GivenExactly(span, "cx.internal.span.id");
    GivenExactly(span, "cx.internal.trace.id");
  }

  lemma GivenExactly(span: Span, key: string)
    ensures var given := LastString(span.attributes, key);
            var decoded := if given.Some? then HexDecode(given.value) else None;
            forall id :: GivesId(span, key, id) <==> RoleOf(span).Some? && IsEarly(span) && decoded == Some(id)
  {
    var given := LastString(span.attributes, key);
    if given.Some? {
      forall id ensures Renders(given.value, id) <==> HexDecode(given.value) == Some(id) {
        DecodesExactly(given.value, id);
      }
    }
  }

  // ---------------------------------------------------------------------------
  // Scopes.

  /** A span of a batch stands in one of its scopes. */
  ghost predicate StandsIn(rs: seq<ResourceSpans>, x: Scoped) {
    exists r, ss :: r in rs && ss in r.scopeSpans && x.span in ss.spans && x.scope == ss.scope
  }

  lemma {:induction false} InScopesExactly(sss: seq<ScopeSpans>, x: Scoped)
    ensures x in InScopes(sss) <==> exists ss :: ss in sss && x.span in ss.spans && x.scope == ss.scope
  {
    if sss != [] {
      var front, ss := sss[..|sss| - 1], Last(sss);
      InScopesExactly(front, x);
      InScopeExactly(ss, x);
      assert sss == front + [ss];
    }
  }

  lemma InScopeExactly(ss: ScopeSpans, x: Scoped)
    ensures x in InScope(ss) <==> x.span in ss.spans && x.scope == ss.scope
  {
    if x.span in ss.spans && x.scope == ss.scope {
      var i :| 0 <= i < |ss.spans| && ss.spans[i] == x.span;
      assert InScope(ss)[i] == x;
    }
  }

  /** Every span is dealt with in the scope in which it arrived. */
  lemma {:induction false} ScopesExactly(rs: seq<ResourceSpans>, x: Scoped)
    ensures x in AllSpans(rs) <==> StandsIn(rs, x)
  {
    if rs != [] {
      var front, r := rs[..|rs| - 1], Last(rs);
      ScopesExactly(front, x);
      InScopesExactly(r.scopeSpans, x);
      assert rs == front + [r];
    }
  }

  // ---------------------------------------------------------------------------
  // Attributes.

  /** The elements at increasing positions, which are all those that are not to be dropped. */
  ghost predicate KeptAt(attributes: seq<KeyValue>, dropped: string -> bool, at: seq<nat>, kept: seq<KeyValue>) {
    && |at| == |kept|
    && (forall i :: 0 <= i < |at| ==> at[i] < |attributes| && kept[i] == attributes[at[i]])
    && (forall i, j :: 0 <= i < j < |at| ==> at[i] < at[j])
    && (forall p: nat :: p < |attributes| ==> (p in at <==> !dropped(attributes[p].key)))
  }

  lemma {:induction false} FilteredExactly(attributes: seq<KeyValue>, dropped: string -> bool) returns (at: seq<nat>)
    ensures KeptAt(attributes, dropped, at, Filtered(attributes, dropped))
  {
    if attributes == [] {
      at := [];
    } else {
      var front, n := attributes[..|attributes| - 1], |attributes| - 1;
      var before := FilteredExactly(front, dropped);
      at := before + if dropped(attributes[n].key) then [] else [n];
      forall p: nat | p < |attributes| ensures p in at <==> !dropped(attributes[p].key) {
        assert p < n ==> (p in at <==> p in before) && front[p] == attributes[p];
        assert n !in before;
      }
    }
  }

  /** Cleaning changes nothing but ids and attributes, and keeps exactly the attributes that are neither internal nor
      excluded, in order. */
  lemma CleanExactly(span: Span, excludes: string -> bool) returns (at: seq<nat>)
    ensures var cleaned := Clean(span, excludes);
            && cleaned == Span(cleaned.traceId, cleaned.spanId, span.kind, cleaned.attributes,
                               span.status, span.endTime, span.rest)
            && KeptAt(span.attributes, key => IsInternal(key) || excludes(key), at, cleaned.attributes)
  {
    var dropped := key => IsInternal(key) || excludes(key);
    CleanedAttributes(span, excludes, dropped);
    at := FilteredExactly(span.attributes, dropped);
  }

  lemma InternalExactly(key: string)
    ensures IsInternal(key) <==> key in {"cx.internal.span.role", "cx.internal.span.state", "cx.internal.span.id",
                                         "cx.internal.trace.id"}
  {}

  // ---------------------------------------------------------------------------
  // The language.

  /** Attribute i names the language, and it is the first with that key. */
  ghost predicate NamesAt(attributes: seq<KeyValue>, language: AttributeValue, i: nat) {
    && i < |attributes| && attributes[i] == KeyValue("telemetry.sdk.language", Some(language))
    && forall j: nat :: j < i ==> attributes[j].key != "telemetry.sdk.language"
  }

  ghost predicate NamesLanguage(attributes: seq<KeyValue>, language: AttributeValue) {
    exists i: nat :: NamesAt(attributes, language, i)
  }

  lemma NamesAtNext(attributes: seq<KeyValue>, language: AttributeValue, i: nat)
    requires attributes != [] && attributes[0].key != "telemetry.sdk.language"
    ensures NamesAt(attributes, language, i + 1) <==> NamesAt(attributes[1..], language, i)
    ensures !NamesAt(attributes, language, 0)
  {
    assert forall j: nat :: j < |attributes[1..]| ==> attributes[1..][j] == attributes[j + 1];
    if NamesAt(attributes[1..], language, i) {
      forall j: nat | j < i + 1 ensures attributes[j].key != "telemetry.sdk.language" {
        assert j > 0 ==> attributes[j] == attributes[1..][j - 1];
      }
    }
  }

  lemma {:induction false} FoundExactly(attributes: seq<KeyValue>, language: AttributeValue)
    ensures FindAttribute(attributes, LANGUAGE_ATTRIBUTE) == Some(language) <==> NamesLanguage(attributes, language)
  {
    if attributes != [] {
      if attributes[0].key == LANGUAGE_ATTRIBUTE {
        assert attributes[0].value == Some(language) ==> NamesAt(attributes, language, 0);
      } else {
        FoundExactly(attributes[1..], language);
        if i: nat :| NamesAt(attributes[1..], language, i) {
          NamesAtNext(attributes, language, i);
        }
        if i: nat :| NamesAt(attributes, language, i) {
          NamesAtNext(attributes, language, if i > 0 then i - 1 else 0);
        }
      }
    }
  }

  /** Resource i names the language, and no earlier one names any. */
  ghost predicate FirstNames(rs: seq<ResourceSpans>, language: AttributeValue, i: nat) {
    && i < |rs| && NamesLanguage(rs[i].attributes, language)
    && forall j: nat, l :: j < i ==> !NamesLanguage(rs[j].attributes, l)
  }

  lemma FirstNamesNext(rs: seq<ResourceSpans>, language: AttributeValue, i: nat)
    requires rs != [] && forall l :: !NamesLanguage(rs[0].attributes, l)
    ensures FirstNames(rs, language, i + 1) <==> FirstNames(rs[1..], language, i)
    ensures !FirstNames(rs, language, 0)
  {
    assert forall j: nat :: j < |rs[1..]| ==> rs[1..][j] == rs[j + 1];
    if FirstNames(rs[1..], language, i) {
      forall j: nat, l | j < i + 1 ensures !NamesLanguage(rs[j].attributes, l) {
        assert j > 0 ==> rs[j] == rs[1..][j - 1];
      }
    }
  }

  /** The language of some resources is that of the first one that names any. */
  lemma {:induction false} LanguageExactly(rs: seq<ResourceSpans>, language: AttributeValue)
    ensures LanguageOf(rs) == Some(language) <==> exists i: nat :: FirstNames(rs, language, i)
  {
    if rs != [] {
      var own := FindAttribute(rs[0].attributes, LANGUAGE_ATTRIBUTE);
      forall l ensures own == Some(l) <==> NamesLanguage(rs[0].attributes, l) {
        FoundExactly(rs[0].attributes, l);
      }
      if own.Some? {
        assert own == Some(language) ==> FirstNames(rs, language, 0);
        forall i: nat | FirstNames(rs, language, i) ensures i == 0 {
          assert NamesLanguage(rs[0].attributes, own.value);
        }
      } else {
        LanguageExactly(rs[1..], language);
        if i: nat :| FirstNames(rs[1..], language, i) {
          FirstNamesNext(rs, language, i);
        }
        if i: nat :| FirstNames(rs, language, i) {
          FirstNamesNext(rs, language, if i > 0 then i - 1 else 0);
        }
      }
    }
  }

  /** All the resources of the spans that arrived. */
  function ResourcesIn(steps: seq<Step>): seq<ResourceSpans> {
    if steps == [] then []
    else ResourcesIn(steps[..|steps| - 1]) + if Last(steps).OnSpans? then Last(steps).spans else []
  }

  lemma {:induction false} LanguageOfMore(a: seq<ResourceSpans>, b: seq<ResourceSpans>)
    ensures LanguageOf(a + b) == if LanguageOf(a).Some? then LanguageOf(a) else LanguageOf(b)
  {
    if a == [] {
      assert a + b == b;
    } else {
      assert (a + b)[0] == a[0] && (a + b)[1..] == a[1..] + b;
      LanguageOfMore(a[1..], b);
    }
  }

  /** The language of an invocation is that of the first resource of all its spans that names any. */
  lemma {:induction false} LanguageOfRun(config: Config, invoke: InvokeEvent, steps: seq<Step>)
    ensures Run(config, invoke, steps).state.tracing.language == LanguageOf(ResourcesIn(steps))
  {
    if steps != [] {
      var front, step := steps[..|steps| - 1], Last(steps);
      LanguageOfRun(config, invoke, front);
      StepTracing(config, Run(config, invoke, front).state, step);
      if step.OnSpans? {
        LanguageOfMore(ResourcesIn(front), step.spans);
      } else {
        assert ResourcesIn(steps) == ResourcesIn(front);
      }
    }
  }

  // ---------------------------------------------------------------------------
  // What goes out when the runtime is done.

  /** The status of an early span: that of the runtime. The error type is the message, or else the name of the
      status. */
  ghost predicate HasStatusOf(span: Span, done: RuntimeDone) {
    && span.status.Some?
    && (span.status.value.code == Ok <==> done.status == Success)
    && (span.status.value.code == ErrorCode <==> done.status != Success)
    && (done.status == Success ==> span.status.value.message == "OK")
    && (done.status != Success && done.errorType.Some? ==> span.status.value.message == done.errorType.value)
    && (done.errorType.None? && done.status == Timeout ==> span.status.value.message == "timeout")
    && (done.errorType.None? && done.status == Status.Error ==> span.status.value.message == "error")
    && (done.errorType.None? && done.status == Failure ==> span.status.value.message == "failure")
  }

  /** The early span as it goes out: it ends when the runtime is done, with the status of that; nothing else changes. */
  ghost predicate IsConcluded(out: Span, own: Span, done: RuntimeDone) {
    && HasStatusOf(out, done) && out.endTime == done.time % 0x1_0000_0000_0000_0000
    && out.(status := own.status, endTime := own.endTime) == own
  }

  /** The span with one more attribute, if there is a language. */
  function WithLanguage(span: Span, language: Option<AttributeValue>): Span {
    span.(attributes := span.attributes
                        + if language.Some? then [KeyValue("telemetry.sdk.language", language)] else [])
  }

  lemma EarlyIsConcluded(span: Span, done: RuntimeDone)
    ensures IsConcluded(Conclude(span, done), span, done)
  {}

  lemma LanguageIsAdded(span: Span, language: Option<AttributeValue>)
    ensures AddLanguage(span, language) == WithLanguage(span, language)
  {
    assert span.attributes + [] == span.attributes;
  }

  /** A slot goes out as one span in its scope. */
  ghost predicate GoesOut(out: seq<Scoped>, slot: SpanWithScope, span: Span) {
    out == [Scoped(span, slot.scope)]
  }

  /** A final trigger span goes out as it is; an early one is concluded; without either, nothing goes out. */
  lemma TriggerExactly(t: TracingState, done: RuntimeDone)
    ensures var out := TriggerSpan(t, done);
            && (t.cxTrigger.Some? ==> GoesOut(out, t.cxTrigger.value, t.cxTrigger.value.span))
            && (t.cxTrigger.None? && t.cxEarlyTrigger.Some? ==>
                  |out| == 1 && GoesOut(out, t.cxEarlyTrigger.value, out[0].span)
                  && IsConcluded(out[0].span, t.cxEarlyTrigger.value.span, done))
            && (t.cxTrigger.None? && t.cxEarlyTrigger.None? ==> out == [])
  {
    if t.cxEarlyTrigger.Some? {
      EarlyIsConcluded(t.cxEarlyTrigger.value.span, done);
    }
  }

  /** A final invocation span goes out with the language, or else the early one, which is concluded as well, or else the
      generic one; nothing else about it changes. */
  lemma InvocationExactly(t: TracingState, done: RuntimeDone)
    ensures var out := InvocationSpanOut(t, done);
            && (t.cxInvocation.Some? ==>
                  GoesOut(out, t.cxInvocation.value, WithLanguage(t.cxInvocation.value.span, t.language)))
            && (t.cxInvocation.None? && t.cxEarlyInvocation.Some? ==>
                  |out| == 1 && GoesOut(out, t.cxEarlyInvocation.value, out[0].span)
                  && IsConcluded(out[0].span, WithLanguage(t.cxEarlyInvocation.value.span, t.language), done))
            && (t.cxInvocation.None? && t.cxEarlyInvocation.None? && t.genericInvocation.Some? ==>
                  GoesOut(out, t.genericInvocation.value, WithLanguage(t.genericInvocation.value.span, t.language)))
            && (t.InvocationSpan().None? ==> out == [])
  {
    if t.cxInvocation.Some? {
      LanguageIsAdded(t.cxInvocation.value.span, t.language);
    } else if t.cxEarlyInvocation.Some? {
      var own := t.cxEarlyInvocation.value.span;
      EarlyIsConcluded(own, done);
      LanguageIsAdded(Conclude(own, done), t.language);
    } else if t.genericInvocation.Some? {
      LanguageIsAdded(t.genericInvocation.value.span, t.language);
    }
  }

  /** Besides another invocation span the generic one goes out as it is. */
  lemma LeftOverExactly(t: TracingState)
    ensures var out, other := GenericLeftOver(t), t.cxInvocation.Some? || t.cxEarlyInvocation.Some?;
            && (other && t.genericInvocation.Some? ==>
                  GoesOut(out, t.genericInvocation.value, t.genericInvocation.value.span))
            && (!other || t.genericInvocation.None? ==> out == [])
  {}
}
