/**
 * The LLM call protocol of internal/ai/openai_compatible.go: preflight, one
 * request, at most one fallback, parse, and one record of the outcome. What the
 * endpoint answers is an argument of each call.
 */
module Provider {
  import opened Options
  import opened Metrics
  import CodeFence

  datatype Kind = Disabled | FeatureOff | Rejected | Timeout | Transport | BadStatus | BadBody

  datatype Error = Error(kind: Kind, statusCode: int)

  datatype Config = Config(enabled: bool, model: string, features: seq<string>, auditEvery: bool)
  {
    /** config.go:92-102. */
    predicate Allows(feature: string) {
      enabled && feature in features
    }
  }

  datatype Request = Request(feature: string, user: string)

  /** A decoded chat response: its choices' texts, or not decodable at all. */
  datatype Body = Undecodable | Choices(texts: seq<string>)

  /** What becomes of one request: no answer, an answer whose body cannot be read, or an answer. */
  datatype Reply =
    | NotBuilt
    | NoAnswer(deadlineExceeded: bool)
    | Unreadable(status: int)
    | Answer(status: int, body: Body)

  /** What the provider asks for: plain text, JSON by response_format, or JSON by the folded system prompt. */
  datatype Asked = Plain | WithSchema | SchemaInPrompt

  /** The four outcome labels of the counter and the audit log. */
  const OK := "ok"
  const TIMEOUT := "timeout"
  const ERROR := "error"
  const REJECTED := "rejected"

  datatype AuditRow = AuditRow(feature: string, model: string, outcome: string)

  // ---------------------------------------------------------------- the pieces

  /** The result classes of `do` (openai_compatible.go:246-283): no error exactly for a readable 2xx answer. */
  function ErrorOf(reply: Reply): Option<Error> {
    match reply
    case NotBuilt => Some(Error(Transport, 0))
    case NoAnswer(deadline) => Some(Error(if deadline then Timeout else Transport, 0))
    case Unreadable(_) => Some(Error(Transport, 0))
    case Answer(status, _) => if status < 200 || status >= 300 then Some(Error(BadStatus, status)) else None
  }

  /** openai_compatible.go:364-377. */
  function ParseChatResponse(body: Body): Option<string> {
    if body.Choices? && |body.texts| > 0 then Some(body.texts[0]) else None
  }

  /** openai_compatible.go:327-338. */
  function OutcomeFor(err: Error): string {
    match err.kind
    case Timeout => TIMEOUT
    case Disabled => REJECTED
    case FeatureOff => REJECTED
    case Rejected => REJECTED
    case _ => ERROR
  }

  function Preflight(cfg: Config, req: Request): Option<Error> {
    if !cfg.enabled then Some(Error(Disabled, 0))
    else if !cfg.Allows(req.feature) then Some(Error(FeatureOff, 0))
    else if CodeFence.TrimSpace(req.user) == "" then Some(Error(Rejected, 0))
    else None
  }

  /** The server does not know response_format (openai_compatible.go:127-128). */
  predicate AsksForFallback(reply: Reply) {
    reply.Answer? && (reply.status == 400 || reply.status == 422)
  }

  // ---------------------------------------------------------------- what one call leaves behind

  datatype Call =
    | CompleteCall(req: Request, reply: Reply)
    | StructuredCall(req: Request, schema: string, first: Reply, second: Reply)

  /** The requests a call sends, the outcome labels it records, its error and its text. */
  datatype Trace = Trace(asked: seq<Asked>, recorded: seq<string>, err: Option<Error>, text: string)

  function FailedTrace(asked: seq<Asked>, err: Error): Trace {
    Trace(asked, [OutcomeFor(err)], Some(err), "")
  }

  /** The body of a readable 2xx answer taken as text, or as text that must be valid JSON. */
  function BodyTrace(asked: seq<Asked>, body: Body, json: bool, valid: string -> bool): Trace {
    match ParseChatResponse(body)
    case None => FailedTrace(asked, Error(BadBody, 0))
    case Some(text) => if json then JsonTrace(asked, text, valid) else Trace(asked, [OK], None, text)
  }

  function JsonTrace(asked: seq<Asked>, text: string, valid: string -> bool): Trace {
    var stripped := CodeFence.StripCodeFence(CodeFence.TrimSpace(text));
    if valid(stripped) then Trace(asked, [OK], None, stripped) else FailedTrace(asked, Error(BadBody, 0))
  }

  function ReplyTrace(asked: seq<Asked>, reply: Reply, json: bool, valid: string -> bool): Trace {
    match ErrorOf(reply)
    case Some(err) => FailedTrace(asked, err)
    case None => BodyTrace(asked, reply.body, json, valid)
  }

  function TraceOf(cfg: Config, valid: string -> bool, call: Call): Trace {
    match Preflight(cfg, call.req)
    case Some(err) => FailedTrace([], err)
    case None =>
      match call
      case CompleteCall(_, reply) => ReplyTrace([Plain], reply, false, valid)
      case StructuredCall(_, schema, first, second) =>
        if schema == "" then Trace([], [], Some(Error(Rejected, 0)), "")
        else if AsksForFallback(first) then ReplyTrace([WithSchema, SchemaInPrompt], second, true, valid)
        else ReplyTrace([WithSchema], first, true, valid)
  }

  /** The counter keys of the recorded outcomes. */
  function Keys(cfg: Config, call: Call, recorded: seq<string>): seq<CallKey> {
    if recorded == [] then []
    else Keys(cfg, call, recorded[..|recorded| - 1]) + [CallKey(call.req.feature, cfg.model, recorded[|recorded| - 1])]
  }

  // ---------------------------------------------------------------- the object

  datatype Sinks = Sinks(counts: Option<map<CallKey, Int64>>, rows: Option<seq<AuditRow>>)

  /** The sinks after the given outcomes of one call have been recorded. */
  function Recorded(cfg: Config, before: Sinks, call: Call, recorded: seq<string>): Sinks {
    var keys := Keys(cfg, call, recorded);
    Sinks(if before.counts == None then None else Some(IncrementedAll(before.counts.value, keys)),
          if before.rows == None || !cfg.auditEvery then before.rows else Some(before.rows.value + RowsOf(keys)))
  }

  lemma NothingRecorded(cfg: Config, before: Sinks, call: Call)
    ensures Recorded(cfg, before, call, []) == before
  {
    if before.rows.Some? { assert before.rows.value + [] == before.rows.value; }
  }

  /** The audit sink, as the rows it was given. */
  class AuditLog {
    var rows: seq<AuditRow>

    constructor ()
      ensures rows == []
    {
      rows := [];
    }

    method Log(row: AuditRow)
      modifies this
      ensures rows == old(rows) + [row]
    {
      rows := rows + [row];
    }
  }

  class OpenAIProvider {
    const cfg: Config
    const counter: CallCounter?
    const audit: AuditLog?
    /** json.Valid, which this model does not look into. */
    const valid: string -> bool
    /** The requests sent so far. */
    var sent: seq<Asked>

    constructor (cfg: Config, counter: CallCounter?, audit: AuditLog?, valid: string -> bool)
      ensures this.cfg == cfg && this.counter == counter && this.audit == audit && this.valid == valid && sent == []
    {
      this.cfg, this.counter, this.audit, this.valid := cfg, counter, audit, valid;
      sent := [];
    }

    /** What the two sinks hold, if they are there. */
    ghost function View(): Sinks
      reads counter, audit
    {
      Sinks(if counter == null then None else Some(counter.counts), if audit == null then None else Some(audit.rows))
    }

    /** openai_compatible.go:302-324. */
    method Emit(call: Call, outcome: string)
      modifies counter, audit
      ensures View() == Recorded(cfg, old(View()), call, [outcome])
    {
      ghost var before := View();
      var req := call.req;
      CallCounter.Inc(counter, req.feature, cfg.model, outcome);
      if audit != null && cfg.auditEvery {
        audit.Log(AuditRow(req.feature, cfg.model, outcome));
      }
      OneRecord(cfg, call, outcome);
      ghost var k := CallKey(req.feature, cfg.model, outcome);
      assert counter != null ==> counter.counts == IncrementedAll(before.counts.value, [k]);
      assert audit != null && cfg.auditEvery ==> audit.rows == before.rows.value + RowsOf([k]);
    }

    /** openai_compatible.go:246-283. */
    method Do(asked: Asked, reply: Reply) returns (raw: Option<Body>, err: Option<Error>)
      modifies this`sent
      ensures sent == old(sent) + [asked]
      ensures err == ErrorOf(reply)
      ensures err == None ==> raw == Some(reply.body)
    {
      sent := sent + [asked];
      match reply {
        case NotBuilt => raw, err := None, Some(Error(Transport, 0));
        case NoAnswer(deadline) =>
          raw := None;
          err := if deadline then Some(Error(Timeout, 0)) else Some(Error(Transport, 0));
        case Unreadable(_) => raw, err := None, Some(Error(Transport, 0));
        case Answer(status, body) =>
          raw := Some(body);
          err := if status < 200 || status >= 300 then Some(Error(BadStatus, status)) else None;
      }
    }

    /** openai_compatible.go:164-182. */
    method PreflightCheck(call: Call) returns (err: Option<Error>)
      modifies counter, audit
      ensures err == Preflight(cfg, call.req)
      ensures err == None <==> cfg.enabled && call.req.feature in cfg.features && HasText(call.req.user)
      ensures View() == Recorded(cfg, old(View()), call, if err == None then [] else [OutcomeFor(err.value)])
    {
      NothingRecorded(cfg, View(), call);
      BlankTextIsRejected(call.req.user);
      if !cfg.enabled {
        Emit(call, REJECTED);
        return Some(Error(Disabled, 0));
      }
      if !cfg.Allows(call.req.feature) {
        Emit(call, REJECTED);
        return Some(Error(FeatureOff, 0));
      }
      if CodeFence.TrimSpace(call.req.user) == "" {
        Emit(call, REJECTED);
        return Some(Error(Rejected, 0));
      }
      err := None;
    }

    /** failComplete and failStructured (openai_compatible.go:286-298). */
    method Fail(call: Call, err: Error)
      modifies counter, audit
      ensures View() == Recorded(cfg, old(View()), call, [OutcomeFor(err)])
    {
      Emit(call, OutcomeFor(err));
    }

    method Succeed(call: Call)
      modifies counter, audit
      ensures View() == Recorded(cfg, old(View()), call, [OK])
    {
      Emit(call, OK);
    }

    /** openai_compatible.go:79-104. */
    method Complete(req: Request, reply: Reply) returns (text: string, err: Option<Error>)
      modifies this`sent, counter, audit
      ensures var t := TraceOf(cfg, valid, CompleteCall(req, reply));
              && err == t.err && text == t.text && sent == old(sent) + t.asked
              && View() == Recorded(cfg, old(View()), CompleteCall(req, reply), t.recorded)
    {
      var call := CompleteCall(req, reply);
      NothingRecorded(cfg, View(), call);
      text := "";
      err := PreflightCheck(call);
      if err != None {
        return;
      }
      var raw;
      raw, err := Do(Plain, reply);
      if err != None {
        Fail(call, err.value);
        return;
      }
      var parsed := ParseChatResponse(raw.value);
      if parsed == None {
        err := Some(Error(BadBody, 0));
        Fail(call, err.value);
        return;
      }
      text := parsed.value;
      Succeed(call);
    }

    /** openai_compatible.go:110-160. */
    method StructuredOutput(req: Request, schema: string, first: Reply, second: Reply)
      returns (text: string, err: Option<Error>)
      modifies this`sent, counter, audit
      ensures var t := TraceOf(cfg, valid, StructuredCall(req, schema, first, second));
              && err == t.err && text == t.text && sent == old(sent) + t.asked
              && View() == Recorded(cfg, old(View()), StructuredCall(req, schema, first, second), t.recorded)
    {
      var call := StructuredCall(req, schema, first, second);
      NothingRecorded(cfg, View(), call);
      text := "";
      err := PreflightCheck(call);
      if err != None {
        return;
      }
      if schema == "" {
        return "", Some(Error(Rejected, 0));
      }
      var raw;
      raw, err := Do(WithSchema, first);
      if err.Some? && err.value.kind == BadStatus && (err.value.statusCode == 400 || err.value.statusCode == 422) {
        raw, err := Do(SchemaInPrompt, second);
      }
      StructuredTrace(cfg, valid, call);
      text, err := Settle(call, LastReply(call), raw, err);
    }

    /** openai_compatible.go:135-159: after the last attempt, which was answered by `reply`. */
    method Settle(call: Call, ghost reply: Reply, raw: Option<Body>, doErr: Option<Error>)
      returns (text: string, err: Option<Error>)
      requires doErr == ErrorOf(reply) && (doErr == None ==> raw == Some(reply.body))
      modifies counter, audit
      ensures var t := ReplyTrace([], reply, true, valid);
              text == t.text && err == t.err && View() == Recorded(cfg, old(View()), call, t.recorded)
    {
      text, err := "", doErr;
      if err != None {
        Fail(call, err.value);
        return;
      }
      text, err := DeliverJson(call, raw.value);
    }

    /** openai_compatible.go:138-159: a readable 2xx answer, on its way to the caller. */
    method DeliverJson(call: Call, body: Body) returns (text: string, err: Option<Error>)
      modifies counter, audit
      ensures var t := BodyTrace([], body, true, valid);
              text == t.text && err == t.err && View() == Recorded(cfg, old(View()), call, t.recorded)
    {
      text := "";
      var parsed := ParseChatResponse(body);
      if parsed == None {
        err := Some(Error(BadBody, 0));
        Fail(call, err.value);
        return;
      }
      var jsonText := CodeFence.StripCodeFence(CodeFence.TrimSpace(parsed.value));
      if !valid(jsonText) {
        err := Some(Error(BadBody, 0));
        Fail(call, err.value);
        return;
      }
      text, err := jsonText, None;
      Succeed(call);
    }
  }

  function IncrementedAll(counts: map<CallKey, Int64>, keys: seq<CallKey>): map<CallKey, Int64> {
    if keys == [] then counts else Incremented(IncrementedAll(counts, keys[..|keys| - 1]), keys[|keys| - 1])
  }

  function RowsOf(keys: seq<CallKey>): seq<AuditRow> {
    if keys == [] then []
    else
      var last := keys[|keys| - 1];
      RowsOf(keys[..|keys| - 1]) + [AuditRow(last.feature, last.model, last.outcome)]
  }

  lemma OneRecord(cfg: Config, call: Call, outcome: string)
    ensures var k := CallKey(call.req.feature, cfg.model, outcome);
            && Keys(cfg, call, [outcome]) == [k]
            && (forall counts :: IncrementedAll(counts, [k]) == Incremented(counts, k))
            && RowsOf([k]) == [AuditRow(call.req.feature, cfg.model, outcome)]
    ensures Keys(cfg, call, []) == []
  {
    var k := CallKey(call.req.feature, cfg.model, outcome);
    OneKey(cfg, call, outcome);
    OneRow(k);
    forall counts ensures IncrementedAll(counts, [k]) == Incremented(counts, k) { OneIncrement(counts, k); }
  }

  lemma OneKey(cfg: Config, call: Call, outcome: string)
    ensures Keys(cfg, call, [outcome]) == [CallKey(call.req.feature, cfg.model, outcome)]
  {
    assert [outcome][..0] == [];
  }

  lemma OneRow(k: CallKey)
    ensures RowsOf([k]) == [AuditRow(k.feature, k.model, k.outcome)]
  {
    assert [k][..0] == [];
  }

  lemma OneIncrement(counts: map<CallKey, Int64>, k: CallKey)
    ensures IncrementedAll(counts, [k]) == Incremented(counts, k)
  {
    assert [k][..0] == [];
  }

  /** Past preflight, the trace of StructuredOutput is that of its last reply. */
  lemma StructuredTrace(cfg: Config, valid: string -> bool, call: Call)
    requires call.StructuredCall? && Preflight(cfg, call.req) == None && call.schema != ""
    ensures TraceOf(cfg, valid, call) ==
            ReplyTrace([], LastReply(call), true, valid).(
              asked := if AsksForFallback(call.first) then [WithSchema, SchemaInPrompt] else [WithSchema])
  {
  }

  // ---------------------------------------------------------------- one call

  /**
   * Attempts: none when preflight fails or the schema is empty, otherwise one
   * for Complete, and for StructuredOutput a second one exactly when the first
   * was answered with status 400 or 422.
   */
  lemma Attempts(cfg: Config, valid: string -> bool, call: Call)
    ensures var t := TraceOf(cfg, valid, call);
            && (|t.asked| == 0 <==> Preflight(cfg, call.req) != None || (call.StructuredCall? && call.schema == ""))
            && (call.CompleteCall? ==> |t.asked| <= 1)
            && (call.StructuredCall? ==> |t.asked| <= 2)
            && (|t.asked| == 2 <==> |t.asked| > 0 && call.StructuredCall? && AsksForFallback(call.first))
  {
  }

  /** The last reply a call waits for. */
  function LastReply(call: Call): Reply {
    match call
    case CompleteCall(_, reply) => reply
    case StructuredCall(_, _, first, second) => if AsksForFallback(first) then second else first
  }

  /** Every call records one outcome, but for the one that returns an error for an empty schema and records none. */
  lemma OneOutcome(cfg: Config, valid: string -> bool, call: Call)
    ensures var t := TraceOf(cfg, valid, call);
            && |t.recorded| <= 1
            && (t.recorded == [] <==> SkipsRecord(cfg, call))
            && (SkipsRecord(cfg, call) ==> t.err == Some(Error(Rejected, 0)))
  {
  }

  predicate SkipsRecord(cfg: Config, call: Call) {
    Preflight(cfg, call.req) == None && call.StructuredCall? && call.schema == ""
  }

  /** What each label means. */
  lemma OutcomesMean(cfg: Config, valid: string -> bool, call: Call)
    ensures var t := TraceOf(cfg, valid, call);
            && (t.recorded == [OK] <==> t.err == None)
            && (t.recorded == [REJECTED] <==> Preflight(cfg, call.req) != None)
            && (t.recorded == [REJECTED] ==> t.asked == [])
            && (t.recorded == [TIMEOUT] <==> t.asked != [] && LastReply(call) == NoAnswer(true))
            && (t.err == None ==> t.asked != [] && LastReply(call).Answer? && 200 <= LastReply(call).status < 300)
            && (t.err == None && call.StructuredCall? ==> valid(t.text))
  {
    assert |OK| == 2 && |TIMEOUT| == 7 && |ERROR| == 5 && |REJECTED| == 8;
  }

  // ---------------------------------------------------------------- in the terms of the configuration and the reply

  predicate HasText(s: string) {
    exists i :: 0 <= i < |s| && !CodeFence.IsSpace(s[i])
  }

  predicate Failed(t: Trace, kind: Kind) {
    t.err.Some? && t.err.value.kind == kind
  }

  lemma BlankTextIsRejected(s: string)
    ensures CodeFence.TrimSpace(s) == "" <==> !HasText(s)
  {
    CodeFence.BlankExactlyWhen(s);
  }

  /**
   * A request is sent exactly by an enabled provider for a listed feature and
   * text that is not blank, with a schema where one is needed.
   */
  lemma SentExactlyWhen(cfg: Config, valid: string -> bool, call: Call)
    ensures TraceOf(cfg, valid, call).asked != [] <==>
            && cfg.enabled && call.req.feature in cfg.features && HasText(call.req.user)
            && (call.StructuredCall? ==> call.schema != "")
  {
    BlankTextIsRejected(call.req.user);
  }

  /** What is asked for, in order. */
  lemma AskedInOrder(cfg: Config, valid: string -> bool, call: Call)
    requires TraceOf(cfg, valid, call).asked != []
    ensures call.CompleteCall? ==> TraceOf(cfg, valid, call).asked == [Plain]
    ensures call.StructuredCall? ==>
              var answered := call.first.Answer? && (call.first.status == 400 || call.first.status == 422);
              TraceOf(cfg, valid, call).asked == if answered then [WithSchema, SchemaInPrompt] else [WithSchema]
  {
  }

  /** Why nothing was sent. */
  lemma RejectionsMean(cfg: Config, valid: string -> bool, call: Call)
    ensures var t, req := TraceOf(cfg, valid, call), call.req;
            && (Failed(t, Disabled) <==> !cfg.enabled)
            && (Failed(t, FeatureOff) <==> cfg.enabled && req.feature !in cfg.features)
            && (Failed(t, Rejected) <==>
                  && cfg.enabled && req.feature in cfg.features
                  && (!HasText(req.user) || (call.StructuredCall? && call.schema == "")))
  {
    BlankTextIsRejected(call.req.user);
  }

  /** What the caller makes of an answer's text: as it is, or without space and fence around it. */
  function Taken(call: Call, text: string): string {
    if call.CompleteCall? then text else CodeFence.StripCodeFence(CodeFence.TrimSpace(text))
  }

  /** Why a request that was sent failed, and what comes back otherwise: the first choice. */
  lemma RepliesMean(cfg: Config, valid: string -> bool, call: Call)
    requires TraceOf(cfg, valid, call).asked != []
    ensures var t, reply := TraceOf(cfg, valid, call), LastReply(call);
            var accepted := reply.Answer? && 200 <= reply.status <= 299;
            var first := if accepted && reply.body.Choices? && |reply.body.texts| > 0
                         then Some(reply.body.texts[0]) else None;
            && (Failed(t, Timeout) <==> reply.NoAnswer? && reply.deadlineExceeded)
            && (Failed(t, Transport) <==>
                  reply.NotBuilt? || reply.Unreadable? || (reply.NoAnswer? && !reply.deadlineExceeded))
            && (Failed(t, BadStatus) <==> reply.Answer? && !accepted)
            && (Failed(t, BadStatus) ==> t.err.value.statusCode == reply.status)
            && (Failed(t, BadBody) <==>
                  accepted && (first == None || (call.StructuredCall? && !valid(Taken(call, first.value)))))
            && (t.err == None ==> first.Some? && t.text == Taken(call, first.value))
  {
  }

  lemma CleanAnswer(cfg: Config, valid: string -> bool, req: Request, schema: string, second: Reply,
                    status: int, text: string, clean: string)
    requires Preflight(cfg, req) == None && schema != "" && 200 <= status < 300
    requires CodeFence.StripCodeFence(CodeFence.TrimSpace(text)) == clean && valid(clean)
    ensures var t := TraceOf(cfg, valid, StructuredCall(req, schema, Answer(status, Choices([text])), second));
            t.err == None && t.text == clean
  {
  }

  /** An answer wrapped in a tagged code fence reaches the caller as the trimmed text between the fences. */
  lemma FencedAnswerIsUnwrapped(cfg: Config, valid: string -> bool, req: Request, schema: string, second: Reply,
                                status: int, tag: string, body: string)
    requires Preflight(cfg, req) == None && schema != "" && 200 <= status < 300
    requires '\n' !in tag && !CodeFence.NotATag(tag) && valid(CodeFence.TrimSpace(body))
    ensures var text := CodeFence.FENCE + tag + "\n" + body + "\n" + CodeFence.FENCE;
            var t := TraceOf(cfg, valid, StructuredCall(req, schema, Answer(status, Choices([text])), second));
            t.err == None && t.text == CodeFence.TrimSpace(body)
  {
    var text := CodeFence.FENCE + tag + "\n" + body + "\n" + CodeFence.FENCE;
    CodeFence.TaggedFence(tag, body);
    CodeFence.NothingToTrim(text);
    CleanAnswer(cfg, valid, req, schema, second, status, text, CodeFence.TrimSpace(body));
  }

  // ---------------------------------------------------------------- any sequence of calls

  /** The keys recorded by a sequence of calls. */
  function AllKeys(cfg: Config, valid: string -> bool, calls: seq<Call>): seq<CallKey> {
    if calls == [] then []
    else
      var last := calls[|calls| - 1];
      AllKeys(cfg, valid, calls[..|calls| - 1]) + Keys(cfg, last, TraceOf(cfg, valid, last).recorded)
  }

  /** The calls that record nothing. */
  function Skipped(cfg: Config, calls: seq<Call>): nat {
    if calls == [] then 0
    else Skipped(cfg, calls[..|calls| - 1]) + (if SkipsRecord(cfg, calls[|calls| - 1]) then 1 else 0)
  }

  function RowKey(r: AuditRow): CallKey {
    CallKey(r.feature, r.model, r.outcome)
  }

  /** How many rows carry the labels of `k`. */
  function RowCount(rows: seq<AuditRow>, k: CallKey): nat {
    if rows == [] then 0
    else RowCount(rows[..|rows| - 1], k) + (if RowKey(rows[|rows| - 1]) == k then 1 else 0)
  }

  lemma {:induction false} RowsCount(keys: seq<CallKey>, k: CallKey)
    ensures RowCount(RowsOf(keys), k) == multiset(keys)[k] && |RowsOf(keys)| == |keys|
    decreases |keys|
  {
    if keys != [] {
      var before, last := keys[..|keys| - 1], keys[|keys| - 1];
      RowsCount(before, k);
      assert keys == before + [last];
      assert RowsOf(keys)[..|RowsOf(keys)| - 1] == RowsOf(before);
    }
  }

  lemma {:induction false} AllCallsCounted(cfg: Config, valid: string -> bool, calls: seq<Call>)
    ensures |AllKeys(cfg, valid, calls)| + Skipped(cfg, calls) == |calls|
    decreases |calls|
  {
    if calls != [] {
      var last := calls[|calls| - 1];
      AllCallsCounted(cfg, valid, calls[..|calls| - 1]);
      OneOutcome(cfg, valid, last);
      var recorded := TraceOf(cfg, valid, last).recorded;
      if recorded != [] {
        OneRecord(cfg, last, recorded[0]);
        assert recorded == [recorded[0]];
      }
    }
  }

  lemma {:induction false} IncrementedAllIsCounting(keys: seq<CallKey>)
    ensures IncrementedAll(map[], keys) == CountsAfter(keys)
    decreases |keys|
  {
    if keys != [] { IncrementedAllIsCounting(keys[..|keys| - 1]); }
  }

  lemma {:induction false} IncrementedAllComposes(counts: map<CallKey, Int64>, a: seq<CallKey>, b: seq<CallKey>)
    ensures IncrementedAll(IncrementedAll(counts, a), b) == IncrementedAll(counts, a + b)
    decreases |b|
  {
    if b == [] {
      assert a + b == a;
    } else {
      var last := |b| - 1;
      assert (a + b)[..|a + b| - 1] == a + b[..last];
      IncrementedAllComposes(counts, a, b[..last]);
    }
  }

  /** Both sinks after a sequence of calls. */
  function After(cfg: Config, valid: string -> bool, before: Sinks, calls: seq<Call>): Sinks {
    if calls == [] then before
    else
      var last := calls[|calls| - 1];
      Recorded(cfg, After(cfg, valid, before, calls[..|calls| - 1]), last, TraceOf(cfg, valid, last).recorded)
  }

  const FRESH := Sinks(Some(map[]), Some([]))

  lemma {:induction false} RowsOfConcat(a: seq<CallKey>, b: seq<CallKey>)
    ensures RowsOf(a + b) == RowsOf(a) + RowsOf(b)
    decreases |b|
  {
    if b == [] {
      assert a + b == a;
    } else {
      assert (a + b)[..|a + b| - 1] == a + b[..|b| - 1];
      RowsOfConcat(a, b[..|b| - 1]);
    }
  }

  lemma {:induction false} AfterIs(cfg: Config, valid: string -> bool, calls: seq<Call>)
    ensures After(cfg, valid, FRESH, calls).counts == Some(IncrementedAll(map[], AllKeys(cfg, valid, calls)))
    ensures After(cfg, valid, FRESH, calls).rows ==
            Some(if cfg.auditEvery then RowsOf(AllKeys(cfg, valid, calls)) else [])
    decreases |calls|
  {
    if calls != [] {
      var earlier, last := calls[..|calls| - 1], calls[|calls| - 1];
      var keys := Keys(cfg, last, TraceOf(cfg, valid, last).recorded);
      AfterIs(cfg, valid, earlier);
      IncrementedAllComposes(map[], AllKeys(cfg, valid, earlier), keys);
      RowsOfConcat(AllKeys(cfg, valid, earlier), keys);
    }
  }

  /** The histogram of the rows is the counter map, and they number the calls less the empty-schema returns. */
  ghost predicate Agree(cfg: Config, counts: map<CallKey, Int64>, rows: seq<AuditRow>, calls: seq<Call>) {
    && (forall k :: Count(counts, k) == Wrap(RowCount(rows, k)))
    && (forall k :: k in counts <==> RowCount(rows, k) > 0)
    && |rows| == |calls| - Skipped(cfg, calls)
  }

  /**
   * The counter and the audit log agree: with every call audited and both
   * sinks fresh, the histogram of the rows is the counter map, and together
   * they account for every call but the empty-schema returns.
   */
  lemma CounterAndAuditAgree(cfg: Config, valid: string -> bool, calls: seq<Call>)
    requires cfg.auditEvery
    ensures var after := After(cfg, valid, FRESH, calls);
            after.counts.Some? && after.rows.Some? && Agree(cfg, after.counts.value, after.rows.value, calls)
  {
    var keys := AllKeys(cfg, valid, calls);
    AfterIs(cfg, valid, calls);
    var counts, rows := IncrementedAll(map[], keys), RowsOf(keys);
    IncrementedAllIsCounting(keys);
    CounterCounts(keys);
    AllCallsCounted(cfg, valid, calls);
    RowsCount(keys, CallKey("", "", ""));
    forall k ensures RowCount(rows, k) == multiset(keys)[k] { RowsCount(keys, k); }
    forall k ensures k in counts <==> RowCount(rows, k) > 0 {
      assert k in keys <==> k in multiset(keys);
    }
  }

  /** Any sequence of calls on one provider; on fresh sinks with auditing on, the two agree afterwards. */
  method CallAll(p: OpenAIProvider, calls: seq<Call>)
    modifies p`sent, p.counter, p.audit
    ensures p.View() == After(p.cfg, p.valid, old(p.View()), calls)
    ensures old(p.View()) == FRESH && p.cfg.auditEvery ==> Agree(p.cfg, p.counter.counts, p.audit.rows, calls)
  {
    ghost var before := p.View();
    for i := 0 to |calls|
      invariant p.View() == After(p.cfg, p.valid, before, calls[..i])
    {
      assert calls[..i + 1][..i] == calls[..i];
      match calls[i] {
        case CompleteCall(req, reply) =>
          var text, err := p.Complete(req, reply);
        case StructuredCall(req, schema, first, second) =>
          var text, err := p.StructuredOutput(req, schema, first, second);
      }
    }
    assert calls[..|calls|] == calls;
    if before == FRESH && p.cfg.auditEvery { CounterAndAuditAgree(p.cfg, p.valid, calls); }
  }
}
