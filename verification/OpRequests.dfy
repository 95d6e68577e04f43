/** Identity op requests: the list of ops a handler generates, with references to the results of
    earlier ops, and keystone's interpreter `handle_op_request` that runs such a list. */
module OpRequests {
  import opened Text

  /** A JSON parameter. String parameters are templates: a plain text, or one reference
      `{{ op[index].field }}` to the result of an earlier op. */
  datatype Param = Plain(text: string) | Ref(op: string, index: nat, field: string) | Flag(b: bool) | Null

  datatype Op = Op(name: string, params: map<string, Param>)

  // ---------------------------------------------------------------- the interpreter

  /** What a client method returns, or the text of what it raised. */
  datatype Value = Record(fields: map<string, string>) | Message(text: string)

  datatype Arg = Text(s: string) | Bool(b: bool) | Nothing

  datatype Call = Call(name: string, args: map<string, Arg>)

  datatype Outcome = Done(v: Value) | Raised(text: string)

  /** The keystone client: its methods, and what a call does after the calls before it. */
  datatype Client = Client(methods: set<string>, run: (seq<Call>, Call) -> Outcome)

  datatype OpReply = OpReply(name: string, code: int, value: Option<Value>)

  type Context = map<string, seq<Value>>

  function FieldOf(v: Value, field: string): string {
    if v.Record? && field in v.fields then v.fields[field] else ""
  }

  /** A reference to an op that has no result at that index is undefined and raises. */
  predicate Renders(context: Context, p: Param) {
    p.Ref? ==> p.op in context && p.index < |context[p.op]|
  }

  function Render(context: Context, p: Param): Arg
    requires Renders(context, p)
  {
    match p
    case Plain(text) => Text(text)
    case Ref(op, index, field) => Text(FieldOf(context[op][index], field))
    case Flag(b) => Bool(b)
    case Null => Nothing
  }

  /** Interpreter state: replies so far, results by op name, and the client calls made, each
      with the position of its op in the request. */
  datatype Progress = Progress(replies: seq<OpReply>, context: Context, calls: seq<(nat, Call)>)

  function CallsOf(calls: seq<(nat, Call)>): seq<Call> {
    seq(|calls|, i requires 0 <= i < |calls| => calls[i].1)
  }

  predicate Callable(client: Client, context: Context, op: Op) {
    op.name in client.methods && forall key :: key in op.params ==> Renders(context, op.params[key])
  }

  function ArgsOf(context: Context, op: Op): map<string, Arg>
    requires forall key :: key in op.params ==> Renders(context, op.params[key])
  {
    map key | key in op.params :: Render(context, op.params[key])
  }

  /** One op: look the method up, render the parameters, call; any exception is the reply. */
  function RunOp(client: Client, p: Progress, op: Op): (OpReply, seq<(nat, Call)>) {
    if Callable(client, p.context, op) then
      var call := Call(op.name, ArgsOf(p.context, op));
      var reply :=
        match client.run(CallsOf(p.calls), call)
        case Done(v) => OpReply(op.name, 0, Some(v))
        case Raised(text) => OpReply(op.name, -1, Some(Message(text)));
      (reply, p.calls + [(|p.replies|, call)])
    else (OpReply(op.name, -1, Some(Message("not called"))), p.calls)
  }

  function Results(context: Context, name: string): seq<Value> {
    if name in context then context[name] else []
  }

  function Step(client: Client, p: Progress, op: Op): (p': Progress)
    ensures |p'.replies| == |p.replies| + 1 && Last(p'.replies).value.Some?
  {
    var (reply, calls) := RunOp(client, p, op);
    var results := Results(p.context, op.name) + [reply.value.value];
    Progress(p.replies + [reply], p.context[op.name := results], calls)
  }

  function Run(client: Client, ops: seq<Op>): (p: Progress)
    ensures |p.replies| == |ops|
    ensures forall i :: 0 <= i < |ops| ==> p.replies[i].value.Some?
  {
    if ops == [] then Progress([], map[], []) else Step(client, Run(client, Front(ops)), Last(ops))
  }

  const SECRET_PREFIX := "secret://"

  /** `_sanitize_secrets`: a parameter naming a readable secret becomes that secret's entry of
      the same name. */
  function Sanitized(secrets: map<string, map<string, string>>, op: Op): Op {
    op.(params := map key | key in op.params ::
      var p := op.params[key];
      if p.Plain? && StartsWith(p.text, SECRET_PREFIX) && p.text in secrets then
        if key in secrets[p.text] then Plain(secrets[p.text][key]) else Null
      else p)
  }

  function SanitizedAll(secrets: map<string, map<string, string>>, ops: seq<Op>): (r: seq<Op>)
    ensures |r| == |ops|
    ensures forall i :: 0 <= i < |ops| ==> r[i] == Sanitized(secrets, ops[i])
  {
    seq(|ops|, i requires 0 <= i < |ops| => Sanitized(secrets, ops[i]))
  }

  /** The body of the try block and its handler, for one op. */
  method HandleOne(client: Client, context: Context, calls: seq<(nat, Call)>, op: Op, idx: nat,
                   ghost before: seq<OpReply>)
      returns (reply: OpReply, more: seq<(nat, Call)>)
    requires |before| == idx
    ensures (reply, more) == RunOp(client, Progress(before, context, calls), op)
  {
    if Callable(client, context, op) {
      var call := Call(op.name, ArgsOf(context, op));
      var outcome := client.run(CallsOf(calls), call);
      more := calls + [(idx, call)];
      if outcome.Done? {
        reply := OpReply(op.name, 0, Some(outcome.v));
      } else {
        reply := OpReply(op.name, -1, Some(Message(outcome.text)));
      }
    } else {
      reply, more := OpReply(op.name, -1, Some(Message("not called"))), calls;
    }
  }

  /** `handle_op_request`: the reply list starts as all -2 and is filled in place. */
  method HandleOpRequest(client: Client, secrets: map<string, map<string, string>>, ops: seq<Op>)
      returns (replies: seq<OpReply>, calls: seq<(nat, Call)>)
    ensures var p := Run(client, SanitizedAll(secrets, ops)); replies == p.replies && calls == p.calls
  {
    var clean := SanitizedAll(secrets, ops);
    replies := seq(|ops|, i requires 0 <= i < |ops| => OpReply(ops[i].name, -2, None));
    var context: Context := map[];
    calls := [];
    var idx := 0;
    assert clean[..0] == [];
    while idx < |clean|
      invariant 0 <= idx <= |clean| == |replies|
      invariant Run(client, clean[..idx]) == Progress(replies[..idx], context, calls)
    {
      var op := clean[idx];
      ghost var before := replies[..idx];
      assert Front(clean[..idx + 1]) == clean[..idx];
      var reply;
      reply, calls := HandleOne(client, context, calls, op, idx, before);
      replies := replies[idx := reply];
      context := context[op.name := Results(context, op.name) + [reply.value.value]];
      idx := idx + 1;
      assert replies[..idx] == before + [reply];
    }
    assert clean[..idx] == clean && replies[..idx] == replies;
  }

  // ---------------------------------------------------------------- what the interpreter means

  /** The result of the op at position `i`. */
  function ValueAt(client: Client, ops: seq<Op>, i: nat): Value
    requires i < |ops|
  {
    Run(client, ops).replies[i].value.value
  }

  /** The first op of that name. */
  function FirstOf(ops: seq<Op>, name: string): (j: nat)
    ensures j <= |ops| && forall i :: 0 <= i < j ==> ops[i].name != name
    ensures j < |ops| ==> ops[j].name == name
  {
    if ops == [] || ops[0].name == name then 0 else 1 + FirstOf(ops[1..], name)
  }

  /** Running a longer request does not change the beginning. */
  lemma {:induction false} RunPrefix(client: Client, ops: seq<Op>, k: nat)
    requires k <= |ops|
    ensures Run(client, ops).replies[..k] == Run(client, ops[..k]).replies
    ensures Run(client, ops[..k]).calls <= Run(client, ops).calls
  {
    if k == |ops| {
      assert ops[..k] == ops;
    } else {
      RunPrefix(client, Front(ops), k);
      assert Front(ops)[..k] == ops[..k];
    }
  }

  /** One reply per op, in order, each 0 or -1. */
  predicate RepliesAligned(ops: seq<Op>, p: Progress) {
    && |p.replies| == |ops|
    && forall i :: 0 <= i < |ops| ==> p.replies[i].name == ops[i].name && p.replies[i].code in {0, -1}
  }

  /** Calls are in request order, at most one per op, to the op's own method. */
  predicate CallsInOrder(ops: seq<Op>, p: Progress) {
    && (forall j :: 0 <= j < |p.calls| ==> p.calls[j].0 < |ops| && p.calls[j].1.name == ops[p.calls[j].0].name)
    && (forall i, j :: 0 <= i < j < |p.calls| ==> p.calls[i].0 < p.calls[j].0)
  }

  predicate WasCalled(p: Progress, i: nat) {
    exists j :: 0 <= j < |p.calls| && p.calls[j].0 == i
  }

  predicate SuccessMeansCalled(p: Progress) {
    forall i :: 0 <= i < |p.replies| && p.replies[i].code == 0 ==> WasCalled(p, i)
  }

  lemma StepStaysAligned(client: Client, ops: seq<Op>, p: Progress, op: Op)
    requires RepliesAligned(ops, p) && CallsInOrder(ops, p) && SuccessMeansCalled(p)
    ensures var p' := Step(client, p, op);
            RepliesAligned(ops + [op], p') && CallsInOrder(ops + [op], p') && SuccessMeansCalled(p')
  {
    var p' := Step(client, p, op);
    forall i | 0 <= i < |p'.replies| && p'.replies[i].code == 0 ensures WasCalled(p', i) {
      if i < |ops| {
        assert WasCalled(p, i);
        var j :| 0 <= j < |p.calls| && p.calls[j].0 == i;
        assert p'.calls[j].0 == i;
      } else {
        assert p'.calls[|p.calls|].0 == i;
      }
    }
  }

  /** The response is aligned with the request: one reply per op, in order, no -2 left; a reply
      is 0 only for an op that was called; calls are made at most once per op and in order. */
  lemma {:induction false} RunIsAligned(client: Client, ops: seq<Op>)
    ensures RepliesAligned(ops, Run(client, ops)) && CallsInOrder(ops, Run(client, ops))
    ensures SuccessMeansCalled(Run(client, ops))
  {
    if ops != [] {
      RunIsAligned(client, Front(ops));
      StepStaysAligned(client, Front(ops), Run(client, Front(ops)), Last(ops));
      assert Front(ops) + [Last(ops)] == ops;
    }
  }

  /** The context holds, under each name, the result of the first op of that name first. */
  lemma {:induction false} ContextHoldsFirst(client: Client, ops: seq<Op>, name: string)
    ensures name in Run(client, ops).context <==> FirstOf(ops, name) < |ops|
    ensures FirstOf(ops, name) < |ops| ==>
              var results := Run(client, ops).context[name];
              |results| > 0 && results[0] == ValueAt(client, ops, FirstOf(ops, name))
  {
    if ops != [] {
      ContextHoldsFirst(client, Front(ops), name);
      FirstOfFront(ops, name);
      var before, after := Run(client, Front(ops)), Run(client, ops);
      if FirstOf(Front(ops), name) < |ops| - 1 {
        assert after.replies[FirstOf(ops, name)] == before.replies[FirstOf(ops, name)];
      }
    }
  }

  lemma {:induction false} FirstOfFront(ops: seq<Op>, name: string)
    requires ops != []
    ensures FirstOf(ops, name) ==
            if FirstOf(Front(ops), name) < |ops| - 1 then FirstOf(Front(ops), name)
            else if Last(ops).name == name then |ops| - 1 else |ops|
  {
    var j, i := FirstOf(ops, name), FirstOf(Front(ops), name);
    if i < |ops| - 1 {
      assert Front(ops)[i] == ops[i];
      assert j >= i;
    } else {
      assert forall m :: 0 <= m < |ops| - 1 ==> ops[m] == Front(ops)[m];
    }
  }

  /** A `{{ name[0].field }}` parameter of op `k` is rendered from the first op of that name,
      provided that op is earlier; nothing later in the request matters. */
  lemma ReferenceMeansFirst(client: Client, ops: seq<Op>, k: nat, p: Param)
    requires k < |ops| && p.Ref? && p.index == 0 && FirstOf(ops, p.op) < k
    ensures var context := Run(client, ops[..k]).context;
            && Renders(context, p)
            && Render(context, p) == Text(FieldOf(ValueAt(client, ops, FirstOf(ops, p.op)), p.field))
  {
    var j := FirstOf(ops, p.op);
    ContextHoldsFirst(client, ops[..k], p.op);
    RunPrefix(client, ops, k);
    assert ops[..k][j] == ops[j];
    FirstOfIs(ops[..k], p.op, j);
    assert Run(client, ops).replies[j] == Run(client, ops).replies[..k][j];
  }

  /** The call made for op `k`, if its method exists and its parameters render. */
  lemma CallOfOp(client: Client, ops: seq<Op>, k: nat)
    requires k < |ops| && Callable(client, Run(client, ops[..k]).context, ops[k])
    ensures (k, Call(ops[k].name, ArgsOf(Run(client, ops[..k]).context, ops[k]))) in Run(client, ops).calls
  {
    assert Front(ops[..k + 1]) == ops[..k] && Last(ops[..k + 1]) == ops[k];
    RunPrefix(client, ops, k + 1);
    assert Last(Run(client, ops[..k + 1]).calls) in Run(client, ops[..k + 1]).calls;
  }

  // ---------------------------------------------------------------- what one op does, exactly

  /** The positions of the ops of that name, in order. */
  function Positions(ops: seq<Op>, name: string): (at: seq<nat>)
    ensures forall m :: 0 <= m < |at| ==> at[m] < |ops| && ops[at[m]].name == name
    ensures forall m, n :: 0 <= m < n < |at| ==> at[m] < at[n]
  {
    if ops == [] then []
    else
      var before := Positions(Front(ops), name);
      assert forall m :: 0 <= m < |before| ==> Front(ops)[before[m]] == ops[before[m]];
      if Last(ops).name == name then before + [|ops| - 1] else before
  }

  lemma {:induction false} PositionsAreAll(ops: seq<Op>, name: string, i: nat)
    requires i < |ops| && ops[i].name == name
    ensures i in Positions(ops, name)
  {
    if i < |ops| - 1 {
      PositionsAreAll(Front(ops), name, i);
    }
  }

  predicate AreResults(client: Client, ops: seq<Op>, at: seq<nat>, results: seq<Value>) {
    |results| == |at| && forall m :: 0 <= m < |at| ==> at[m] < |ops| && results[m] == ValueAt(client, ops, at[m])
  }

  lemma FrontResults(client: Client, ops: seq<Op>, at: seq<nat>, results: seq<Value>)
    requires ops != [] && AreResults(client, Front(ops), at, results)
    ensures AreResults(client, ops, at, results)
  {
    var before, after := Run(client, Front(ops)), Run(client, ops);
    assert after.replies[..|ops| - 1] == before.replies;
    forall m | 0 <= m < |at| ensures results[m] == ValueAt(client, ops, at[m]) {
      assert after.replies[at[m]] == before.replies[at[m]];
    }
  }

  lemma OneMoreResult(client: Client, ops: seq<Op>, at: seq<nat>, results: seq<Value>)
    requires ops != [] && AreResults(client, ops, at, results)
    ensures AreResults(client, ops, at + [|ops| - 1], results + [ValueAt(client, ops, |ops| - 1)])
  {
  }

  lemma ResultsAfter(client: Client, ops: seq<Op>, name: string)
    requires ops != []
    ensures Results(Run(client, ops).context, name) ==
            Results(Run(client, Front(ops)).context, name)
            + if Last(ops).name == name then [ValueAt(client, ops, |ops| - 1)] else []
    ensures name in Run(client, ops).context <==> name in Run(client, Front(ops)).context || Last(ops).name == name
  {
    var before, after := Run(client, Front(ops)), Run(client, ops);
    assert after == Step(client, before, Last(ops));
    assert after.replies[|ops| - 1] == RunOp(client, before, Last(ops)).0;
  }

  /** The context has, under a name, the results of the ops of that name in order. */
  lemma {:induction false} ContextIs(client: Client, ops: seq<Op>, name: string)
    ensures AreResults(client, ops, Positions(ops, name), Results(Run(client, ops).context, name))
    ensures name in Run(client, ops).context <==> Positions(ops, name) != []
  {
    if ops != [] {
      var at, results := Positions(Front(ops), name), Results(Run(client, Front(ops)).context, name);
      ContextIs(client, Front(ops), name);
      ResultsAfter(client, ops, name);
      FrontResults(client, ops, at, results);
      if Last(ops).name == name {
        OneMoreResult(client, ops, at, results);
      } else {
        assert results + [] == results;
      }
    }
  }

  /** A reference can be resolved for op `i`: enough earlier ops have that name. */
  predicate Resolves(ops: seq<Op>, i: nat, p: Param)
    requires i < |ops|
  {
    p.Ref? ==> p.index < |Positions(ops[..i], p.op)|
  }

  /** What the parameter of op `i` is passed as: a text, flag or null as it is, a reference as that field
      of the result it names, empty if the result has no such field. */
  predicate PassedAs(client: Client, ops: seq<Op>, i: nat, p: Param, a: Arg)
    requires i < |ops| && Resolves(ops, i, p)
  {
    match p
    case Plain(text) => a == Text(text)
    case Flag(b) => a == Bool(b)
    case Null => a == Nothing
    case Ref(op, index, field) =>
      match ValueAt(client, ops, Positions(ops[..i], op)[index])
      case Record(fields) => a == Text(if field in fields then fields[field] else "")
      case Message(_) => a == Text("")
  }

  lemma RendersAs(client: Client, ops: seq<Op>, i: nat, p: Param)
    requires i < |ops|
    ensures Renders(Run(client, ops[..i]).context, p) <==> Resolves(ops, i, p)
    ensures Resolves(ops, i, p) ==> PassedAs(client, ops, i, p, Render(Run(client, ops[..i]).context, p))
  {
    if p.Ref? {
      ContextIs(client, ops[..i], p.op);
      RunPrefix(client, ops, i);
      if Resolves(ops, i, p) {
        var at := Positions(ops[..i], p.op)[p.index];
        assert Run(client, ops).replies[..i][at] == Run(client, ops[..i]).replies[at];
      }
    }
  }

  /** The step of op `i` inside the whole run. */
  lemma StepOf(client: Client, ops: seq<Op>, i: nat)
    requires i < |ops|
    ensures var b, p := Run(client, ops[..i]), Run(client, ops);
            && |b.replies| == i && b.calls <= p.calls
            && p.replies[i] == RunOp(client, b, ops[i]).0 && RunOp(client, b, ops[i]).1 <= p.calls
  {
    var upTo := ops[..i + 1];
    assert Front(upTo) == ops[..i] && Last(upTo) == ops[i];
    RunPrefix(client, ops, i);
    RunPrefix(client, ops, i + 1);
    assert Run(client, ops).replies[..i + 1][i] == Run(client, upTo).replies[i];
  }

  /** Op `i` is called, and its call is the `j`-th. */
  predicate CallAt(p: Progress, i: nat, j: nat) {
    j < |p.calls| && p.calls[j].0 == i
  }

  /** Exactly the ops whose method exists and whose references resolve are called, with their parameters
      as they are to be passed. */
  lemma CalledExactly(client: Client, ops: seq<Op>, i: nat)
    requires i < |ops|
    ensures var p := Run(client, ops);
            var callable := ops[i].name in client.methods
                            && forall key :: key in ops[i].params ==> Resolves(ops, i, ops[i].params[key]);
            && ((exists j: nat :: CallAt(p, i, j)) <==> callable)
            && (callable ==> forall j: nat :: CallAt(p, i, j) ==>
                  var call := p.calls[j].1;
                  && call.name == ops[i].name && call.args.Keys == ops[i].params.Keys
                  && forall key :: key in ops[i].params ==>
                       PassedAs(client, ops, i, ops[i].params[key], call.args[key]))
  {
    var b, p := Run(client, ops[..i]), Run(client, ops);
    StepOf(client, ops, i);
    RunIsAligned(client, ops);
    RunIsAligned(client, ops[..i]);
    forall key | key in ops[i].params
      ensures Renders(b.context, ops[i].params[key]) <==> Resolves(ops, i, ops[i].params[key])
      ensures Resolves(ops, i, ops[i].params[key]) ==>
                PassedAs(client, ops, i, ops[i].params[key], Render(b.context, ops[i].params[key]))
    {
      RendersAs(client, ops, i, ops[i].params[key]);
    }
    if Callable(client, b.context, ops[i]) {
      assert p.calls[|b.calls|] == RunOp(client, b, ops[i]).1[|b.calls|];
      assert CallAt(p, i, |b.calls|);
    } else {
      NotCalled(client, ops, i);
    }
  }

  lemma NotCalled(client: Client, ops: seq<Op>, i: nat)
    requires i < |ops| && !Callable(client, Run(client, ops[..i]).context, ops[i])
    ensures forall j: nat :: !CallAt(Run(client, ops), i, j)
  {
    var b, a, p := Run(client, ops[..i]), Run(client, ops[..i + 1]), Run(client, ops);
    assert Front(ops[..i + 1]) == ops[..i] && Last(ops[..i + 1]) == ops[i];
    assert a.calls == b.calls;
    RunIsAligned(client, ops[..i]);
    LaterCalls(client, ops, i + 1);
  }

  /** Calls made after the first `k` ops are theirs. */
  lemma {:induction false} LaterCalls(client: Client, ops: seq<Op>, k: nat)
    requires k <= |ops|
    ensures var b, p := Run(client, ops[..k]), Run(client, ops);
            b.calls <= p.calls && forall j :: |b.calls| <= j < |p.calls| ==> p.calls[j].0 >= k
    decreases |ops|
  {
    if k == |ops| {
      assert ops[..k] == ops;
    } else {
      LaterCalls(client, Front(ops), k);
      assert Front(ops)[..k] == ops[..k];
    }
  }

  /** The reply is 0 with the returned value exactly if the op was called and the call returned; a call
      that raised is answered -1 with its message, and an op that was not called -1. */
  lemma CodesAreExact(client: Client, ops: seq<Op>, i: nat)
    requires i < |ops|
    ensures var p := Run(client, ops);
            && (p.replies[i].code == 0 <==>
                  exists j: nat :: CallAt(p, i, j) && client.run(CallsOf(p.calls[..j]), p.calls[j].1).Done?)
            && p.replies[i].code in {0, -1}
            && forall j: nat :: CallAt(p, i, j) ==>
                 match client.run(CallsOf(p.calls[..j]), p.calls[j].1)
                 case Done(v) => p.replies[i] == OpReply(ops[i].name, 0, Some(v))
                 case Raised(text) => p.replies[i] == OpReply(ops[i].name, -1, Some(Message(text)))
  {
    var b, p := Run(client, ops[..i]), Run(client, ops);
    StepOf(client, ops, i);
    RunIsAligned(client, ops);
    if Callable(client, b.context, ops[i]) {
      var j := |b.calls|;
      assert p.calls[j] == RunOp(client, b, ops[i]).1[j] && p.calls[..j] == b.calls;
      assert CallAt(p, i, j);
      forall k: nat | CallAt(p, i, k) ensures k == j {}
    } else {
      NotCalled(client, ops, i);
    }
  }

  // ---------------------------------------------------------------- the generated request

  /** Handler settings; `identifiers` are the user parameters other than `name`. */
  datatype Settings = Settings(
    domain: string, role: string, project: string, projectDomain: string, identifiers: map<string, Param>)

  /** An extra op is an op, a function producing one, or something else (logged and skipped). */
  datatype ExtraOp = Given(op: Op) | Computed(f: () -> Op) | Invalid

  function ExtraOps(extras: seq<ExtraOp>): seq<Op> {
    if extras == [] then []
    else
      ExtraOps(Front(extras)) +
      match Last(extras)
      case Given(op) => [op]
      case Computed(f) => [f()]
      case Invalid => []
  }

  lemma {:induction false} ExtraOpsJoin(a: seq<ExtraOp>, b: seq<ExtraOp>)
    ensures ExtraOps(a + b) == ExtraOps(a) + ExtraOps(b)
  {
    if b == [] {
      assert a + b == a;
    } else {
      ExtraOpsJoin(a, Front(b));
      assert Front(a + b) == a + Front(b) && Last(a + b) == Last(b);
      Assoc(ExtraOps(a), ExtraOps(Front(b)), ExtraOps([Last(b)]));
      assert Front([Last(b)]) == [] && Front(b) + [Last(b)] == b;
    }
  }

  /** Each extra op in its place: a dict as it is, a function's result, anything else skipped. */
  lemma ExtraOpsInPlace(before: seq<ExtraOp>, extra: ExtraOp, after: seq<ExtraOp>)
    ensures ExtraOps(before + [extra] + after) ==
            ExtraOps(before)
            + (match extra case Given(op) => [op] case Computed(f) => [f()] case Invalid => [])
            + ExtraOps(after)
  {
    ExtraOpsJoin(before + [extra], after);
    ExtraOpsJoin(before, [extra]);
    assert Front([extra]) == [];
  }

  function CreateDomainOp(s: Settings): Op {
    Op("create_domain", map["name" := Plain(s.domain), "enable" := Flag(true)])
  }

  function CreateRoleOp(s: Settings): Op {
    Op("create_role", map["name" := Plain(s.role)])
  }

  function CreateUserOp(s: Settings, username: string, secretId: string): Op {
    Op("create_user", map["name" := Plain(username), "password" := Plain(secretId)] + s.identifiers)
  }

  function DomainGrantOp(s: Settings, username: string): Op {
    Op("grant_role",
       map["role" := Plain(s.role)]
       + (if s.domain != "" then map["domain" := Plain(s.domain), "user_domain" := Plain(s.domain)] else map[])
       + (if s.projectDomain != "" then map["project_domain" := Plain(s.projectDomain)] else map[])
       + map["user" := Plain(username)])
  }

  function ShowProjectOp(s: Settings): Op {
    Op("show_project", map["name" := Plain(s.project),
                           "domain" := Plain(if s.projectDomain != "" then s.projectDomain else s.domain)])
  }

  function ProjectGrantOp(s: Settings): Op {
    Op("grant_role",
       map["project" := Ref("show_project", 0, "id"), "role" := Ref("create_role", 0, "id"),
           "user" := Ref("create_user", 0, "id"), "user_domain" := Ref("create_domain", 0, "id")]
       + (if s.projectDomain != "" then map["project_domain" := Ref("show_project", 0, "domain_id")] else map[]))
  }

  /** The request without its extra ops. */
  function OwnOps(s: Settings, username: string, secretId: string): seq<Op> {
    if s.role == "" then [CreateDomainOp(s), CreateUserOp(s, username, secretId)]
    else if s.project == "" then
      [CreateDomainOp(s), CreateRoleOp(s), CreateUserOp(s, username, secretId), DomainGrantOp(s, username)]
    else
      [CreateDomainOp(s), CreateRoleOp(s), CreateUserOp(s, username, secretId), DomainGrantOp(s, username),
       ShowProjectOp(s), ProjectGrantOp(s)]
  }

  method CreateRoleRequests(s: Settings, username: string) returns (requests: seq<Op>)
    ensures requests == if s.role == "" then []
                        else [DomainGrantOp(s, username)]
                             + (if s.project == "" then [] else [ShowProjectOp(s), ProjectGrantOp(s)])
  {
    requests := [];
    if s.role != "" {
      var params := map["role" := Plain(s.role)];
      if s.domain != "" {
        params := params["domain" := Plain(s.domain)];
        params := params["user_domain" := Plain(s.domain)];
      }
      if s.projectDomain != "" {
        params := params["project_domain" := Plain(s.projectDomain)];
      }
      params := params["user" := Plain(username)];
      assert params == DomainGrantOp(s, username).params;
      requests := requests + [Op("grant_role", params)];
      if s.project != "" {
        requests := requests + [ShowProjectOp(s)];
        params := map["project" := Ref("show_project", 0, "id"), "role" := Ref("create_role", 0, "id"),
                      "user" := Ref("create_user", 0, "id"), "user_domain" := Ref("create_domain", 0, "id")];
        if s.projectDomain != "" {
          params := params["project_domain" := Ref("show_project", 0, "domain_id")];
        }
        assert params == ProjectGrantOp(s).params;
        requests := requests + [Op("grant_role", params)];
      }
    }
  }

  method CreateUserRequest(s: Settings, username: string, secretId: string, extras: seq<ExtraOp>)
      returns (requests: seq<Op>)
    ensures requests == OwnOps(s, username, secretId) + ExtraOps(extras)
  {
    requests := [CreateDomainOp(s)];
    if s.role != "" {
      requests := requests + [CreateRoleOp(s)];
    }
    requests := requests + [CreateUserOp(s, username, secretId)];
    var roles := CreateRoleRequests(s, username);
    requests := requests + roles;
    for i := 0 to |extras|
      invariant requests == OwnOps(s, username, secretId) + ExtraOps(extras[..i])
    {
      assert Front(extras[..i + 1]) == extras[..i];
      match extras[i] {
        case Given(op) => requests := requests + [op];
        case Computed(f) => requests := requests + [f()];
        case Invalid =>
      }
    }
    assert extras[..|extras|] == extras;
  }

  /** Every reference in `ops` is to the first result of an op earlier in the list. */
  ghost predicate WellScoped(ops: seq<Op>) {
    forall k, key :: 0 <= k < |ops| && key in ops[k].params && ops[k].params[key].Ref? ==>
      ops[k].params[key].index == 0 && FirstOf(ops, ops[k].params[key].op) < k
  }

  predicate NoReferences(op: Op) {
    forall key :: key in op.params ==> !op.params[key].Ref?
  }

  /** For every choice of role, project, project domain and user parameters without references,
      the handler's own ops are well scoped, and appending extra ops does not capture them. */
  lemma GeneratedRequestIsWellScoped(s: Settings, username: string, secretId: string, extra: seq<Op>)
    requires forall key :: key in s.identifiers ==> !s.identifiers[key].Ref?
    ensures WellScoped(OwnOps(s, username, secretId))
    ensures var own := OwnOps(s, username, secretId);
            forall name :: FirstOf(own, name) < |own| ==> FirstOf(own + extra, name) == FirstOf(own, name)
  {
    var own := OwnOps(s, username, secretId);
    forall name | FirstOf(own, name) < |own| ensures FirstOf(own + extra, name) == FirstOf(own, name) {
      FirstOfAppend(own, extra, name);
    }
    OwnOpsAreScoped(s, username, secretId);
  }

  lemma OwnOpsAreScoped(s: Settings, username: string, secretId: string)
    requires forall key :: key in s.identifiers ==> !s.identifiers[key].Ref?
    ensures WellScoped(OwnOps(s, username, secretId))
  {
    var own := OwnOps(s, username, secretId);
    OnlyTheProjectGrantRefers(s, username, secretId);
    forall k, key | 0 <= k < |own| && key in own[k].params && own[k].params[key].Ref?
      ensures own[k].params[key].index == 0 && FirstOf(own, own[k].params[key].op) < k
    {
      assert !NoReferences(own[k]);
      assert s.role != "" && s.project != "" && k == 5;
      OwnFirsts(s, username, secretId);
      ProjectGrantRefers(s);
    }
  }

  lemma GrantRefersToNothing(s: Settings, username: string)
    ensures NoReferences(DomainGrantOp(s, username))
  {
  }

  lemma UserRefersToNothing(s: Settings, username: string, secretId: string)
    requires forall key :: key in s.identifiers ==> !s.identifiers[key].Ref?
    ensures NoReferences(CreateUserOp(s, username, secretId))
  {
  }

  lemma OwnOpsReferToNothing(s: Settings, username: string, secretId: string)
    requires forall key :: key in s.identifiers ==> !s.identifiers[key].Ref?
    ensures NoReferences(CreateDomainOp(s)) && NoReferences(CreateRoleOp(s)) && NoReferences(ShowProjectOp(s))
    ensures NoReferences(CreateUserOp(s, username, secretId)) && NoReferences(DomainGrantOp(s, username))
  {
    GrantRefersToNothing(s, username);
    UserRefersToNothing(s, username, secretId);
  }

  lemma OnlyTheProjectGrantRefers(s: Settings, username: string, secretId: string)
    requires forall key :: key in s.identifiers ==> !s.identifiers[key].Ref?
    ensures var own := OwnOps(s, username, secretId);
            forall k :: 0 <= k < |own| && (k < 5 || s.role == "" || s.project == "") ==> NoReferences(own[k])
  {
    OwnOpsReferToNothing(s, username, secretId);
  }

  lemma FirstOfAppend(ops: seq<Op>, more: seq<Op>, name: string)
    requires FirstOf(ops, name) < |ops|
    ensures FirstOf(ops + more, name) == FirstOf(ops, name)
  {
    var i := FirstOf(ops, name);
    assert forall m :: 0 <= m <= i ==> (ops + more)[m] == ops[m];
    FirstOfIs(ops + more, name, i);
  }

  lemma FirstOfIs(ops: seq<Op>, name: string, j: nat)
    requires j < |ops| && ops[j].name == name && forall i :: 0 <= i < j ==> ops[i].name != name
    ensures FirstOf(ops, name) == j
  {
  }

  lemma OwnFirsts(s: Settings, username: string, secretId: string)
    requires s.role != "" && s.project != ""
    ensures var own := OwnOps(s, username, secretId);
            && |own| == 6 && own[5] == ProjectGrantOp(s)
            && FirstOf(own, "create_domain") == 0 && FirstOf(own, "create_role") == 1
            && FirstOf(own, "create_user") == 2 && FirstOf(own, "show_project") == 4
  {
    var own := OwnOps(s, username, secretId);
    FirstOfIs(own, "create_domain", 0);
    FirstOfIs(own, "create_role", 1);
    FirstOfIs(own, "create_user", 2);
    FirstOfIs(own, "show_project", 4);
  }

  /** The arguments of the project grant, in terms of the results of this request's own ops. */
  predicate GrantsOwnResults(args: map<string, Arg>, s: Settings, domain: Value, role: Value, user: Value,
                             project: Value) {
    && args.Keys == ProjectGrantOp(s).params.Keys
    && args["project"] == Text(FieldOf(project, "id"))
    && args["role"] == Text(FieldOf(role, "id"))
    && args["user"] == Text(FieldOf(user, "id"))
    && args["user_domain"] == Text(FieldOf(domain, "id"))
    && ("project_domain" in args ==> args["project_domain"] == Text(FieldOf(project, "domain_id")))
  }

  lemma ProjectGrantRefers(s: Settings)
    ensures var params := ProjectGrantOp(s).params;
            forall key :: key in params ==>
              params[key].Ref? && params[key].index == 0
              && params[key].op in {"create_domain", "create_role", "create_user", "show_project"}
  {
  }

  lemma ProjectGrantParams(s: Settings)
    ensures var params := ProjectGrantOp(s).params;
            && "project" in params && params["project"] == Ref("show_project", 0, "id")
            && "role" in params && params["role"] == Ref("create_role", 0, "id")
            && "user" in params && params["user"] == Ref("create_user", 0, "id")
            && "user_domain" in params && params["user_domain"] == Ref("create_domain", 0, "id")
            && ("project_domain" in params ==> params["project_domain"] == Ref("show_project", 0, "domain_id"))
  {
  }

  lemma GrantCallAt5(client: Client, s: Settings, ops: seq<Op>)
    requires |ops| > 5 && ops[5] == ProjectGrantOp(s) && "grant_role" in client.methods
    requires FirstOf(ops, "create_domain") == 0 && FirstOf(ops, "create_role") == 1
             && FirstOf(ops, "create_user") == 2 && FirstOf(ops, "show_project") == 4
    ensures exists args :: (5, Call("grant_role", args)) in Run(client, ops).calls
              && GrantsOwnResults(args, s, ValueAt(client, ops, 0), ValueAt(client, ops, 1),
                                  ValueAt(client, ops, 2), ValueAt(client, ops, 4))
  {
    ProjectGrantRefers(s);
    ArgsAreFirstResults(client, ops, 5);
    CallOfOp(client, ops, 5);
    var args := ArgsOf(Run(client, ops[..5]).context, ops[5]);
    assert args.Keys == ops[5].params.Keys;
    ArgsGrantOwnResults(client, s, ops, args);
  }

  lemma ArgsGrantOwnResults(client: Client, s: Settings, ops: seq<Op>, args: map<string, Arg>)
    requires |ops| > 5 && args.Keys == ProjectGrantOp(s).params.Keys
    requires FirstOf(ops, "create_domain") == 0 && FirstOf(ops, "create_role") == 1
             && FirstOf(ops, "create_user") == 2 && FirstOf(ops, "show_project") == 4
    requires forall key :: key in args ==>
               var p := ProjectGrantOp(s).params[key];
               p.Ref? && FirstOf(ops, p.op) < |ops|
               && args[key] == Text(FieldOf(ValueAt(client, ops, FirstOf(ops, p.op)), p.field))
    ensures GrantsOwnResults(args, s, ValueAt(client, ops, 0), ValueAt(client, ops, 1),
                             ValueAt(client, ops, 2), ValueAt(client, ops, 4))
  {
    ProjectGrantParams(s);
  }

  lemma ArgsAreFirstResults(client: Client, ops: seq<Op>, k: nat)
    requires k < |ops|
    requires forall key :: key in ops[k].params ==>
               ops[k].params[key].Ref? && ops[k].params[key].index == 0 && FirstOf(ops, ops[k].params[key].op) < k
    ensures forall key :: key in ops[k].params ==>
              var p := ops[k].params[key];
              && Renders(Run(client, ops[..k]).context, p)
              && Render(Run(client, ops[..k]).context, p)
                 == Text(FieldOf(ValueAt(client, ops, FirstOf(ops, p.op)), p.field))
  {
    forall key | key in ops[k].params
      ensures var p := ops[k].params[key];
              && Renders(Run(client, ops[..k]).context, p)
              && Render(Run(client, ops[..k]).context, p)
                 == Text(FieldOf(ValueAt(client, ops, FirstOf(ops, p.op)), p.field))
    {
      ReferenceMeansFirst(client, ops, k, ops[k].params[key]);
    }
  }

  // ---------------------------------------------------------------- with secrets filled in

  lemma SanitizedOp(secrets: map<string, map<string, string>>, op: Op)
    ensures var clean := Sanitized(secrets, op);
            && clean.name == op.name && clean.params.Keys == op.params.Keys
            && forall key :: key in op.params ==>
                 && (op.params[key].Ref? ==> clean.params[key] == op.params[key])
                 && (clean.params[key].Ref? ==> op.params[key].Ref?)
  {
  }

  lemma {:induction false} SanitizedFirsts(secrets: map<string, map<string, string>>, ops: seq<Op>, name: string)
    ensures FirstOf(SanitizedAll(secrets, ops), name) == FirstOf(ops, name)
  {
    var clean := SanitizedAll(secrets, ops);
    var j := FirstOf(ops, name);
    forall i | 0 <= i < |ops| ensures clean[i].name == ops[i].name {
      SanitizedOp(secrets, ops[i]);
    }
    if j < |ops| {
      FirstOfIs(clean, name, j);
    }
  }

  /** Filling in secrets neither adds nor changes a reference, nor what it refers to. */
  lemma SanitizedIsWellScopedIff(secrets: map<string, map<string, string>>, ops: seq<Op>)
    ensures WellScoped(SanitizedAll(secrets, ops)) <==> WellScoped(ops)
  {
    var clean := SanitizedAll(secrets, ops);
    forall k, key | 0 <= k < |ops| && key in ops[k].params && (ops[k].params[key].Ref? || clean[k].params[key].Ref?)
      ensures key in clean[k].params && clean[k].params[key] == ops[k].params[key]
      ensures FirstOf(clean, ops[k].params[key].op) == FirstOf(ops, ops[k].params[key].op)
    {
      SanitizedOp(secrets, ops[k]);
      SanitizedFirsts(secrets, ops, ops[k].params[key].op);
    }
    forall k | 0 <= k < |ops| ensures clean[k].params.Keys == ops[k].params.Keys {
      SanitizedOp(secrets, ops[k]);
    }
  }

  lemma SanitizedGrant(secrets: map<string, map<string, string>>, s: Settings)
    ensures Sanitized(secrets, ProjectGrantOp(s)) == ProjectGrantOp(s)
  {
    var op := ProjectGrantOp(s);
    ProjectGrantRefers(s);
    SanitizedOp(secrets, op);
    assert Sanitized(secrets, op).params == op.params;
  }

  /** Generation and interpretation fit together: whatever the client does, whatever secrets are filled
      in and whatever extra ops follow, the project grant is called with the ids of this request's own
      project, role, user and domain. */
  lemma ProjectGrantNamesTheNewUser(client: Client, secrets: map<string, map<string, string>>, s: Settings,
                                    username: string, secretId: string, extra: seq<Op>)
    requires s.role != "" && s.project != "" && "grant_role" in client.methods
    ensures var ops := SanitizedAll(secrets, OwnOps(s, username, secretId) + extra);
            exists args :: (5, Call("grant_role", args)) in Run(client, ops).calls
              && GrantsOwnResults(args, s, ValueAt(client, ops, 0), ValueAt(client, ops, 1),
                                  ValueAt(client, ops, 2), ValueAt(client, ops, 4))
  {
    var own := OwnOps(s, username, secretId);
    var ops := own + extra;
    var clean := SanitizedAll(secrets, ops);
    OwnFirsts(s, username, secretId);
    forall name | name in {"create_domain", "create_role", "create_user", "show_project"}
      ensures FirstOf(clean, name) == FirstOf(own, name)
    {
      FirstOfAppend(own, extra, name);
      SanitizedFirsts(secrets, ops, name);
    }
    SanitizedGrant(secrets, s);
    assert ops[5] == ProjectGrantOp(s) && clean[5] == Sanitized(secrets, ops[5]);
    GrantCallAt5(client, s, clean);
  }

  /** From the handler's settings to keystone's calls: the generated request, run by the interpreter with
      secrets filled in, grants the role to the user it has just created. */
  method GenerateAndHandle(client: Client, secrets: map<string, map<string, string>>, s: Settings, username: string,
                           secretId: string, extras: seq<ExtraOp>)
      returns (replies: seq<OpReply>, calls: seq<(nat, Call)>)
    requires s.role != "" && s.project != "" && "grant_role" in client.methods
    ensures |replies| >= 6 && forall i :: 0 <= i < 6 ==> replies[i].value.Some?
    ensures exists args :: (5, Call("grant_role", args)) in calls
              && GrantsOwnResults(args, s, replies[0].value.value, replies[1].value.value, replies[2].value.value,
                                  replies[4].value.value)
  {
    var ops := CreateUserRequest(s, username, secretId, extras);
    ProjectGrantNamesTheNewUser(client, secrets, s, username, secretId, ExtraOps(extras));
    replies, calls := HandleOpRequest(client, secrets, ops);
  }

  // ---------------------------------------------------------------- the calls of a generated request

  /** The `k`-th op was called, with exactly these arguments. */
  ghost predicate CalledWith(p: Progress, k: nat, name: string, args: map<string, Arg>) {
    exists j: nat :: CallAt(p, k, j) && p.calls[j].1 == Call(name, args)
  }

  /** No parameter of the op is taken for a secret. */
  predicate NoSecrets(op: Op) {
    forall key :: key in op.params && op.params[key].Plain? ==> !StartsWith(op.params[key].text, "secret://")
  }

  lemma SanitizedPlain(secrets: map<string, map<string, string>>, op: Op)
    requires NoSecrets(op)
    ensures Sanitized(secrets, op) == op
  {
    assert Sanitized(secrets, op).params == op.params;
  }

  predicate IsPlainText(s: string) { !StartsWith(s, "secret://") }

  predicate IsSetting(p: Param) { !p.Ref? && (p.Plain? ==> IsPlainText(p.text)) }

  function AsPassed(op: Op): map<string, Arg>
    requires NoReferences(op)
  {
    map key | key in op.params :: AsArg(op.params[key])
  }

  function AsArg(p: Param): Arg {
    match p case Plain(text) => Text(text) case Flag(b) => Bool(b) case _ => Nothing
  }

  /** An op without references is called with its parameters as they are. */
  lemma PlainCall(client: Client, ops: seq<Op>, k: nat)
    requires k < |ops| && ops[k].name in client.methods && NoReferences(ops[k])
    ensures CalledWith(Run(client, ops), k, ops[k].name, AsPassed(ops[k]))
  {
    var p, args := Run(client, ops), AsPassed(ops[k]);
    CalledExactly(client, ops, k);
    var j: nat :| CallAt(p, k, j);
    forall key | key in args ensures p.calls[j].1.args[key] == args[key] {
      assert PassedAs(client, ops, k, ops[k].params[key], p.calls[j].1.args[key]);
    }
    assert p.calls[j].1.args == args;
  }

  /** The same in a request with secrets filled in, if `op` is what becomes of the `k`-th. */
  lemma SanitizedCall(client: Client, secrets: map<string, map<string, string>>, ops: seq<Op>, k: nat, op: Op)
    requires k < |ops| && op == Sanitized(secrets, ops[k]) && op.name in client.methods && NoReferences(op)
    ensures CalledWith(Run(client, SanitizedAll(secrets, ops)), k, op.name, AsPassed(op))
  {
    PlainCall(client, SanitizedAll(secrets, ops), k);
  }

  /** The request with its own ops in front: what is where. */
  lemma OwnOpsAt(s: Settings, username: string, secretId: string, extra: seq<Op>)
    ensures var ops := OwnOps(s, username, secretId) + extra;
            && |ops| >= 2 && ops[0] == CreateDomainOp(s)
            && (s.role == "" ==> ops[1] == CreateUserOp(s, username, secretId))
            && (s.role != "" ==> |ops| >= 4 && ops[1] == CreateRoleOp(s)
                                 && ops[2] == CreateUserOp(s, username, secretId)
                                 && ops[3] == DomainGrantOp(s, username))
            && (s.role != "" && s.project != "" ==> |ops| >= 6 && ops[4] == ShowProjectOp(s))
  {
  }

  lemma SanitizedUserParams(secrets: map<string, map<string, string>>, s: Settings, username: string, secretId: string)
    requires IsPlainText(username) && StartsWith(secretId, "secret://") && secretId in secrets
    requires "password" in secrets[secretId]
    requires forall key :: key in s.identifiers ==> key !in {"name", "password"} && IsSetting(s.identifiers[key])
    ensures var params := Sanitized(secrets, CreateUserOp(s, username, secretId)).params;
            && params.Keys == {"name", "password"} + s.identifiers.Keys
            && params["name"] == Plain(username) && params["password"] == Plain(secrets[secretId]["password"])
            && forall key :: key in s.identifiers ==> params[key] == s.identifiers[key]
  {
  }

  lemma UserArgs(op: Op, username: string, password: string, identifiers: map<string, Param>)
    requires op.params.Keys == {"name", "password"} + identifiers.Keys
    requires op.params["name"] == Plain(username) && op.params["password"] == Plain(password)
    requires forall key :: key in identifiers ==>
               key !in {"name", "password"} && !identifiers[key].Ref? && op.params[key] == identifiers[key]
    ensures NoReferences(op)
    ensures AsPassed(op) == map["name" := Text(username), "password" := Text(password)]
                            + map key | key in identifiers :: AsArg(identifiers[key])
  {
  }

  lemma CreateUserPassed(secrets: map<string, map<string, string>>, s: Settings, username: string, secretId: string,
                         password: string)
    requires IsPlainText(username) && StartsWith(secretId, "secret://") && secretId in secrets
    requires "password" in secrets[secretId] && secrets[secretId]["password"] == password
    requires forall key :: key in s.identifiers ==> key !in {"name", "password"} && IsSetting(s.identifiers[key])
    ensures var op := Sanitized(secrets, CreateUserOp(s, username, secretId));
            && op.name == "create_user" && NoReferences(op)
            && AsPassed(op) == map["name" := Text(username), "password" := Text(password)]
                               + map key | key in s.identifiers :: AsArg(s.identifiers[key])
  {
    SanitizedUserParams(secrets, s, username, secretId);
    UserArgs(Sanitized(secrets, CreateUserOp(s, username, secretId)), username, password, s.identifiers);
  }

  /** The user is created under the generated name, with the password that the secret holds, and with the
      handler's other settings. */
  lemma UserIsCreated(client: Client, secrets: map<string, map<string, string>>, s: Settings, username: string,
                      secretId: string, password: string, extra: seq<Op>)
    requires "create_user" in client.methods && IsPlainText(username)
    requires StartsWith(secretId, "secret://") && secretId in secrets
    requires "password" in secrets[secretId] && secrets[secretId]["password"] == password
    requires forall key :: key in s.identifiers ==> key !in {"name", "password"} && IsSetting(s.identifiers[key])
    ensures CalledWith(Run(client, SanitizedAll(secrets, OwnOps(s, username, secretId) + extra)),
                       if s.role == "" then 1 else 2, "create_user",
                       map["name" := Text(username), "password" := Text(password)]
                       + map key | key in s.identifiers :: AsArg(s.identifiers[key]))
  {
    OwnOpsAt(s, username, secretId, extra);
    CreateUserPassed(secrets, s, username, secretId, password);
    SanitizedCall(client, secrets, OwnOps(s, username, secretId) + extra, if s.role == "" then 1 else 2,
                  Sanitized(secrets, CreateUserOp(s, username, secretId)));
  }

  lemma CreateDomainPassed(s: Settings)
    requires IsPlainText(s.domain)
    ensures var op := CreateDomainOp(s);
            && op.name == "create_domain" && NoSecrets(op) && NoReferences(op)
            && AsPassed(op) == map["name" := Text(s.domain), "enable" := Bool(true)]
  {
  }

  lemma CreateRolePassed(s: Settings)
    requires IsPlainText(s.role)
    ensures var op := CreateRoleOp(s);
            && op.name == "create_role" && NoSecrets(op) && NoReferences(op)
            && AsPassed(op) == map["name" := Text(s.role)]
  {
  }

  /** The domain is created enabled, and the role under its name. */
  lemma DomainAndRoleAreCreated(client: Client, secrets: map<string, map<string, string>>, s: Settings,
                                username: string, secretId: string, extra: seq<Op>)
    requires {"create_domain", "create_role"} <= client.methods && IsPlainText(s.domain) && IsPlainText(s.role)
    ensures var p := Run(client, SanitizedAll(secrets, OwnOps(s, username, secretId) + extra));
            && CalledWith(p, 0, "create_domain", map["name" := Text(s.domain), "enable" := Bool(true)])
            && (s.role != "" ==> CalledWith(p, 1, "create_role", map["name" := Text(s.role)]))
  {
    var ops := OwnOps(s, username, secretId) + extra;
    OwnOpsAt(s, username, secretId, extra);
    CreateDomainPassed(s);
    SanitizedPlain(secrets, CreateDomainOp(s));
    SanitizedCall(client, secrets, ops, 0, CreateDomainOp(s));
    if s.role != "" {
      CreateRolePassed(s);
      SanitizedPlain(secrets, CreateRoleOp(s));
      SanitizedCall(client, secrets, ops, 1, CreateRoleOp(s));
    }
  }

  /** The arguments of the domain grant: `name` under `key` unless it is not set. */
  predicate IsDomainGrant(args: map<string, Arg>, s: Settings, username: string) {
    && args.Keys == {"role", "user"} + (if s.domain == "" then {} else {"domain", "user_domain"})
                    + (if s.projectDomain == "" then {} else {"project_domain"})
    && args["role"] == Text(s.role) && args["user"] == Text(username)
    && (s.domain != "" ==> args["domain"] == Text(s.domain) && args["user_domain"] == Text(s.domain))
    && (s.projectDomain != "" ==> args["project_domain"] == Text(s.projectDomain))
  }

  lemma DomainGrantKeys(s: Settings, username: string)
    ensures DomainGrantOp(s, username).params.Keys ==
            {"role", "user"} + (if s.domain == "" then {} else {"domain", "user_domain"})
            + (if s.projectDomain == "" then {} else {"project_domain"})
  {
  }

  lemma DomainGrantValues(s: Settings, username: string)
    ensures var params := DomainGrantOp(s, username).params;
            && (forall key :: key in params ==>
                  params[key].Plain? && params[key].text in {s.role, username, s.domain, s.projectDomain})
            && params["role"] == Plain(s.role) && params["user"] == Plain(username)
            && (s.domain != "" ==> params["domain"] == Plain(s.domain) && params["user_domain"] == Plain(s.domain))
            && (s.projectDomain != "" ==> params["project_domain"] == Plain(s.projectDomain))
  {
  }

  lemma DomainGrantPassed(s: Settings, username: string)
    requires IsPlainText(s.domain) && IsPlainText(s.role) && IsPlainText(s.projectDomain) && IsPlainText(username)
    ensures var op := DomainGrantOp(s, username);
            op.name == "grant_role" && NoSecrets(op) && NoReferences(op) && IsDomainGrant(AsPassed(op), s, username)
  {
    DomainGrantKeys(s, username);
    DomainGrantValues(s, username);
    assert AsPassed(DomainGrantOp(s, username)).Keys == DomainGrantOp(s, username).params.Keys;
  }

  /** The role is granted to the new user on the domain, by name, leaving out what is not set. */
  lemma DomainGrantIsCalled(client: Client, secrets: map<string, map<string, string>>, s: Settings, username: string,
                            secretId: string, extra: seq<Op>)
    requires "grant_role" in client.methods && s.role != "" && IsPlainText(username)
    requires IsPlainText(s.domain) && IsPlainText(s.role) && IsPlainText(s.projectDomain)
    ensures var p := Run(client, SanitizedAll(secrets, OwnOps(s, username, secretId) + extra));
            exists args :: IsDomainGrant(args, s, username) && CalledWith(p, 3, "grant_role", args)
  {
    OwnOpsAt(s, username, secretId, extra);
    var op := DomainGrantOp(s, username);
    DomainGrantPassed(s, username);
    SanitizedPlain(secrets, op);
    SanitizedCall(client, secrets, OwnOps(s, username, secretId) + extra, 3, op);
  }

  lemma ShowProjectPassed(s: Settings)
    requires IsPlainText(s.domain) && IsPlainText(s.project) && IsPlainText(s.projectDomain)
    ensures var op := ShowProjectOp(s);
            && op.name == "show_project" && NoSecrets(op) && NoReferences(op)
            && AsPassed(op) == map["name" := Text(s.project),
                                   "domain" := Text(if s.projectDomain == "" then s.domain else s.projectDomain)]
  {
  }

  /** The project is looked up in its own domain, or in the user's. */
  lemma ProjectIsLookedUp(client: Client, secrets: map<string, map<string, string>>, s: Settings, username: string,
                          secretId: string, extra: seq<Op>)
    requires "show_project" in client.methods && s.role != "" && s.project != ""
    requires IsPlainText(s.domain) && IsPlainText(s.project) && IsPlainText(s.projectDomain)
    ensures CalledWith(Run(client, SanitizedAll(secrets, OwnOps(s, username, secretId) + extra)), 4, "show_project",
                       map["name" := Text(s.project),
                           "domain" := Text(if s.projectDomain == "" then s.domain else s.projectDomain)])
  {
    OwnOpsAt(s, username, secretId, extra);
    ShowProjectPassed(s);
    SanitizedPlain(secrets, ShowProjectOp(s));
    SanitizedCall(client, secrets, OwnOps(s, username, secretId) + extra, 4, ShowProjectOp(s));
  }
}
