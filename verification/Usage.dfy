/**
 * Token usage and dispatch time, rolled up from the messages of a pipeline: one grand total per version, and one
 * bucket per phase, each split by model. Every counter is read through one `Reading`, so that a law about all of them,
 * each model's tokens included, is one equation between numbers.
 */
module Usage {
  import opened Prelude

  /** The key of a model or of a phase. */
  datatype Name = Name(text: string)

  datatype Tokens = Tokens(input: nat, output: nat)
  type ByModel = map<Name, Tokens>

  const UNKNOWN_MODEL := Name("_unknown")

  /** What the roll-up reads of one pipeline message; a payload field that is absent or null counts as zero. */
  datatype Message = Message(
    hasUsage: bool, hasTiming: bool, stage: Name, phaseStamp: Option<Name>,
    input: nat, output: nat, seconds: real, attempts: nat, model: Option<Name>)

  /** One counter of a `UsageTotals`. */
  datatype Reading = Input | Output | Seconds | Messages | Attempts | ModelInput(model: Name) | ModelOutput(model: Name)

  /** The messages a total is about: a whole version, or one phase of it. */
  datatype Scope = Version | Phase(phase: Name)

  predicate Metered(msg: Message) {
    msg.hasUsage || msg.hasTiming
  }

  /** The phase a message is charged to: its stamp, else its stage. */
  function PhaseOf(msg: Message): Name {
    if msg.phaseStamp.Some? then msg.phaseStamp.value else msg.stage
  }

  function ModelKey(msg: Message): Name {
    if msg.model.Some? && msg.model.value.text != "" then msg.model.value else UNKNOWN_MODEL
  }

  predicate In(msg: Message, scope: Scope) {
    Metered(msg) && (scope == Version || scope == Phase(PhaseOf(msg)))
  }

  /** What one message adds to a counter. */
  function Of(msg: Message, r: Reading): real {
    match r
    case Input => msg.input as real
    case Output => msg.output as real
    case Seconds => msg.seconds
    case Messages => 1.0
    case Attempts => msg.attempts as real
    case ModelInput(m) => if m == ModelKey(msg) then msg.input as real else 0.0
    case ModelOutput(m) => if m == ModelKey(msg) then msg.output as real else 0.0
  }

  /** The counter over every metered message in scope. */
  function Sum(messages: seq<Message>, scope: Scope, r: Reading): real {
    if messages == [] then 0.0
    else
      var n := |messages| - 1;
      Sum(messages[..n], scope, r) + (if In(messages[n], scope) then Of(messages[n], r) else 0.0)
  }

  function PhasesOf(messages: seq<Message>): set<Name> {
    set i | 0 <= i < |messages| && Metered(messages[i]) :: PhaseOf(messages[i])
  }

  // ---------------------------------------------------------------- footing

  predicate Distinct(order: seq<Name>) {
    forall i, j :: 0 <= i < j < |order| ==> order[i] != order[j]
  }

  /** The counter of the listed phases together. */
  function SumPhases(messages: seq<Message>, order: seq<Name>, r: Reading): real {
    if order == [] then 0.0
    else SumPhases(messages, order[..|order| - 1], r) + Sum(messages, Phase(order[|order| - 1]), r)
  }

  lemma SumSnoc(messages: seq<Message>, msg: Message, scope: Scope, r: Reading)
    ensures Sum(messages + [msg], scope, r) == Sum(messages, scope, r) + (if In(msg, scope) then Of(msg, r) else 0.0)
  {
    assert (messages + [msg])[..|messages|] == messages;
  }

  /**
   * One message by its fields: it counts if it carries usage or timing, in the whole version and in one phase, that of
   * its stamp, or its stage if it has none; its tokens are those of its model, or of `_unknown` if it names none.
   */
  lemma OneMessage(msg: Message, p: Name, m: Name)
    ensures
      var counts := msg.hasUsage || msg.hasTiming;
      var inPhase := counts && p == (match msg.phaseStamp case Some(stamp) => stamp case None => msg.stage);
      && Sum([msg], Version, Input) == (if counts then msg.input as real else 0.0)
      && Sum([msg], Version, Output) == (if counts then msg.output as real else 0.0)
      && Sum([msg], Phase(p), Input) == (if inPhase then msg.input as real else 0.0)
      && Sum([msg], Phase(p), Output) == (if inPhase then msg.output as real else 0.0)
      && Sum([msg], Phase(p), Seconds) == (if inPhase then msg.seconds else 0.0)
      && Sum([msg], Phase(p), Attempts) == (if inPhase then msg.attempts as real else 0.0)
      && Sum([msg], Phase(p), Messages) == (if inPhase then 1.0 else 0.0)
      && (p in PhasesOf([msg]) <==> inPhase)
    ensures
      var counts := msg.hasUsage || msg.hasTiming;
      var named := msg.model.Some? && msg.model.value.text != "";
      var own := counts && (if named then msg.model == Some(m) else m.text == "_unknown");
      && Sum([msg], Version, ModelInput(m)) == (if own then msg.input as real else 0.0)
      && Sum([msg], Version, ModelOutput(m)) == (if own then msg.output as real else 0.0)
  {
    SumSnoc([], msg, Version, Input);
    assert [] + [msg] == [msg] && [msg][..0] == [];
    assert [msg][0] == msg;
  }

  /** A message adds to the bucket of its own phase, once, and to no other. */
  lemma {:induction false} OneBucket(messages: seq<Message>, msg: Message, order: seq<Name>, r: Reading)
    requires Distinct(order)
    ensures SumPhases(messages + [msg], order, r)
         == SumPhases(messages, order, r) + (if Metered(msg) && PhaseOf(msg) in order then Of(msg, r) else 0.0)
  {
    if order != [] {
      var n := |order| - 1;
      OneBucket(messages, msg, order[..n], r);
      SumSnoc(messages, msg, Phase(order[n]), r);
      assert order == order[..n] + [order[n]];
      assert Metered(msg) && PhaseOf(msg) == order[n] ==> PhaseOf(msg) !in order[..n];
    }
  }

  /**
   * Footing: for any messages, the phase buckets, listed in any order, add up to the version's grand total in every
   * counter, each model's tokens included.
   */
  lemma {:induction false} BucketsFoot(messages: seq<Message>, order: seq<Name>, r: Reading)
    requires Distinct(order) && forall p :: p in PhasesOf(messages) ==> p in order
    ensures SumPhases(messages, order, r) == Sum(messages, Version, r)
  {
    if messages == [] {
      NoMessages(order, r);
    } else {
      var n := |messages| - 1;
      assert messages == messages[..n] + [messages[n]];
      forall p | p in PhasesOf(messages[..n]) ensures p in order {
        var i :| 0 <= i < n && Metered(messages[i]) && p == PhaseOf(messages[i]);
        assert PhaseOf(messages[i]) in PhasesOf(messages);
      }
      BucketsFoot(messages[..n], order, r);
      OneBucket(messages[..n], messages[n], order, r);
      assert Metered(messages[n]) ==> PhaseOf(messages[n]) in PhasesOf(messages);
    }
  }

  lemma {:induction false} NoMessages(order: seq<Name>, r: Reading)
    ensures SumPhases([], order, r) == 0.0
  {
    if order != [] {
      NoMessages(order[..|order| - 1], r);
    }
  }

  /** Rolling up two message lists together is adding their roll-ups. */
  lemma {:induction false} SumAppend(a: seq<Message>, b: seq<Message>, scope: Scope, r: Reading)
    ensures Sum(a + b, scope, r) == Sum(a, scope, r) + Sum(b, scope, r)
  {
    if b == [] {
      assert a + b == a;
    } else {
      var n := |b| - 1;
      assert (a + b)[..|a| + n] == a + b[..n];
      SumAppend(a, b[..n], scope, r);
    }
  }

  // ---------------------------------------------------------------- the accumulators

  function TokensOf(m: ByModel, model: Name): Tokens {
    if model in m then m[model] else Tokens(0, 0)
  }

  /** The mutable `UsageTotals` accumulator. */
  class UsageTotals {
    var input: nat
    var output: nat
    var seconds: real
    var messages: nat
    var attempts: nat
    var byModel: ByModel

    function Get(r: Reading): real
      reads this
    {
      match r
      case Input => input as real
      case Output => output as real
      case Seconds => seconds
      case Messages => messages as real
      case Attempts => attempts as real
      case ModelInput(m) => TokensOf(byModel, m).input as real
      case ModelOutput(m) => TokensOf(byModel, m).output as real
    }

    constructor ()
      ensures forall r :: Get(r) == 0.0
    {
      input, output, seconds, messages, attempts, byModel := 0, 0, 0.0, 0, 0, map[];
    }

    method AddTokens(key: Name, more: Tokens)
      modifies this`byModel
      ensures forall m :: m != key ==> TokensOf(byModel, m) == TokensOf(old(byModel), m)
      ensures TokensOf(byModel, key).input == TokensOf(old(byModel), key).input + more.input
      ensures TokensOf(byModel, key).output == TokensOf(old(byModel), key).output + more.output
    {
      if key !in byModel {
        byModel := byModel[key := Tokens(0, 0)];
      }
      var t := byModel[key];
      byModel := byModel[key := Tokens(t.input + more.input, t.output + more.output)];
    }

    method Add(msg: Message)
      modifies this
      ensures forall r :: Get(r) == old(Get(r)) + Of(msg, r)
    {
      input, output, seconds := input + msg.input, output + msg.output, seconds + msg.seconds;
      messages, attempts := messages + 1, attempts + msg.attempts;
      AddTokens(ModelKey(msg), Tokens(msg.input, msg.output));
    }

    /** `merge` of another accumulator, or of itself. */
    method Merge(other: UsageTotals)
      modifies this
      ensures forall r :: Get(r) == old(Get(r)) + old(other.Get(r))
    {
      var theirs := other.byModel;
      input, output, seconds := input + other.input, output + other.output, seconds + other.seconds;
      messages, attempts := messages + other.messages, attempts + other.attempts;
      MergeModels(theirs);
    }

    method MergeModels(theirs: ByModel)
      modifies this`byModel
      ensures forall m ::
        && TokensOf(byModel, m).input == TokensOf(old(byModel), m).input + TokensOf(theirs, m).input
        && TokensOf(byModel, m).output == TokensOf(old(byModel), m).output + TokensOf(theirs, m).output
    {
      var rest := theirs.Keys;
      while rest != {}
        invariant rest <= theirs.Keys
        invariant forall m :: m in rest || m !in theirs ==> TokensOf(byModel, m) == TokensOf(old(byModel), m)
        invariant forall m :: m !in rest ==>
          && TokensOf(byModel, m).input == TokensOf(old(byModel), m).input + TokensOf(theirs, m).input
          && TokensOf(byModel, m).output == TokensOf(old(byModel), m).output + TokensOf(theirs, m).output
        decreases rest
      {
        var m :| m in rest;
        AddTokens(m, theirs[m]);
        rest := rest - {m};
      }
    }
  }

  method AggregatePipelineUsage(messages: seq<Message>) returns (total: UsageTotals)
    ensures fresh(total) && forall r :: total.Get(r) == Sum(messages, Version, r)
  {
    total := new UsageTotals();
    for i := 0 to |messages|
      invariant fresh(total) && forall r :: total.Get(r) == Sum(messages[..i], Version, r)
    {
      assert messages[..i + 1][..i] == messages[..i];
      if Metered(messages[i]) {
        total.Add(messages[i]);
      }
    }
    assert messages[..|messages|] == messages;
  }

  /** No two phases share a bucket object. */
  ghost predicate Apart(buckets: map<Name, UsageTotals>) {
    forall p, q :: p in buckets && q in buckets && p != q ==> buckets[p] != buckets[q]
  }

  ghost predicate Holds(buckets: map<Name, UsageTotals>, messages: seq<Message>)
    reads buckets.Values
  {
    && buckets.Keys == PhasesOf(messages)
    && forall p, r :: p in buckets ==> buckets[p].Get(r) == Sum(messages, Phase(p), r)
  }

  lemma {:induction false} AbsentPhase(messages: seq<Message>, phase: Name, r: Reading)
    requires phase !in PhasesOf(messages)
    ensures Sum(messages, Phase(phase), r) == 0.0
  {
    if messages != [] {
      var n := |messages| - 1;
      AbsentPhase(messages[..n], phase, r);
      assert Metered(messages[n]) ==> PhaseOf(messages[n]) in PhasesOf(messages);
    }
  }

  lemma PhasesSnoc(messages: seq<Message>, msg: Message)
    ensures PhasesOf(messages + [msg]) == PhasesOf(messages) + (if Metered(msg) then {PhaseOf(msg)} else {})
  {
    var longer := messages + [msg];
    forall p | p in PhasesOf(messages) ensures p in PhasesOf(longer) {
      var i :| 0 <= i < |messages| && Metered(messages[i]) && p == PhaseOf(messages[i]);
      assert longer[i] == messages[i];
    }
    assert longer[|messages|] == msg;
  }

  method AggregateUsageByPhase(messages: seq<Message>) returns (byPhase: map<Name, UsageTotals>)
    ensures forall p :: p in byPhase ==> fresh(byPhase[p])
    ensures Apart(byPhase) && Holds(byPhase, messages)
  {
    byPhase := map[];
    for i := 0 to |messages|
      invariant forall p :: p in byPhase ==> fresh(byPhase[p])
      invariant Apart(byPhase) && Holds(byPhase, messages[..i])
    {
      ghost var before := messages[..i];
      var msg := messages[i];
      assert messages[..i + 1] == before + [msg] && (before + [msg])[..i] == before;
      PhasesSnoc(before, msg);
      if Metered(msg) {
        var phase := PhaseOf(msg);
        if phase !in byPhase {
          var bucket := new UsageTotals();
          forall r ensures Sum(before, Phase(phase), r) == 0.0 {
            AbsentPhase(before, phase, r);
          }
          byPhase := byPhase[phase := bucket];
        }
        byPhase[phase].Add(msg);
      }
    }
    assert messages[..|messages|] == messages;
  }
}
