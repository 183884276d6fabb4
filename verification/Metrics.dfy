/**
 * Agent-versus-human cost of a project: aggregated token counts are priced per model, human effort is estimated per
 * phase, and any figure that depends on something unconfigured is absent.
 *
 * The reference is message by message: `AgentCost` and `HumanCost` price each metered message on its own. What the
 * service computes from merged buckets, per version and cumulatively, is proved equal to that.
 */
module Metrics {
  import opened Prelude
  import opened Usage

  const PRIPRAVA := Name("priprava")
  const NAVRH := Name("navrh")
  const PROGRAMOVANIE := Name("programovanie")
  const VERIFIKACIA := Name("verifikacia")

  /** The build phases compared against a human, in canonical order. */
  const COMPARISON_PHASES: seq<Name> := [PRIPRAVA, NAVRH, PROGRAMOVANIE, VERIFIKACIA]

  datatype Family = Opus | Sonnet | Haiku | UnknownFamily

  /** Prices per million tokens, and per phase the minutes a human needs per million tokens and the hourly wage. */
  datatype Config = Config(
    family: Name -> Family,
    familyIn: Family -> real, familyOut: Family -> real,
    flatIn: real, flatOut: real,
    minutes: Name -> real, wage: Name -> real)

  datatype Side = TokensIn | TokensOut

  /** The family's own pair when both of its prices are set, else the flat pair. */
  function ResolvePrice(c: Config, family: Family): (real, real) {
    if family != UnknownFamily && c.familyIn(family) > 0.0 && c.familyOut(family) > 0.0
    then (c.familyIn(family), c.familyOut(family))
    else (c.flatIn, c.flatOut)
  }

  predicate Priced(c: Config, model: Name) {
    var (pin, pout) := ResolvePrice(c, c.family(model));
    pin > 0.0 && pout > 0.0
  }

  /** The price of one token; a model without a price has none. */
  function Rate(c: Config, model: Name, side: Side): real {
    if !Priced(c, model) then 0.0
    else
      var (pin, pout) := ResolvePrice(c, c.family(model));
      if side == TokensIn then pin else pout
  }

  function Amount(msg: Message, side: Side): real {
    if side == TokensIn then msg.input as real else msg.output as real
  }

  function ModelReading(model: Name, side: Side): Reading {
    if side == TokensIn then ModelInput(model) else ModelOutput(model)
  }

  predicate Bearing(msg: Message) {
    msg.input > 0 || msg.output > 0
  }

  // ---------------------------------------------------------------- the reference: message by message

  /** The price of one message, if it is in scope. */
  function Own(c: Config, msg: Message, scope: Scope, side: Side): real {
    if In(msg, scope) then Amount(msg, side) * Rate(c, ModelKey(msg), side) else 0.0
  }

  /** The price of the messages in scope, each priced on its own. */
  function Value(c: Config, messages: seq<Message>, scope: Scope, side: Side): real {
    if messages == [] then 0.0
    else
      var n := |messages| - 1;
      Value(c, messages[..n], scope, side) + Own(c, messages[n], scope, side)
  }

  /** The message is in scope and carries tokens of a model nobody priced. */
  predicate Gap(c: Config, msg: Message, scope: Scope) {
    In(msg, scope) && Bearing(msg) && !Priced(c, ModelKey(msg))
  }

  /** Some message in scope carries tokens of a model nobody priced. */
  predicate Unpriced(c: Config, messages: seq<Message>, scope: Scope) {
    exists i :: 0 <= i < |messages| && Gap(c, messages[i], scope)
  }

  /** The unpriced models of the messages in scope. */
  function UnpricedModels(c: Config, messages: seq<Message>, scope: Scope): set<Name> {
    set i | 0 <= i < |messages| && Gap(c, messages[i], scope) :: ModelKey(messages[i])
  }

  /** The agent cost of one side of the tokens in scope. */
  function SideCost(c: Config, messages: seq<Message>, scope: Scope, side: Side): Option<real> {
    if Unpriced(c, messages, scope) then None else Some(Value(c, messages, scope, side) / 1000000.0)
  }

  /** The agent cost of a scope. */
  function AgentCost(c: Config, messages: seq<Message>, scope: Scope): Option<real> {
    if Unpriced(c, messages, scope) then None
    else Some((Value(c, messages, scope, TokensIn) + Value(c, messages, scope, TokensOut)) / 1000000.0)
  }

  function AllTokens(messages: seq<Message>, scope: Scope): real {
    Sum(messages, scope, Input) + Sum(messages, scope, Output)
  }

  /** What a human would have cost for the tokens of a phase. */
  function HumanCost(c: Config, messages: seq<Message>, phase: Name): Option<real> {
    if c.minutes(phase) <= 0.0 || c.wage(phase) <= 0.0 then None
    else Some(Effort(AllTokens(messages, Phase(phase)), c.minutes(phase), c.wage(phase)))
  }

  /** The minutes a human would have needed for the tokens of a phase. */
  function HumanMinutes(c: Config, messages: seq<Message>, phase: Name): Option<real> {
    if c.minutes(phase) <= 0.0 then None else Some(Minutes(AllTokens(messages, Phase(phase)), c.minutes(phase)))
  }

  /** Tokens to human minutes. */
  function Minutes(tokens: real, minutes: real): real {
    tokens / 1000000.0 * minutes
  }

  /** Minutes to money. */
  function Pay(minutes: real, wage: real): real {
    minutes / 60.0 * wage
  }

  function Effort(tokens: real, minutes: real, wage: real): real {
    Pay(Minutes(tokens, minutes), wage)
  }

  /** A ratio, absent with either side and for a divisor that is not positive. */
  function Ratio(a: Option<real>, b: Option<real>): Option<real> {
    if a.Some? && b.Some? && b.value > 0.0 then Some(a.value / b.value) else None
  }

  function MinusOption(a: Option<real>, b: Option<real>): Option<real> {
    if a.Some? && b.Some? then Some(a.value - b.value) else None
  }

  function PlusOption(a: Option<real>, b: Option<real>): Option<real> {
    if a.Some? && b.Some? then Some(a.value + b.value) else None
  }

  // ---------------------------------------------------------------- tokens, split by model

  lemma {:induction false} SumsNonNegative(messages: seq<Message>, scope: Scope)
    ensures Sum(messages, scope, Input) >= 0.0 && Sum(messages, scope, Output) >= 0.0
    ensures forall m :: 0.0 <= Sum(messages, scope, ModelInput(m)) <= Sum(messages, scope, Input)
    ensures forall m :: 0.0 <= Sum(messages, scope, ModelOutput(m)) <= Sum(messages, scope, Output)
  {
    if messages != [] {
      SumsNonNegative(messages[..|messages| - 1], scope);
    }
  }

  /** The message is in scope and carries tokens of the model. */
  predicate Carries(msg: Message, scope: Scope, model: Name) {
    In(msg, scope) && Bearing(msg) && ModelKey(msg) == model
  }

  /** A model has tokens in scope exactly when some message of that model in scope has. */
  lemma {:induction false} BearingModel(messages: seq<Message>, scope: Scope, model: Name)
    ensures Sum(messages, scope, ModelInput(model)) > 0.0 || Sum(messages, scope, ModelOutput(model)) > 0.0
      <==> exists i :: 0 <= i < |messages| && Carries(messages[i], scope, model)
  {
    if messages != [] {
      var n := |messages| - 1;
      BearingModel(messages[..n], scope, model);
      SumsNonNegative(messages[..n], scope);
      assert 0.0 <= Sum(messages[..n], scope, ModelInput(model));
      assert 0.0 <= Sum(messages[..n], scope, ModelOutput(model));
      if i :| 0 <= i < n && Carries(messages[..n][i], scope, model) {
        assert messages[i] == messages[..n][i];
      }
    }
  }

  /** The sum of a figure over the listed models. */
  function Over(models: seq<Name>, figure: Name -> real): real {
    if models == [] then 0.0
    else Over(models[..|models| - 1], figure) + figure(models[|models| - 1])
  }

  /** Raising the figure of one listed model raises the sum by as much. */
  lemma {:induction false} OverRaised(
      models: seq<Name>, figure: Name -> real, raised: Name -> real, model: Name, amount: real)
    requires Distinct(models)
    requires forall m :: raised(m) == figure(m) + (if m == model then amount else 0.0)
    ensures Over(models, raised) == Over(models, figure) + (if model in models then amount else 0.0)
  {
    if models != [] {
      var n := |models| - 1;
      OverRaised(models[..n], figure, raised, model, amount);
      assert models == models[..n] + [models[n]];
      assert models[n] == model ==> model !in models[..n];
    }
  }

  lemma {:induction false} OverNothing(models: seq<Name>, figure: Name -> real)
    requires forall m :: figure(m) == 0.0
    ensures Over(models, figure) == 0.0
  {
    if models != [] {
      OverNothing(models[..|models| - 1], figure);
    }
  }

  /** A model's total tokens at its rate. */
  function Figure(c: Config, messages: seq<Message>, scope: Scope, side: Side): Name -> real {
    m => Sum(messages, scope, ModelReading(m, side)) * Rate(c, m, side)
  }

  /** A message raises its own model's figure by its own price, and no other's. */
  lemma FigureSnoc(c: Config, messages: seq<Message>, msg: Message, scope: Scope, side: Side, m: Name)
    ensures Figure(c, messages + [msg], scope, side)(m)
      == Figure(c, messages, scope, side)(m) + (if m == ModelKey(msg) then Own(c, msg, scope, side) else 0.0)
  {
    assert (messages + [msg])[..|messages|] == messages;
    Distributes(Sum(messages, scope, ModelReading(m, side)), Amount(msg, side), Rate(c, m, side));
  }

  lemma Distributes(a: real, b: real, rate: real)
    ensures (a + b) * rate == a * rate + b * rate
  {
  }

  lemma OverFigureSnoc(c: Config, models: seq<Name>, messages: seq<Message>, msg: Message, scope: Scope, side: Side)
    requires Distinct(models) && (In(msg, scope) && Bearing(msg) ==> ModelKey(msg) in models)
    ensures Over(models, Figure(c, messages + [msg], scope, side))
      == Over(models, Figure(c, messages, scope, side)) + Own(c, msg, scope, side)
  {
    var figure, raised := Figure(c, messages, scope, side), Figure(c, messages + [msg], scope, side);
    var own := Own(c, msg, scope, side);
    forall m ensures raised(m) == figure(m) + (if m == ModelKey(msg) then own else 0.0) {
      FigureSnoc(c, messages, msg, scope, side, m);
    }
    OverRaised(models, figure, raised, ModelKey(msg), own);
    assert !(In(msg, scope) && Bearing(msg)) ==> own == 0.0;
  }

  /** Pricing each model's total is pricing each message, as long as every model that has tokens is listed. */
  lemma {:induction false} PricingCommutes(
      c: Config, models: seq<Name>, messages: seq<Message>, scope: Scope, side: Side)
    requires Distinct(models) && Covered(models, messages, scope)
    ensures Over(models, Figure(c, messages, scope, side)) == Value(c, messages, scope, side)
  {
    if messages == [] {
      OverNothing(models, Figure(c, [], scope, side));
    } else {
      var n := |messages| - 1;
      PricingCommutes(c, models, messages[..n], scope, side);
      OverFigureSnoc(c, models, messages[..n], messages[n], scope, side);
      assert messages == messages[..n] + [messages[n]];
    }
  }

  /** Every message in scope that carries tokens has its model listed. */
  ghost predicate Covered(models: seq<Name>, messages: seq<Message>, scope: Scope) {
    forall i ::
      0 <= i < |messages| && In(messages[i], scope) && Bearing(messages[i]) ==> ModelKey(messages[i]) in models
  }

  /** A by-model split that reads like the messages in scope. */
  ghost predicate Splits(byModel: ByModel, messages: seq<Message>, scope: Scope) {
    forall m ::
      && TokensOf(byModel, m).input as real == Sum(messages, scope, ModelInput(m))
      && TokensOf(byModel, m).output as real == Sum(messages, scope, ModelOutput(m))
  }

  /**
   * `_agent_cost_split`: the cost of an aggregated split is the cost of the messages it came from, priced one by
   * one; it is absent exactly when some model that has tokens is unpriced, and then those models are reported.
   */
  method AgentCostSplit(c: Config, byModel: ByModel, ghost messages: seq<Message>, ghost scope: Scope)
    returns (total: Option<real>, valueIn: Option<real>, valueOut: Option<real>, unpriced: set<Name>)
    requires Splits(byModel, messages, scope)
    ensures total == AgentCost(c, messages, scope)
    ensures valueIn == SideCost(c, messages, scope, TokensIn) && valueOut == SideCost(c, messages, scope, TokensOut)
    ensures unpriced == UnpricedModels(c, messages, scope)
  {
    var vin, vout;
    ghost var models;
    vin, vout, unpriced, models := SumModels(c, byModel, messages, scope);
    ModelsPriced(c, models, messages, scope);
    UnpricedIff(c, messages, scope);
    if unpriced != {} {
      return None, None, None, unpriced;
    }
    total, valueIn, valueOut := Some((vin + vout) / 1000000.0), Some(vin / 1000000.0), Some(vout / 1000000.0);
  }

  /** The listed models, each total priced at once, cost what the messages cost one by one. */
  lemma ModelsPriced(c: Config, models: seq<Name>, messages: seq<Message>, scope: Scope)
    requires Distinct(models) && Covered(models, messages, scope)
    ensures Over(models, Figure(c, messages, scope, TokensIn)) == Value(c, messages, scope, TokensIn)
    ensures Over(models, Figure(c, messages, scope, TokensOut)) == Value(c, messages, scope, TokensOut)
  {
    PricingCommutes(c, models, messages, scope, TokensIn);
    PricingCommutes(c, models, messages, scope, TokensOut);
  }

  lemma UnpricedIff(c: Config, messages: seq<Message>, scope: Scope)
    ensures Unpriced(c, messages, scope) <==> UnpricedModels(c, messages, scope) != {}
  {
    var models := UnpricedModels(c, messages, scope);
    if i :| 0 <= i < |messages| && Gap(c, messages[i], scope) {
      assert ModelKey(messages[i]) in models;
    }
    if m :| m in models {
      assert exists i :: 0 <= i < |messages| && Gap(c, messages[i], scope);
    }
  }

  /** The loop of `_agent_cost_split` over the models of the split. */
  method SumModels(c: Config, byModel: ByModel, ghost messages: seq<Message>, ghost scope: Scope)
    returns (vin: real, vout: real, unpriced: set<Name>, ghost models: seq<Name>)
    requires Splits(byModel, messages, scope)
    ensures Distinct(models) && Covered(models, messages, scope)
    ensures vin == Over(models, Figure(c, messages, scope, TokensIn))
    ensures vout == Over(models, Figure(c, messages, scope, TokensOut))
    ensures unpriced == UnpricedModels(c, messages, scope)
  {
    vin, vout, unpriced, models := 0.0, 0.0, {}, [];
    ghost var figureIn, figureOut := Figure(c, messages, scope, TokensIn), Figure(c, messages, scope, TokensOut);
    var rest := byModel.Keys;
    while rest != {}
      invariant rest <= byModel.Keys && Distinct(models)
      invariant forall m :: m in models <==> m in byModel && m !in rest
      invariant vin == Over(models, figureIn) && vout == Over(models, figureOut)
      invariant forall m :: m in unpriced <==> m in models && Missing(c, byModel, m)
      decreases rest
    {
      var m :| m in rest;
      var moreIn, moreOut, missing := PriceModel(c, byModel, m, messages, scope);
      ListNext(models, m, figureIn, figureOut);
      vin, vout := vin + moreIn, vout + moreOut;
      if missing {
        unpriced := unpriced + {m};
      }
      models := models + [m];
      rest := rest - {m};
    }
    EveryModelListed(c, byModel, models, messages, scope);
  }

  predicate Missing(c: Config, byModel: ByModel, m: Name) {
    TokensOf(byModel, m) != Tokens(0, 0) && !Priced(c, m)
  }

  /** What one model contributes: nothing when it has no tokens or no price. */
  method PriceModel(c: Config, byModel: ByModel, m: Name, ghost messages: seq<Message>, ghost scope: Scope)
    returns (valueIn: real, valueOut: real, missing: bool)
    requires Splits(byModel, messages, scope) && m in byModel
    ensures valueIn == Figure(c, messages, scope, TokensIn)(m)
    ensures valueOut == Figure(c, messages, scope, TokensOut)(m)
    ensures missing <==> Missing(c, byModel, m)
  {
    var t := byModel[m];
    assert t == TokensOf(byModel, m);
    if t.input == 0 && t.output == 0 {
      return 0.0, 0.0, false;
    }
    var (pin, pout) := ResolvePrice(c, c.family(m));
    if pin <= 0.0 || pout <= 0.0 {
      return 0.0, 0.0, true;
    }
    valueIn, valueOut, missing := t.input as real * pin, t.output as real * pout, false;
  }

  lemma ListNext(models: seq<Name>, m: Name, figureIn: Name -> real, figureOut: Name -> real)
    requires Distinct(models) && m !in models
    ensures Distinct(models + [m]) && forall x :: x in models + [m] <==> x in models || x == m
    ensures Over(models + [m], figureIn) == Over(models, figureIn) + figureIn(m)
    ensures Over(models + [m], figureOut) == Over(models, figureOut) + figureOut(m)
  {
    assert (models + [m])[..|models|] == models;
  }

  /** The models of a split cover every message that carries tokens, and no other model has tokens. */
  lemma EveryModelListed(c: Config, byModel: ByModel, done: seq<Name>, messages: seq<Message>, scope: Scope)
    requires Splits(byModel, messages, scope) && forall m :: m in done <==> m in byModel
    ensures Covered(done, messages, scope)
    ensures forall m :: m in UnpricedModels(c, messages, scope) <==> m in byModel && Missing(c, byModel, m)
  {
    forall i | 0 <= i < |messages| && In(messages[i], scope) && Bearing(messages[i])
      ensures ModelKey(messages[i]) in byModel && TokensOf(byModel, ModelKey(messages[i])) != Tokens(0, 0)
    {
      BearingModel(messages, scope, ModelKey(messages[i]));
    }
    forall m | m in byModel && Missing(c, byModel, m) ensures m in UnpricedModels(c, messages, scope) {
      BearingModel(messages, scope, m);
    }
  }

  // ---------------------------------------------------------------- rows of the comparison table

  datatype Party = Agent | Human

  /** One kept row of the per-phase table. */
  datatype PhaseRow = PhaseRow(
    phase: Name, seconds: real, input: real, output: real, attempts: real,
    agentCost: Option<real>, valueIn: Option<real>, valueOut: Option<real>, unpriced: set<Name>,
    humanMinutes: Option<real>, humanCost: Option<real>,
    xFaster: Option<real>, mCheaper: Option<real>, saved: Option<real>)

  function RowOf(c: Config, messages: seq<Message>, phase: Name): PhaseRow {
    var s := Phase(phase);
    var agent, human := AgentCost(c, messages, s), HumanCost(c, messages, phase);
    PhaseRow(
      phase, Sum(messages, s, Seconds), Sum(messages, s, Input), Sum(messages, s, Output), Sum(messages, s, Attempts),
      agent, SideCost(c, messages, s, TokensIn), SideCost(c, messages, s, TokensOut), UnpricedModels(c, messages, s),
      HumanMinutes(c, messages, phase), human,
      Ratio(HumanMinutes(c, messages, phase), Some(Sum(messages, s, Seconds) / 60.0)), Ratio(human, agent),
      MinusOption(human, agent))
  }

  /** A phase with tokens, wall-clock time or parse attempts has a row. */
  predicate Active(messages: seq<Message>, phase: Name) {
    var s := Phase(phase);
    Sum(messages, s, Input) != 0.0 || Sum(messages, s, Output) != 0.0 || Sum(messages, s, Seconds) != 0.0
    || Sum(messages, s, Attempts) != 0.0
  }

  function Rows(c: Config, messages: seq<Message>, order: seq<Name>): seq<PhaseRow> {
    if order == [] then []
    else
      var n := |order| - 1;
      Rows(c, messages, order[..n]) + (if Active(messages, order[n]) then [RowOf(c, messages, order[n])] else [])
  }

  function CostOf(row: PhaseRow, party: Party): Option<real> {
    if party == Agent then row.agentCost else row.humanCost
  }

  /** The total over the rows that have tokens; absent as soon as one of them has no cost. */
  function Total(rows: seq<PhaseRow>, party: Party): Option<real> {
    if rows == [] then Some(0.0)
    else
      var n := |rows| - 1;
      var before := Total(rows[..n], party);
      if rows[n].input != 0.0 || rows[n].output != 0.0 then PlusOption(before, CostOf(rows[n], party)) else before
  }

  /** What a phase contributes to the total: nothing when it has no tokens. */
  function PhaseCost(c: Config, messages: seq<Message>, phase: Name, party: Party): Option<real> {
    if Sum(messages, Phase(phase), Input) == 0.0 && Sum(messages, Phase(phase), Output) == 0.0 then Some(0.0)
    else CostOf(RowOf(c, messages, phase), party)
  }

  function PhaseCosts(c: Config, messages: seq<Message>, order: seq<Name>, party: Party): Option<real> {
    if order == [] then Some(0.0)
    else
      var n := |order| - 1;
      PlusOption(PhaseCosts(c, messages, order[..n], party), PhaseCost(c, messages, order[n], party))
  }

  lemma TotalSnoc(rows: seq<PhaseRow>, row: PhaseRow, party: Party)
    ensures Total(rows + [row], party)
      == if row.input != 0.0 || row.output != 0.0 then PlusOption(Total(rows, party), CostOf(row, party))
         else Total(rows, party)
  {
    assert (rows + [row])[..|rows|] == rows;
  }

  lemma {:induction false} TotalOfRows(c: Config, messages: seq<Message>, order: seq<Name>, party: Party)
    ensures Total(Rows(c, messages, order), party) == PhaseCosts(c, messages, order, party)
  {
    if order != [] {
      var n := |order| - 1;
      TotalOfRows(c, messages, order[..n], party);
      var front, row := Rows(c, messages, order[..n]), RowOf(c, messages, order[n]);
      if Active(messages, order[n]) {
        TotalSnoc(front, row, party);
      } else {
        assert front + [] == front;
      }
    }
  }

  // ---------------------------------------------------------------- merging versions

  lemma {:induction false} ValueAppend(c: Config, a: seq<Message>, b: seq<Message>, scope: Scope, side: Side)
    ensures Value(c, a + b, scope, side) == Value(c, a, scope, side) + Value(c, b, scope, side)
  {
    if b == [] {
      assert a + b == a;
    } else {
      var n := |b| - 1;
      assert (a + b)[..|a| + n] == a + b[..n];
      ValueAppend(c, a, b[..n], scope, side);
    }
  }

  lemma UnpricedAppend(c: Config, a: seq<Message>, b: seq<Message>, scope: Scope)
    ensures Unpriced(c, a + b, scope) <==> Unpriced(c, a, scope) || Unpriced(c, b, scope)
  {
    assert forall i :: 0 <= i < |a| ==> (a + b)[i] == a[i];
    assert forall i :: 0 <= i < |b| ==> (a + b)[|a| + i] == b[i];
  }

  /** The agent cost of merged usage is the sum of the parts' costs, and absent exactly when one part's is. */
  lemma AgentCostAppend(c: Config, a: seq<Message>, b: seq<Message>, scope: Scope)
    ensures AgentCost(c, a + b, scope) == PlusOption(AgentCost(c, a, scope), AgentCost(c, b, scope))
  {
    UnpricedAppend(c, a, b, scope);
    ValueAppend(c, a, b, scope, TokensIn);
    ValueAppend(c, a, b, scope, TokensOut);
  }

  /** Without tokens in scope no message in scope carries any. */
  lemma {:induction false} NoTokensNoBearing(messages: seq<Message>, scope: Scope)
    requires Sum(messages, scope, Input) == 0.0 && Sum(messages, scope, Output) == 0.0
    ensures forall i :: 0 <= i < |messages| && In(messages[i], scope) ==> !Bearing(messages[i])
  {
    if messages != [] {
      var n := |messages| - 1;
      SumsNonNegative(messages[..n], scope);
      NoTokensNoBearing(messages[..n], scope);
      forall i | 0 <= i < |messages| && In(messages[i], scope) ensures !Bearing(messages[i]) {
        assert i < n ==> messages[i] == messages[..n][i];
      }
    }
  }

  lemma {:induction false} NoBearingNoValue(c: Config, messages: seq<Message>, scope: Scope, side: Side)
    requires forall i :: 0 <= i < |messages| && In(messages[i], scope) ==> !Bearing(messages[i])
    ensures Value(c, messages, scope, side) == 0.0
  {
    if messages != [] {
      NoBearingNoValue(c, messages[..|messages| - 1], scope, side);
      assert In(messages[|messages| - 1], scope) ==> Amount(messages[|messages| - 1], side) == 0.0;
    }
  }

  lemma NoTokensNoCost(c: Config, messages: seq<Message>, scope: Scope)
    requires Sum(messages, scope, Input) == 0.0 && Sum(messages, scope, Output) == 0.0
    ensures AgentCost(c, messages, scope) == Some(0.0)
  {
    NoTokensNoBearing(messages, scope);
    NoBearingNoValue(c, messages, scope, TokensIn);
    NoBearingNoValue(c, messages, scope, TokensOut);
  }

  /** The message counts in the scope. */
  predicate Counts(msg: Message, scope: Scope) {
    && (msg.hasUsage || msg.hasTiming)
    && (scope.Version? || scope.phase == (match msg.phaseStamp case Some(stamp) => stamp case None => msg.stage))
  }

  /** The family of the model that a message names, or of `_unknown`. */
  function FamilyOf(c: Config, msg: Message): Family {
    c.family(if msg.model.Some? && msg.model.value.text != "" then msg.model.value else Name("_unknown"))
  }

  lemma OneMessageValue(c: Config, msg: Message, scope: Scope)
    ensures Value(c, [msg], scope, TokensIn) == Own(c, msg, scope, TokensIn)
    ensures Value(c, [msg], scope, TokensOut) == Own(c, msg, scope, TokensOut)
    ensures Unpriced(c, [msg], scope) <==> Gap(c, msg, scope)
  {
    assert [msg][..0] == [] && [msg][0] == msg;
  }

  /** Tokens at a pair of prices per million. */
  function Charge(input: nat, output: nat, pin: real, pout: real): real {
    (input as real * pin + output as real * pout) / 1000000.0
  }

  /** A message costs what the configuration says for its model's family, if both prices of the family are set. */
  lemma FamilyPriced(c: Config, msg: Message, scope: Scope)
    requires Counts(msg, scope) && FamilyOf(c, msg) != UnknownFamily
    requires c.familyIn(FamilyOf(c, msg)) > 0.0 && c.familyOut(FamilyOf(c, msg)) > 0.0
    ensures
      var f := FamilyOf(c, msg);
      AgentCost(c, [msg], scope) == Some(Charge(msg.input, msg.output, c.familyIn(f), c.familyOut(f)))
  {
    var f := FamilyOf(c, msg);
    PricedAt(c, msg, scope, c.familyIn(f), c.familyOut(f));
  }

  lemma PricedAt(c: Config, msg: Message, scope: Scope, pin: real, pout: real)
    requires In(msg, scope) && ResolvePrice(c, c.family(ModelKey(msg))) == (pin, pout) && pin > 0.0 && pout > 0.0
    ensures AgentCost(c, [msg], scope) == Some(Charge(msg.input, msg.output, pin, pout))
  {
    OneMessageValue(c, msg, scope);
    var own, out := Own(c, msg, scope, TokensIn), Own(c, msg, scope, TokensOut);
    assert own == msg.input as real * pin;
    assert out == msg.output as real * pout;
    assert AgentCost(c, [msg], scope) == Some((own + out) / 1000000.0);
    assert (own + out) / 1000000.0 == Charge(msg.input, msg.output, pin, pout);
  }

  /** Otherwise it costs what the flat pair says, and has no cost if that is not set and there are tokens. */
  lemma FlatPriced(c: Config, msg: Message, scope: Scope)
    requires Counts(msg, scope)
    requires
      || FamilyOf(c, msg) == UnknownFamily
      || c.familyIn(FamilyOf(c, msg)) <= 0.0 || c.familyOut(FamilyOf(c, msg)) <= 0.0
    ensures c.flatIn > 0.0 && c.flatOut > 0.0 ==>
      AgentCost(c, [msg], scope) == Some(Charge(msg.input, msg.output, c.flatIn, c.flatOut))
    ensures c.flatIn <= 0.0 || c.flatOut <= 0.0 ==>
      AgentCost(c, [msg], scope) == if msg.input == 0 && msg.output == 0 then Some(0.0) else None
  {
    if c.flatIn > 0.0 && c.flatOut > 0.0 {
      PricedAt(c, msg, scope, c.flatIn, c.flatOut);
    } else {
      OneMessageValue(c, msg, scope);
    }
  }

  /** A message that does not count costs nothing. */
  lemma UncountedFree(c: Config, msg: Message, scope: Scope)
    requires !Counts(msg, scope)
    ensures AgentCost(c, [msg], scope) == Some(0.0)
  {
    OneMessageValue(c, msg, scope);
  }

  /** A million tokens of a phase take a human the configured minutes, at the configured wage per hour. */
  lemma MillionTokens(c: Config, msg: Message, phase: Name)
    requires Counts(msg, Phase(phase)) && msg.input + msg.output == 1000000
    ensures HumanMinutes(c, [msg], phase) == if c.minutes(phase) > 0.0 then Some(c.minutes(phase)) else None
    ensures HumanCost(c, [msg], phase) ==
      if c.minutes(phase) > 0.0 && c.wage(phase) > 0.0 then Some(c.minutes(phase) / 60.0 * c.wage(phase)) else None
  {
    OneMessage(msg, phase, UNKNOWN_MODEL);
    assert AllTokens([msg], Phase(phase)) == 1000000.0;
    assert Minutes(1000000.0, c.minutes(phase)) == c.minutes(phase);
  }

  /** Human effort is proportional to tokens. */
  lemma EffortAdds(total: real, a: real, b: real, minutes: real, wage: real)
    requires total == a + b
    ensures Effort(total, minutes, wage) == Effort(a, minutes, wage) + Effort(b, minutes, wage)
  {
    Distributes(a / 1000000.0, b / 1000000.0, minutes);
    Distributes(a / 1000000.0 * minutes / 60.0, b / 1000000.0 * minutes / 60.0, wage);
  }

  lemma HumanCostAppend(c: Config, a: seq<Message>, b: seq<Message>, phase: Name)
    ensures HumanCost(c, a + b, phase) == PlusOption(HumanCost(c, a, phase), HumanCost(c, b, phase))
  {
    var s := Phase(phase);
    SumAppend(a, b, s, Input);
    SumAppend(a, b, s, Output);
    EffortAdds(AllTokens(a + b, s), AllTokens(a, s), AllTokens(b, s), c.minutes(phase), c.wage(phase));
  }

  lemma NoTokensNoEffort(c: Config, messages: seq<Message>, phase: Name)
    requires AllTokens(messages, Phase(phase)) == 0.0
    ensures HumanCost(c, messages, phase).Some? ==> HumanCost(c, messages, phase) == Some(0.0)
  {
    EffortAdds(0.0, 0.0, 0.0, c.minutes(phase), c.wage(phase));
  }

  lemma PhaseCostAppend(c: Config, a: seq<Message>, b: seq<Message>, phase: Name, party: Party)
    ensures PhaseCost(c, a + b, phase, party)
         == PlusOption(PhaseCost(c, a, phase, party), PhaseCost(c, b, phase, party))
  {
    var s := Phase(phase);
    SumAppend(a, b, s, Input);
    SumAppend(a, b, s, Output);
    SumsNonNegative(a, s);
    SumsNonNegative(b, s);
    if party == Agent {
      AgentCostAppend(c, a, b, s);
      Tokenless(c, a, phase, party);
      Tokenless(c, b, phase, party);
    } else {
      HumanCostAppend(c, a, b, phase);
      Tokenless(c, a, phase, party);
      Tokenless(c, b, phase, party);
    }
  }

  /** The cost of a phase without tokens is zero where it is known at all. */
  lemma Tokenless(c: Config, messages: seq<Message>, phase: Name, party: Party)
    ensures Sum(messages, Phase(phase), Input) == 0.0 && Sum(messages, Phase(phase), Output) == 0.0 ==>
      var cost := CostOf(RowOf(c, messages, phase), party);
      cost == Some(0.0) || (party == Human && (c.minutes(phase) <= 0.0 || c.wage(phase) <= 0.0))
  {
    if Sum(messages, Phase(phase), Input) == 0.0 && Sum(messages, Phase(phase), Output) == 0.0 {
      NoTokensNoCost(c, messages, Phase(phase));
      NoTokensNoEffort(c, messages, phase);
    }
  }

  lemma {:induction false} PhaseCostsAppend(c: Config, a: seq<Message>, b: seq<Message>, order: seq<Name>, party: Party)
    ensures PhaseCosts(c, a + b, order, party)
         == PlusOption(PhaseCosts(c, a, order, party), PhaseCosts(c, b, order, party))
  {
    if order != [] {
      var n := |order| - 1;
      PhaseCostsAppend(c, a, b, order[..n], party);
      PhaseCostAppend(c, a, b, order[n], party);
    }
  }

  lemma {:induction false} NoMessagesNoCost(c: Config, order: seq<Name>, party: Party)
    ensures PhaseCosts(c, [], order, party) == Some(0.0)
  {
    if order != [] {
      NoMessagesNoCost(c, order[..|order| - 1], party);
    }
  }

  /** The headline total of one version. */
  function VersionCost(c: Config, messages: seq<Message>, party: Party): Option<real> {
    Total(Rows(c, messages, COMPARISON_PHASES), party)
  }

  predicate FullyCosted(c: Config, messages: seq<Message>) {
    VersionCost(c, messages, Agent).Some? && VersionCost(c, messages, Human).Some?
  }

  function CountCovered(c: Config, versions: seq<seq<Message>>): nat {
    if versions == [] then 0
    else
      var n := |versions| - 1;
      CountCovered(c, versions[..n]) + (if FullyCosted(c, versions[n]) then 1 else 0)
  }

  /** The running sum over the versions whose two totals are both known. */
  function SumCovered(c: Config, versions: seq<seq<Message>>, party: Party): real {
    if versions == [] then 0.0
    else
      var n := |versions| - 1;
      SumCovered(c, versions[..n], party)
      + (if FullyCosted(c, versions[n]) then OrZero(VersionCost(c, versions[n], party)) else 0.0)
  }

  function OrZero(cost: Option<real>): real {
    if cost.Some? then cost.value else 0.0
  }

  /** The cumulative headline: the sum over covered versions, absent when there are none. */
  function Headline(c: Config, versions: seq<seq<Message>>, party: Party): Option<real> {
    if CountCovered(c, versions) > 0 then Some(SumCovered(c, versions, party)) else None
  }

  /** One more version: a version whose two costs are known adds them, any other changes nothing. */
  lemma HeadlineNext(c: Config, versions: seq<seq<Message>>, version: seq<Message>, party: Party)
    ensures
      var known := VersionCost(c, version, Agent).Some? && VersionCost(c, version, Human).Some?;
      var before, after := Headline(c, versions, party), Headline(c, versions + [version], party);
      if !known then after == before
      else
        var more := VersionCost(c, version, party).value;
        after == if before.Some? then Some(before.value + more) else Some(more)
    ensures Headline(c, [], party) == None
  {
    var longer := versions + [version];
    assert longer[..|versions|] == versions;
    NothingCovered(c, versions, party);
  }

  lemma {:induction false} NothingCovered(c: Config, versions: seq<seq<Message>>, party: Party)
    ensures CountCovered(c, versions) == 0 ==> SumCovered(c, versions, party) == 0.0
  {
    if versions != [] {
      NothingCovered(c, versions[..|versions| - 1], party);
    }
  }

  /** Recomputing a total from the phase rows of two merged histories adds the two totals. */
  lemma VersionCostAppend(c: Config, a: seq<Message>, b: seq<Message>, party: Party)
    ensures VersionCost(c, a + b, party) == PlusOption(VersionCost(c, a, party), VersionCost(c, b, party))
  {
    TotalOfRows(c, a + b, COMPARISON_PHASES, party);
    TotalOfRows(c, a, COMPARISON_PHASES, party);
    TotalOfRows(c, b, COMPARISON_PHASES, party);
    PhaseCostsAppend(c, a, b, COMPARISON_PHASES, party);
  }

  /**
   * The totals recomputed from the cumulative phase rows are both known exactly when every version is covered, and
   * are then the sums over the versions.
   */
  lemma {:induction false} Recomputed(c: Config, versions: seq<seq<Message>>)
    ensures CountCovered(c, versions) <= |versions|
    ensures CountCovered(c, versions) == |versions| <==> FullyCosted(c, Flatten(versions))
    ensures CountCovered(c, versions) == |versions| ==>
      && VersionCost(c, Flatten(versions), Agent) == Some(SumCovered(c, versions, Agent))
      && VersionCost(c, Flatten(versions), Human) == Some(SumCovered(c, versions, Human))
  {
    if versions == [] {
      forall party ensures VersionCost(c, [], party) == Some(0.0) {
        TotalOfRows(c, [], COMPARISON_PHASES, party);
        NoMessagesNoCost(c, COMPARISON_PHASES, party);
      }
    } else {
      var n := |versions| - 1;
      Recomputed(c, versions[..n]);
      assert versions == versions[..n] + [versions[n]];
      FlattenSnoc(versions[..n], versions[n]);
      VersionCostAppend(c, Flatten(versions[..n]), versions[n], Agent);
      VersionCostAppend(c, Flatten(versions[..n]), versions[n], Human);
    }
  }

  /** With at least one version and all of them covered, the cumulative headline is the recomputed total. */
  lemma CumulativeFoots(c: Config, versions: seq<seq<Message>>, party: Party)
    requires versions != [] && CountCovered(c, versions) == |versions|
    ensures Headline(c, versions, party) == VersionCost(c, Flatten(versions), party)
  {
    Recomputed(c, versions);
  }

  /** A project without versions has no headline, although its empty table adds up to zero. */
  lemma NoVersionsNoHeadline(c: Config, party: Party)
    ensures Headline(c, [], party) == None && VersionCost(c, Flatten([]), party) == Some(0.0)
  {
    TotalOfRows(c, [], COMPARISON_PHASES, party);
    NoMessagesNoCost(c, COMPARISON_PHASES, party);
  }

  // ---------------------------------------------------------------- footing of the table

  function RowReading(row: PhaseRow, r: Reading): real {
    match r
    case Input => row.input
    case Output => row.output
    case Seconds => row.seconds
    case Attempts => row.attempts
    case _ => 0.0
  }

  function SumRows(rows: seq<PhaseRow>, r: Reading): real {
    if rows == [] then 0.0 else SumRows(rows[..|rows| - 1], r) + RowReading(rows[|rows| - 1], r)
  }

  /** A row for every listed phase with tokens, time or attempts, for no other, and in the order of the list. */
  lemma {:induction false} RowsKept(c: Config, messages: seq<Message>, order: seq<Name>, p: Name)
    ensures
      HasRow(Rows(c, messages, order), p) <==>
        && p in order
        && (Sum(messages, Phase(p), Input) != 0.0 || Sum(messages, Phase(p), Output) != 0.0
            || Sum(messages, Phase(p), Seconds) != 0.0 || Sum(messages, Phase(p), Attempts) != 0.0)
  {
    if order != [] {
      var n := |order| - 1;
      var front, row := Rows(c, messages, order[..n]), RowOf(c, messages, order[n]);
      RowsKept(c, messages, order[..n], p);
      assert order == order[..n] + [order[n]];
      if Active(messages, order[n]) {
        HasRowSnoc(front, row, p);
      } else {
        assert front + [] == front;
      }
      assert Rows(c, messages, order) == if Active(messages, order[n]) then front + [row] else front;
    }
  }

  predicate HasRow(rows: seq<PhaseRow>, p: Name) {
    exists i :: 0 <= i < |rows| && rows[i].phase == p
  }

  lemma HasRowSnoc(rows: seq<PhaseRow>, row: PhaseRow, p: Name)
    ensures HasRow(rows + [row], p) <==> HasRow(rows, p) || row.phase == p
  {
    var more := rows + [row];
    assert more[|rows|] == row;
    if i :| 0 <= i < |rows| && rows[i].phase == p {
      assert more[i] == rows[i];
    }
  }

  lemma {:induction false} RowsInOrder(c: Config, messages: seq<Message>, order: seq<Name>, i: nat, j: nat)
    returns (a: nat, b: nat)
    requires i < j < |Rows(c, messages, order)|
    ensures a < b < |order|
    ensures Rows(c, messages, order)[i].phase == order[a] && Rows(c, messages, order)[j].phase == order[b]
  {
    var n := |order| - 1;
    var front := Rows(c, messages, order[..n]);
    if j < |front| {
      a, b := RowsInOrder(c, messages, order[..n], i, j);
    } else {
      a := RowPlace(c, messages, order[..n], i);
      b := n;
    }
  }

  lemma {:induction false} RowPlace(c: Config, messages: seq<Message>, order: seq<Name>, i: nat) returns (a: nat)
    requires i < |Rows(c, messages, order)|
    ensures a < |order| && Rows(c, messages, order)[i].phase == order[a]
  {
    var n := |order| - 1;
    if i < |Rows(c, messages, order[..n])| {
      a := RowPlace(c, messages, order[..n], i);
    } else {
      a := n;
    }
  }

  /** Dropping the rows without activity loses nothing. */
  lemma {:induction false} KeptRowsFoot(c: Config, messages: seq<Message>, order: seq<Name>, r: Reading)
    requires r in {Input, Output, Seconds, Attempts}
    ensures SumRows(Rows(c, messages, order), r) == SumPhases(messages, order, r)
  {
    if order != [] {
      var n := |order| - 1;
      KeptRowsFoot(c, messages, order[..n], r);
      var front, row := Rows(c, messages, order[..n]), RowOf(c, messages, order[n]);
      if Active(messages, order[n]) {
        assert (front + [row])[..|front|] == front;
      } else {
        assert front + [] == front;
      }
    }
  }

  lemma {:induction false} SumPhasesAppend(messages: seq<Message>, a: seq<Name>, b: seq<Name>, r: Reading)
    ensures SumPhases(messages, a + b, r) == SumPhases(messages, a, r) + SumPhases(messages, b, r)
  {
    if b == [] {
      assert a + b == a;
    } else {
      var n := |b| - 1;
      assert (a + b)[..|a| + n] == a + b[..n];
      SumPhasesAppend(messages, a, b[..n], r);
    }
  }

  /**
   * The kept rows and the overhead bucket, which holds every phase that is not compared, foot to the grand total in
   * tokens, time and parse attempts, over one version or over several versions together.
   */
  lemma TableFoots(c: Config, messages: seq<Message>, others: seq<Name>, r: Reading)
    requires r in {Input, Output, Seconds, Attempts}
    requires Distinct(COMPARISON_PHASES + others)
    requires forall p :: p in PhasesOf(messages) && p !in COMPARISON_PHASES ==> p in others
    ensures SumRows(Rows(c, messages, COMPARISON_PHASES), r) + SumPhases(messages, others, r)
         == Sum(messages, Version, r)
  {
    KeptRowsFoot(c, messages, COMPARISON_PHASES, r);
    SumPhasesAppend(messages, COMPARISON_PHASES, others, r);
    BucketsFoot(messages, COMPARISON_PHASES + others, r);
  }

  // ---------------------------------------------------------------- the service

  /** `_overhead_totals`: every bucket outside the comparison phases, folded into one. */
  method OverheadTotals(byPhase: map<Name, UsageTotals>, ghost messages: seq<Message>)
    returns (overhead: UsageTotals, ghost others: seq<Name>)
    requires Holds(byPhase, messages)
    ensures fresh(overhead) && Distinct(COMPARISON_PHASES + others)
    ensures forall p :: p in PhasesOf(messages) && p !in COMPARISON_PHASES ==> p in others
    ensures forall r :: overhead.Get(r) == SumPhases(messages, others, r)
  {
    overhead := new UsageTotals();
    others := [];
    ComparisonDistinct();
    assert COMPARISON_PHASES + [] == COMPARISON_PHASES;
    var rest := byPhase.Keys;
    while rest != {}
      invariant rest <= byPhase.Keys && fresh(overhead) && Holds(byPhase, messages)
      invariant forall p :: p in others <==> p in byPhase && p !in rest && p !in COMPARISON_PHASES
      invariant Distinct(COMPARISON_PHASES + others)
      invariant forall r :: overhead.Get(r) == SumPhases(messages, others, r)
      decreases rest
    {
      var p :| p in rest;
      if p !in COMPARISON_PHASES {
        assert (others + [p])[..|others|] == others;
        assert COMPARISON_PHASES + (others + [p]) == (COMPARISON_PHASES + others) + [p];
        overhead.Merge(byPhase[p]);
        others := others + [p];
      }
      rest := rest - {p};
    }
  }

  lemma ComparisonDistinct()
    ensures Distinct(COMPARISON_PHASES)
  {
    assert |"priprava"| == 8 && |"navrh"| == 5 && |"programovanie"| == 13 && |"verifikacia"| == 11;
  }

  ghost predicate Reads(t: UsageTotals, messages: seq<Message>, scope: Scope)
    reads t
  {
    forall r :: t.Get(r) == Sum(messages, scope, r)
  }

  /** `_phase_metric`. */
  method PhaseMetric(c: Config, phase: Name, t: UsageTotals, ghost messages: seq<Message>) returns (row: PhaseRow)
    requires Reads(t, messages, Phase(phase))
    ensures row == RowOf(c, messages, phase)
    ensures row.phase == phase && row.agentCost == AgentCost(c, messages, Phase(phase))
    ensures row.input == Sum(messages, Phase(phase), Input) && row.output == Sum(messages, Phase(phase), Output)
    ensures row.seconds == Sum(messages, Phase(phase), Seconds) && row.attempts == Sum(messages, Phase(phase), Attempts)
    ensures row.humanCost == HumanCost(c, messages, phase) && row.humanMinutes == HumanMinutes(c, messages, phase)
    ensures row.xFaster.Some? <==> row.humanMinutes.Some? && row.seconds > 0.0
    ensures row.xFaster.Some? ==> row.xFaster.value == row.humanMinutes.value / (row.seconds / 60.0)
    ensures row.mCheaper.Some? <==> row.humanCost.Some? && row.agentCost.Some? && row.agentCost.value > 0.0
    ensures row.mCheaper.Some? ==> row.mCheaper.value == row.humanCost.value / row.agentCost.value
    ensures row.saved.Some? <==> row.humanCost.Some? && row.agentCost.Some?
    ensures row.saved.Some? ==> row.saved.value == row.humanCost.value - row.agentCost.value
  {
    var input, output := t.input as real, t.output as real;
    ReadsCounters(t, messages, Phase(phase));
    var agentCost, valueIn, valueOut, unpriced := AgentCostSplit(c, t.byModel, messages, Phase(phase));
    var humanMinutes, humanCost := None, None;
    if c.minutes(phase) > 0.0 {
      humanMinutes := Some(Minutes(input + output, c.minutes(phase)));
    }
    if humanMinutes.Some? && c.wage(phase) > 0.0 {
      humanCost := Some(Pay(humanMinutes.value, c.wage(phase)));
    }
    assert input + output == AllTokens(messages, Phase(phase));
    assert humanMinutes == HumanMinutes(c, messages, phase) && humanCost == HumanCost(c, messages, phase);
    var activeMinutes := t.seconds / 60.0;
    var xFaster, mCheaper, saved := None, None, None;
    if humanMinutes.Some? && activeMinutes > 0.0 {
      xFaster := Some(humanMinutes.value / activeMinutes);
    }
    if humanCost.Some? && agentCost.Some? {
      if agentCost.value > 0.0 {
        mCheaper := Some(humanCost.value / agentCost.value);
      }
      saved := Some(humanCost.value - agentCost.value);
    }
    row := PhaseRow(phase, t.seconds, input, output, t.attempts as real, agentCost, valueIn, valueOut, unpriced,
                    humanMinutes, humanCost, xFaster, mCheaper, saved);
  }

  /** Totals that read like the messages have their counters, and split them by model. */
  lemma ReadsCounters(t: UsageTotals, messages: seq<Message>, scope: Scope)
    requires Reads(t, messages, scope)
    ensures t.input as real == Sum(messages, scope, Input) && t.output as real == Sum(messages, scope, Output)
    ensures t.seconds == Sum(messages, scope, Seconds) && t.attempts as real == Sum(messages, scope, Attempts)
    ensures Splits(t.byModel, messages, scope)
  {
    assert t.Get(Input) == Sum(messages, scope, Input) && t.Get(Output) == Sum(messages, scope, Output);
    assert t.Get(Seconds) == Sum(messages, scope, Seconds) && t.Get(Attempts) == Sum(messages, scope, Attempts);
    assert forall m :: t.Get(ModelInput(m)) == Sum(messages, scope, ModelInput(m));
    assert forall m :: t.Get(ModelOutput(m)) == Sum(messages, scope, ModelOutput(m));
  }

  method BuildPhases(c: Config, byPhase: map<Name, UsageTotals>, ghost messages: seq<Message>)
    returns (rows: seq<PhaseRow>)
    requires Holds(byPhase, messages)
    ensures rows == Rows(c, messages, COMPARISON_PHASES)
  {
    rows := [];
    for i := 0 to |COMPARISON_PHASES|
      invariant rows == Rows(c, messages, COMPARISON_PHASES[..i])
    {
      var phase := COMPARISON_PHASES[i];
      assert COMPARISON_PHASES[..i + 1][..i] == COMPARISON_PHASES[..i];
      if phase !in byPhase {
        Inactive(messages, phase);
        assert rows + [] == rows;
        continue;
      }
      var t := byPhase[phase];
      ReadsCounters(t, messages, Phase(phase));
      if t.input == 0 && t.output == 0 && t.seconds == 0.0 && t.attempts == 0 {
        assert rows + [] == rows;
        continue;
      }
      var row := PhaseMetric(c, phase, t, messages);
      rows := rows + [row];
    }
    assert COMPARISON_PHASES[..|COMPARISON_PHASES|] == COMPARISON_PHASES;
  }

  lemma Inactive(messages: seq<Message>, phase: Name)
    requires phase !in PhasesOf(messages)
    ensures !Active(messages, phase)
  {
    AbsentPhase(messages, phase, Input);
    AbsentPhase(messages, phase, Output);
    AbsentPhase(messages, phase, Seconds);
    AbsentPhase(messages, phase, Attempts);
  }

  /** `_cost_totals`. */
  method CostTotals(rows: seq<PhaseRow>) returns (agent: Option<real>, human: Option<real>)
    ensures agent == Total(rows, Agent) && human == Total(rows, Human)
  {
    var agentTotal, agentOk, humanTotal, humanOk := 0.0, true, 0.0, true;
    for i := 0 to |rows|
      invariant Total(rows[..i], Agent) == if agentOk then Some(agentTotal) else None
      invariant Total(rows[..i], Human) == if humanOk then Some(humanTotal) else None
    {
      assert rows[..i + 1] == rows[..i] + [rows[i]];
      TotalSnoc(rows[..i], rows[i], Agent);
      TotalSnoc(rows[..i], rows[i], Human);
      if rows[i].input != 0.0 || rows[i].output != 0.0 {
        if rows[i].agentCost.None? {
          agentOk := false;
        } else {
          agentTotal := agentTotal + rows[i].agentCost.value;
        }
        if rows[i].humanCost.None? {
          humanOk := false;
        } else {
          humanTotal := humanTotal + rows[i].humanCost.value;
        }
      }
    }
    assert rows[..|rows|] == rows;
    agent, human := if agentOk then Some(agentTotal) else None, if humanOk then Some(humanTotal) else None;
  }

  ghost predicate Separate(a: map<Name, UsageTotals>, b: map<Name, UsageTotals>) {
    forall p, q :: p in a && q in b ==> a[p] != b[q]
  }

  /** How far the merge of a version into the cumulative buckets has come: the phases in `rest` are still to come. */
  ghost predicate Merging(merged: map<Name, UsageTotals>, rest: set<Name>, byPhase: map<Name, UsageTotals>,
                          before: seq<Message>, messages: seq<Message>)
    reads merged.Values, byPhase.Values
  {
    && (forall p :: p in merged <==> p in PhasesOf(before) || (p in byPhase && p !in rest))
    && (forall p :: p in byPhase && p in rest ==> Reads(byPhase[p], messages, Phase(p)))
    && (forall p :: p in merged && p in rest ==> Reads(merged[p], before, Phase(p)))
    && (forall p :: p in merged && p !in rest ==> Reads(merged[p], before + messages, Phase(p)))
  }

  /** Fold a version's buckets into the cumulative ones. */
  method MergeBuckets(cumulative: map<Name, UsageTotals>, byPhase: map<Name, UsageTotals>,
                      ghost before: seq<Message>, ghost messages: seq<Message>)
    returns (merged: map<Name, UsageTotals>)
    requires Holds(cumulative, before) && Apart(cumulative) && Holds(byPhase, messages)
    requires Separate(cumulative, byPhase)
    modifies cumulative.Values
    ensures Holds(merged, before + messages) && Apart(merged)
    ensures forall t :: t in merged.Values ==> t in cumulative.Values || fresh(t)
  {
    merged := cumulative;
    var rest := byPhase.Keys;
    StartMerging(cumulative, byPhase, before, messages);
    while rest != {}
      invariant rest <= byPhase.Keys && Apart(merged) && Separate(merged, byPhase)
      invariant forall t :: t in merged.Values ==> t in cumulative.Values || fresh(t)
      invariant Merging(merged, rest, byPhase, before, messages)
      decreases rest
    {
      var p :| p in rest;
      merged := MergeNext(merged, rest, p, byPhase, before, messages);
      rest := rest - {p};
    }
    EndMerging(merged, byPhase, before, messages);
  }

  lemma StartMerging(cumulative: map<Name, UsageTotals>, byPhase: map<Name, UsageTotals>,
                     before: seq<Message>, messages: seq<Message>)
    requires Holds(cumulative, before) && Holds(byPhase, messages)
    ensures Merging(cumulative, byPhase.Keys, byPhase, before, messages)
  {
    forall p | p in cumulative && p !in byPhase ensures Reads(cumulative[p], before + messages, Phase(p)) {
      assert Reads(cumulative[p], before, Phase(p));
      Untouched(cumulative[p], before, messages, p);
    }
  }

  lemma EndMerging(merged: map<Name, UsageTotals>, byPhase: map<Name, UsageTotals>,
                   before: seq<Message>, messages: seq<Message>)
    requires Merging(merged, {}, byPhase, before, messages) && byPhase.Keys == PhasesOf(messages)
    ensures Holds(merged, before + messages)
  {
    PhasesAppend(before, messages);
    assert forall p :: p in merged ==> Reads(merged[p], before + messages, Phase(p));
  }

  method MergeNext(merged: map<Name, UsageTotals>, ghost rest: set<Name>, p: Name, byPhase: map<Name, UsageTotals>,
                   ghost before: seq<Message>, ghost messages: seq<Message>)
    returns (next: map<Name, UsageTotals>)
    requires p in rest && rest <= byPhase.Keys && Apart(merged) && Separate(merged, byPhase)
    requires Merging(merged, rest, byPhase, before, messages)
    modifies merged.Values
    ensures Apart(next) && Separate(next, byPhase)
    ensures Merging(next, rest - {p}, byPhase, before, messages)
    ensures forall t :: t in next.Values ==> t in merged.Values || fresh(t)
  {
    next := MergePhase(merged, p, byPhase[p], before, messages);
    forall q | q in byPhase ensures unchanged(byPhase[q]) && byPhase[q] != next[p] {
      assert p in merged ==> byPhase[q] != merged[p];
    }
    forall q | q in next && q != p ensures next[q] == merged[q] && next[q] != next[p] && unchanged(next[q]) {
    }
  }

  /** `setdefault(phase, UsageTotals()).merge(t)` for one phase. */
  method MergePhase(merged: map<Name, UsageTotals>, phase: Name, t: UsageTotals,
                    ghost before: seq<Message>, ghost messages: seq<Message>)
    returns (next: map<Name, UsageTotals>)
    requires if phase in merged then Reads(merged[phase], before, Phase(phase)) && merged[phase] != t
             else phase !in PhasesOf(before)
    requires Reads(t, messages, Phase(phase))
    modifies if phase in merged then {merged[phase]} else {}
    ensures phase in next && next == merged[phase := next[phase]]
    ensures if phase in merged then next[phase] == merged[phase] else fresh(next[phase])
    ensures Reads(next[phase], before + messages, Phase(phase))
  {
    next := merged;
    if phase !in merged {
      var bucket := new UsageTotals();
      forall r ensures Sum(before, Phase(phase), r) == 0.0 {
        AbsentPhase(before, phase, r);
      }
      next := merged[phase := bucket];
    }
    next[phase].Merge(t);
    forall r ensures next[phase].Get(r) == Sum(before + messages, Phase(phase), r) {
      SumAppend(before, messages, Phase(phase), r);
    }
  }

  lemma Untouched(t: UsageTotals, before: seq<Message>, messages: seq<Message>, phase: Name)
    requires Reads(t, before, Phase(phase)) && phase !in PhasesOf(messages)
    ensures Reads(t, before + messages, Phase(phase))
  {
    forall r ensures t.Get(r) == Sum(before + messages, Phase(phase), r) {
      SumAppend(before, messages, Phase(phase), r);
      AbsentPhase(messages, phase, r);
    }
  }

  lemma PhasesAppend(a: seq<Message>, b: seq<Message>)
    ensures PhasesOf(a + b) == PhasesOf(a) + PhasesOf(b)
  {
    forall p ensures p in PhasesOf(a + b) <==> p in PhasesOf(a) || p in PhasesOf(b) {
      if i :| 0 <= i < |a| && Metered(a[i]) && p == PhaseOf(a[i]) {
        assert (a + b)[i] == a[i];
      }
      if i :| 0 <= i < |b| && Metered(b[i]) && p == PhaseOf(b[i]) {
        assert (a + b)[|a| + i] == b[i];
      }
    }
  }

  /** What is shown of an accumulator; token and attempt counts are whole numbers. */
  datatype Shown = Shown(input: real, output: real, seconds: real, attempts: real)

  function ShownReading(shown: Shown, r: Reading): real {
    match r
    case Input => shown.input
    case Output => shown.output
    case Seconds => shown.seconds
    case Attempts => shown.attempts
    case _ => 0.0
  }

  /** The grand total of some messages. */
  function Whole(messages: seq<Message>): Shown {
    Shown(Sum(messages, Version, Input), Sum(messages, Version, Output),
          Sum(messages, Version, Seconds), Sum(messages, Version, Attempts))
  }

  /** The kept rows and the overhead bucket add up to the grand total. */
  ghost predicate Foots(rows: seq<PhaseRow>, overhead: Shown, whole: Shown) {
    forall r ::
      r in {Input, Output, Seconds, Attempts} ==> SumRows(rows, r) + ShownReading(overhead, r) == ShownReading(whole, r)
  }

  method Show(t: UsageTotals) returns (shown: Shown)
    ensures forall r :: r in {Input, Output, Seconds, Attempts} ==> ShownReading(shown, r) == t.Get(r)
  {
    shown := Shown(t.input as real, t.output as real, t.seconds, t.attempts as real);
  }

  /** The rows, the overhead bucket and the two cost totals of a scope: one version, or all of them. */
  datatype Table = Table(usage: Shown, rows: seq<PhaseRow>, overhead: Shown, agent: Option<real>, human: Option<real>)

  /** A table is the reference's, and it foots. */
  ghost predicate Faithful(c: Config, table: Table, messages: seq<Message>) {
    && table.usage == Whole(messages)
    && table.rows == Rows(c, messages, COMPARISON_PHASES)
    && Foots(table.rows, table.overhead, table.usage)
    && table.agent == VersionCost(c, messages, Agent)
    && table.human == VersionCost(c, messages, Human)
  }

  method BuildTable(c: Config, grand: UsageTotals, byPhase: map<Name, UsageTotals>, ghost messages: seq<Message>)
    returns (table: Table)
    requires Reads(grand, messages, Version) && Holds(byPhase, messages)
    ensures Faithful(c, table, messages)
  {
    var rows := BuildPhases(c, byPhase, messages);
    var agent, human := CostTotals(rows);
    var bucket, others := OverheadTotals(byPhase, messages);
    var usage := Show(grand);
    var overhead := Show(bucket);
    assert usage == Whole(messages) by {
      assert ShownReading(usage, Input) == grand.Get(Input) && ShownReading(usage, Output) == grand.Get(Output);
      assert ShownReading(usage, Seconds) == grand.Get(Seconds) && ShownReading(usage, Attempts) == grand.Get(Attempts);
    }
    forall r | r in {Input, Output, Seconds, Attempts}
      ensures SumRows(rows, r) + ShownReading(overhead, r) == ShownReading(usage, r)
    {
      TableFoots(c, messages, others, r);
    }
    table := Table(usage, rows, overhead, agent, human);
  }

  /** One turn of the version loop: the accumulators of a version and its table. */
  method VersionTable(c: Config, messages: seq<Message>)
    returns (grand: UsageTotals, byPhase: map<Name, UsageTotals>, table: Table)
    ensures fresh(grand) && fresh(byPhase.Values)
    ensures Reads(grand, messages, Version) && Holds(byPhase, messages)
    ensures Faithful(c, table, messages)
  {
    grand := AggregatePipelineUsage(messages);
    byPhase := AggregateUsageByPhase(messages);
    table := BuildTable(c, grand, byPhase, messages);
  }

  /** The cumulative accumulators hold what `messages` add up to. */
  ghost predicate Cumulates(grand: UsageTotals, buckets: map<Name, UsageTotals>, messages: seq<Message>)
    reads grand, buckets.Values
  {
    Reads(grand, messages, Version) && Holds(buckets, messages) && Apart(buckets) && grand !in buckets.Values
  }

  /** One turn of the version loop: the version's own table, and its accumulators merged into the cumulative ones. */
  method NextVersion(c: Config, cumGrand: UsageTotals, cumulative: map<Name, UsageTotals>, messages: seq<Message>,
                     ghost before: seq<Message>)
    returns (table: Table, merged: map<Name, UsageTotals>)
    requires Cumulates(cumGrand, cumulative, before)
    modifies cumGrand, cumulative.Values
    ensures Faithful(c, table, messages)
    ensures Cumulates(cumGrand, merged, before + messages)
    ensures forall t :: t in merged.Values ==> t in cumulative.Values || fresh(t)
  {
    var grand, byPhase;
    grand, byPhase, table := VersionTable(c, messages);
    assert Separate(cumulative, byPhase) by {
      forall p, q | p in cumulative && q in byPhase ensures cumulative[p] != byPhase[q] {
        assert cumulative[p] in cumulative.Values && byPhase[q] in byPhase.Values;
      }
    }
    cumGrand.Merge(grand);
    forall r ensures cumGrand.Get(r) == Sum(before + messages, Version, r) {
      SumAppend(before, messages, Version, r);
    }
    merged := MergeBuckets(cumulative, byPhase, before, messages);
  }

  /**
   * `compute_project_metrics`: each version's table and the cumulative one are those of the reference, message by
   * message, and both foot. The cumulative cost headline is the sum over the covered versions; with every version
   * covered it is what the cumulative rows add up to.
   */
  method ComputeProjectMetrics(c: Config, versions: seq<seq<Message>>)
    returns (perVersion: seq<Table>, cumulative: Table, covered: nat, agent: Option<real>, human: Option<real>)
    ensures |perVersion| == |versions| && forall i :: 0 <= i < |versions| ==> Faithful(c, perVersion[i], versions[i])
    ensures Faithful(c, cumulative, Flatten(versions))
    ensures covered == CountCovered(c, versions)
    ensures agent == Headline(c, versions, Agent) && human == Headline(c, versions, Human)
    ensures versions != [] && covered == |versions| ==> agent == cumulative.agent && human == cumulative.human
  {
    perVersion, covered := [], 0;
    var cumGrand := new UsageTotals();
    var buckets: map<Name, UsageTotals> := map[];
    var cumAgent, cumHuman := 0.0, 0.0;
    for i := 0 to |versions|
      invariant |perVersion| == i && forall j :: 0 <= j < i ==> Faithful(c, perVersion[j], versions[j])
      invariant Cumulates(cumGrand, buckets, Flatten(versions[..i]))
      invariant fresh(cumGrand) && fresh(buckets.Values)
      invariant Adds(c, versions[..i], covered, cumAgent, cumHuman)
    {
      var table;
      table, buckets := NextVersion(c, cumGrand, buckets, versions[i], Flatten(versions[..i]));
      FlattenNext(versions, i);
      AddsNext(c, versions, i, table, covered, cumAgent, cumHuman);
      perVersion := perVersion + [table];
      if Known(table) {
        covered := covered + 1;
        cumAgent, cumHuman := cumAgent + table.agent.value, cumHuman + table.human.value;
      }
    }
    assert versions[..|versions|] == versions;
    cumulative := BuildTable(c, cumGrand, buckets, Flatten(versions));
    if versions != [] && covered == |versions| {
      CumulativeFoots(c, versions, Agent);
      CumulativeFoots(c, versions, Human);
    }
    agent, human := if covered > 0 then Some(cumAgent) else None, if covered > 0 then Some(cumHuman) else None;
  }

  /** One more version: its table says whether it is covered, and what it then adds. */
  lemma CoveredSnoc(c: Config, versions: seq<seq<Message>>, i: nat, table: Table)
    requires i < |versions| && Faithful(c, table, versions[i])
    ensures CountCovered(c, versions[..i + 1]) == CountCovered(c, versions[..i]) + (if Known(table) then 1 else 0)
  {
    assert versions[..i + 1] == versions[..i] + [versions[i]] && versions[..i + 1][..i] == versions[..i];
  }

  lemma FlattenNext(versions: seq<seq<Message>>, i: nat)
    requires i < |versions|
    ensures Flatten(versions[..i + 1]) == Flatten(versions[..i]) + versions[i]
  {
    assert versions[..i + 1] == versions[..i] + [versions[i]];
    FlattenSnoc(versions[..i], versions[i]);
  }

  /** What the loop has added up: the covered versions, and what they cost either party. */
  ghost predicate Adds(c: Config, versions: seq<seq<Message>>, covered: nat, agent: real, human: real) {
    && covered == CountCovered(c, versions)
    && agent == SumCovered(c, versions, Agent) && human == SumCovered(c, versions, Human)
  }

  lemma AddsNext(
      c: Config, versions: seq<seq<Message>>, i: nat, table: Table, covered: nat, agent: real, human: real)
    requires i < |versions| && Faithful(c, table, versions[i]) && Adds(c, versions[..i], covered, agent, human)
    ensures
      if Known(table)
      then Adds(c, versions[..i + 1], covered + 1, agent + table.agent.value, human + table.human.value)
      else Adds(c, versions[..i + 1], covered, agent, human)
  {
    CoveredSnoc(c, versions, i, table);
    CoveredSums(c, versions, i, table, Agent);
    CoveredSums(c, versions, i, table, Human);
  }

  lemma CoveredSums(c: Config, versions: seq<seq<Message>>, i: nat, table: Table, party: Party)
    requires i < |versions| && Faithful(c, table, versions[i])
    ensures SumCovered(c, versions[..i + 1], party)
         == SumCovered(c, versions[..i], party) + (if Known(table) then OrZero(Shows(table, party)) else 0.0)
  {
    assert versions[..i + 1][..i] == versions[..i];
  }

  function Shows(table: Table, party: Party): Option<real> {
    if party == Agent then table.agent else table.human
  }

  /** Both totals of the table are known. */
  predicate Known(table: Table) {
    table.agent.Some? && table.human.Some?
  }
}
