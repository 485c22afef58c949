/** The risk dashboard (src/components/RiskManager.tsx): the editable list of risk rules,
    the position-size calculator and the colour classifier for the headline metrics. The
    sliders' input value is an exact real; `parseFloat` and its NaN are left out. */
module RiskManager {

  datatype RuleType = PositionSize | StopLoss | DailyLoss | Concentration

  datatype RiskRule = RiskRule(
    id: string, name: string, ruleType: RuleType, value: real, enabled: bool, description: string)

  /** The six fields `keyof RiskRule` can name. */
  datatype Field = IdField | NameField | TypeField | ValueField | EnabledField | DescriptionField

  /** The `field` and `value` arguments of one `updateRiskRule` call, kept well typed. */
  datatype Edit =
    | SetId(id: string)
    | SetName(name: string)
    | SetType(ruleType: RuleType)
    | SetValue(value: real)
    | SetEnabled(enabled: bool)
    | SetDescription(description: string)

  function FieldOf(e: Edit): Field
  {
    match e
    case SetId(_) => IdField
    case SetName(_) => NameField
    case SetType(_) => TypeField
    case SetValue(_) => ValueField
    case SetEnabled(_) => EnabledField
    case SetDescription(_) => DescriptionField
  }

  /** The field `e` names already holds `e`'s value. */
  predicate Holds(rule: RiskRule, e: Edit)
  {
    match e
    case SetId(x) => rule.id == x
    case SetName(x) => rule.name == x
    case SetType(x) => rule.ruleType == x
    case SetValue(x) => rule.value == x
    case SetEnabled(x) => rule.enabled == x
    case SetDescription(x) => rule.description == x
  }

  /** `a` and `b` agree on every field except possibly `f`. */
  predicate AgreeOutside(a: RiskRule, b: RiskRule, f: Field)
  {
    && (f != IdField ==> a.id == b.id)
    && (f != NameField ==> a.name == b.name)
    && (f != TypeField ==> a.ruleType == b.ruleType)
    && (f != ValueField ==> a.value == b.value)
    && (f != EnabledField ==> a.enabled == b.enabled)
    && (f != DescriptionField ==> a.description == b.description)
  }

  /** `{ ...rule, [field]: value }`: the named field takes the new value, the rest is kept. */
  function ApplyEdit(rule: RiskRule, e: Edit): (r: RiskRule)
    ensures Holds(r, e) && AgreeOutside(rule, r, FieldOf(e))
  {
    match e
    case SetId(x) => rule.(id := x)
    case SetName(x) => rule.(name := x)
    case SetType(x) => rule.(ruleType := x)
    case SetValue(x) => rule.(value := x)
    case SetEnabled(x) => rule.(enabled := x)
    case SetDescription(x) => rule.(description := x)
  }

  /** A field update is determined by what it writes and what it keeps. */
  lemma EditDetermined(rule: RiskRule, e: Edit, r: RiskRule)
    requires Holds(r, e) && AgreeOutside(rule, r, FieldOf(e))
    ensures r == ApplyEdit(rule, e)
  {
  }

  /** Writing a value the field already holds changes nothing. */
  lemma EditNoOp(rule: RiskRule, e: Edit)
    requires Holds(rule, e)
    ensures ApplyEdit(rule, e) == rule
  {
  }

  /** The update applied inside `setRiskRules`: every rule carrying `id` is edited, every
      other rule is kept, and the list keeps its length and order. */
  function UpdateRules(rules: seq<RiskRule>, id: string, e: Edit): (r: seq<RiskRule>)
    ensures |r| == |rules|
    ensures forall i :: 0 <= i < |rules| && rules[i].id != id ==> r[i] == rules[i]
    ensures forall i :: 0 <= i < |rules| && rules[i].id == id ==>
      Holds(r[i], e) && AgreeOutside(rules[i], r[i], FieldOf(e))
  {
    seq(|rules|, i requires 0 <= i < |rules| => if rules[i].id == id then ApplyEdit(rules[i], e) else rules[i])
  }

  function Ids(rules: seq<RiskRule>): set<string>
  {
    set i | 0 <= i < |rules| :: rules[i].id
  }

  predicate DistinctIds(rules: seq<RiskRule>)
  {
    forall i, j :: 0 <= i < j < |rules| ==> rules[i].id != rules[j].id
  }

  /** An id that no rule carries leaves the list as it was. */
  lemma UnknownIdKeepsRules(rules: seq<RiskRule>, id: string, e: Edit)
    requires id !in Ids(rules)
    ensures UpdateRules(rules, id, e) == rules
  {
    var r := UpdateRules(rules, id, e);
    forall i | 0 <= i < |rules| ensures r[i] == rules[i] {
      assert rules[i].id in Ids(rules);
    }
  }

  /** Repeating an update has no further effect, whatever field it writes. */
  lemma UpdateIdempotent(rules: seq<RiskRule>, id: string, e: Edit)
    ensures UpdateRules(UpdateRules(rules, id, e), id, e) == UpdateRules(rules, id, e)
  {
    var once := UpdateRules(rules, id, e);
    var twice := UpdateRules(once, id, e);
    forall i | 0 <= i < |rules| ensures twice[i] == once[i] {
      if once[i].id == id {
        EditDetermined(once[i], e, twice[i]);
        EditNoOp(once[i], e);
      }
    }
  }

  /** Every edit except a change of id keeps the ids, so distinct ids stay distinct. */
  lemma UpdateKeepsIds(rules: seq<RiskRule>, id: string, e: Edit)
    requires !e.SetId?
    ensures Ids(UpdateRules(rules, id, e)) == Ids(rules)
    ensures DistinctIds(rules) ==> DistinctIds(UpdateRules(rules, id, e))
  {
    var r := UpdateRules(rules, id, e);
    assert forall i :: 0 <= i < |rules| ==> r[i].id == rules[i].id;
    forall x | x in Ids(rules) ensures x in Ids(r) {
      var i :| 0 <= i < |rules| && rules[i].id == x;
      assert r[i].id == x;
    }
  }

  /** With distinct ids, exactly one rule changes, and only in the edited field. */
  lemma UpdateTargetsOneRule(rules: seq<RiskRule>, k: nat, e: Edit)
    requires DistinctIds(rules) && k < |rules|
    ensures
      var r := UpdateRules(rules, rules[k].id, e);
      && Holds(r[k], e) && AgreeOutside(rules[k], r[k], FieldOf(e))
      && (forall i :: 0 <= i < |rules| && i != k ==> r[i] == rules[i])
  {
  }

  // ---------------------------------------------------------------------------
  // The rule list as the component's state

  /** The rules the panel opens with. */
  const InitialRules: seq<RiskRule> := [
    RiskRule("max_position", "Max Position Size", PositionSize, 10.0, true,
      "Maximum percentage of portfolio per position"),
    RiskRule("stop_loss", "Stop Loss", StopLoss, 2.0, true,
      "Maximum loss per trade as percentage"),
    RiskRule("daily_loss", "Daily Loss Limit", DailyLoss, 5.0, true,
      "Maximum daily portfolio loss percentage"),
    RiskRule("concentration", "Sector Concentration", Concentration, 25.0, false,
      "Maximum allocation to single sector")
  ]

  function TypesOf(rules: seq<RiskRule>): set<RuleType>
  {
    set i | 0 <= i < |rules| :: rules[i].ruleType
  }

  /** Four rules, one of each type, with distinct ids; only the concentration rule is off. */
  lemma InitialRulesShape()
    ensures |InitialRules| == 4 && DistinctIds(InitialRules)
    ensures forall t: RuleType :: t in TypesOf(InitialRules)
    ensures forall i :: 0 <= i < 4 ==> (!InitialRules[i].enabled <==> InitialRules[i].ruleType == Concentration)
  {
    forall t: RuleType ensures t in TypesOf(InitialRules) {
      match t
      case PositionSize => assert InitialRules[0].ruleType == t;
      case StopLoss => assert InitialRules[1].ruleType == t;
      case DailyLoss => assert InitialRules[2].ruleType == t;
      case Concentration => assert InitialRules[3].ruleType == t;
    }
  }

  class RiskPanel {
    var riskRules: seq<RiskRule>

    constructor ()
      ensures riskRules == InitialRules
    {
      riskRules := InitialRules;
    }

    /** `updateRiskRule(id, field, value)`: the switch sends `SetEnabled`, the slider and the
        number box send `SetValue`. */
    method UpdateRiskRule(id: string, e: Edit)
      modifies this
      ensures riskRules == UpdateRules(old(riskRules), id, e)
      ensures !e.SetId? && DistinctIds(old(riskRules)) ==> DistinctIds(riskRules)
    {
      if !e.SetId? {
        UpdateKeepsIds(riskRules, id, e);
      }
      riskRules := UpdateRules(riskRules, id, e);
    }
  }

  // ---------------------------------------------------------------------------
  // The slider

  const SliderMin: real := 1.0
  const SliderStep: real := 0.5

  /** The slider's upper end for a rule of type `t`. */
  function SliderMax(t: RuleType): (r: real)
    ensures SliderMin < r && OnStep(r)
    ensures t == Concentration ==> r == 50.0
    ensures t == PositionSize ==> r == 20.0
    ensures t == StopLoss || t == DailyLoss ==> r == 10.0
  {
    if t == Concentration then 50.0 else if t == PositionSize then 20.0 else 10.0
  }

  /** `v` is a position the slider can stop at: a whole number of steps above the minimum. */
  predicate OnStep(v: real)
  {
    ((v - SliderMin) / SliderStep).Floor as real == (v - SliderMin) / SliderStep
  }

  /** Every opening rule value is a stop of its own slider. */
  lemma InitialRulesOnSlider()
    ensures forall i :: 0 <= i < |InitialRules| ==>
      var rule := InitialRules[i];
      SliderMin <= rule.value <= SliderMax(rule.ruleType) && OnStep(rule.value)
  {
    assert OnStep(10.0) && OnStep(2.0) && OnStep(5.0) && OnStep(25.0);
  }

  // ---------------------------------------------------------------------------
  // The position-size calculator

  /** `calculatePositionSize`: the floor of the risk budget over the stop distance, both
      percentages of their base. A zero stop (a division by zero in the source) is excluded. */
  function CalculatePositionSize(portfolioValue: real, riskPerTrade: real, stopLoss: real): (r: int)
    requires stopLoss != 0.0
    ensures r as real <= portfolioValue * riskPerTrade / stopLoss < r as real + 1.0
  {
    CancelHundredths(portfolioValue * riskPerTrade, stopLoss);
    ((portfolioValue * riskPerTrade / 100.0) / (stopLoss / 100.0)).Floor
  }

  lemma CancelHundredths(x: real, s: real)
    requires s != 0.0
    ensures (x / 100.0) / (s / 100.0) == x / s
  {
    assert (x / s) * (s / 100.0) == x / 100.0;
  }

  /** The money at risk per trade. */
  function RiskBudget(portfolioValue: real, riskPerTrade: real): real
  {
    portfolioValue * riskPerTrade / 100.0
  }

  /** The loss of a position of `size` stopped out at `stopLoss` percent. */
  function StopOutLoss(size: int, stopLoss: real): real
  {
    size as real * stopLoss / 100.0
  }

  /** With a positive stop, the result is the largest whole position whose stop-out loss
      stays within the risk budget. */
  lemma PositionSizeFitsBudget(portfolioValue: real, riskPerTrade: real, stopLoss: real)
    requires stopLoss > 0.0
    ensures
      var r := CalculatePositionSize(portfolioValue, riskPerTrade, stopLoss);
      && StopOutLoss(r, stopLoss) <= RiskBudget(portfolioValue, riskPerTrade)
      && StopOutLoss(r + 1, stopLoss) > RiskBudget(portfolioValue, riskPerTrade)
  {
    var r := CalculatePositionSize(portfolioValue, riskPerTrade, stopLoss);
    var q := portfolioValue * riskPerTrade / stopLoss;
    var c := stopLoss / 100.0;
    ScaleBelow(r as real, q, c);
    ScaleBelow(q, r as real + 1.0, c);
    assert q * c == RiskBudget(portfolioValue, riskPerTrade);
    assert StopOutLoss(r, stopLoss) == r as real * c;
    var next := r as real + 1.0;
    assert (r + 1) as real == next;
    assert StopOutLoss(r + 1, stopLoss) == next * stopLoss / 100.0 == next * c;
    assert q < next;
    assert q * c < next * c;
  }

  lemma ScaleBelow(x: real, y: real, c: real)
    requires x <= y && c > 0.0
    ensures x * c <= y * c
    ensures x < y ==> x * c < y * c
  {
  }

  /** A larger portfolio never gets a smaller recommended position. */
  lemma PositionSizeMonotone(v1: real, v2: real, riskPerTrade: real, stopLoss: real)
    requires v1 <= v2 && riskPerTrade >= 0.0 && stopLoss > 0.0
    ensures CalculatePositionSize(v1, riskPerTrade, stopLoss) <= CalculatePositionSize(v2, riskPerTrade, stopLoss)
  {
    var c := riskPerTrade / stopLoss;
    assert c >= 0.0;
    assert v1 * riskPerTrade / stopLoss == v1 * c;
    assert v2 * riskPerTrade / stopLoss == v2 * c;
    if c > 0.0 {
      ScaleBelow(v1, v2, c);
    }
    assert v1 * c <= v2 * c;
  }

  /** The calculator's default inputs (a 50,000 portfolio, 2% risk, 3% stop). */
  lemma DefaultInputsSize()
    ensures CalculatePositionSize(50000.0, 2.0, 3.0) == 33333
  {
    var q := 50000.0 * 2.0 / 3.0;
    assert 33333.0 <= q < 33334.0;
  }

  /** The recommendation the calculator card shows, fixed in the markup. */
  const ShownRecommendation: int := 3333

  /** The shown figure is not what the calculator's own formula gives at the card's
      default inputs: that is ten times as much, plus three. */
  lemma ShownRecommendationDisagrees()
    ensures CalculatePositionSize(50000.0, 2.0, 3.0) == 10 * ShownRecommendation + 3
    ensures CalculatePositionSize(50000.0, 2.0, 3.0) != ShownRecommendation
  {
    DefaultInputsSize();
  }

  // ---------------------------------------------------------------------------
  // The metric classifier

  datatype Level = Low | Medium | High

  function Rank(l: Level): nat
  {
    match l
    case Low => 0
    case Medium => 1
    case High => 2
  }

  /** The text colour class of each level. */
  function ColorOf(l: Level): string
  {
    match l
    case Low => "text-green-600"
    case Medium => "text-yellow-600"
    case High => "text-red-600"
  }

  datatype RiskLevel = RiskLevel(level: Level, color: string)

  /** `getRiskLevel(value, type)`: value at risk is High above 5000 and Low at 2000 or below;
      drawdown is High above 15 and Low at 8 or below; between, and for any other metric,
      Medium. The colour always matches the level. */
  function GetRiskLevel(value: real, kind: string): (r: RiskLevel)
    ensures r.color == ColorOf(r.level)
    ensures kind == "var95" ==> (r.level == High <==> value > 5000.0) && (r.level == Low <==> value <= 2000.0)
    ensures kind == "drawdown" ==> (r.level == High <==> value > 15.0) && (r.level == Low <==> value <= 8.0)
    ensures kind != "var95" && kind != "drawdown" ==> r.level == Medium
  {
    if kind == "var95" then
      if value > 5000.0 then RiskLevel(High, "text-red-600")
      else if value > 2000.0 then RiskLevel(Medium, "text-yellow-600")
      else RiskLevel(Low, "text-green-600")
    else if kind == "drawdown" then
      if value > 15.0 then RiskLevel(High, "text-red-600")
      else if value > 8.0 then RiskLevel(Medium, "text-yellow-600")
      else RiskLevel(Low, "text-green-600")
    else RiskLevel(Medium, "text-yellow-600")
  }

  /** For every metric, a larger value never yields a lower level. */
  lemma RiskLevelMonotone(v1: real, v2: real, kind: string)
    requires v1 <= v2
    ensures Rank(GetRiskLevel(v1, kind).level) <= Rank(GetRiskLevel(v2, kind).level)
  {
  }

  /** The two figures the dashboard classifies: value at risk 2850 and drawdown 8.5, both
      Medium, so both show in yellow. */
  const Var95: real := 2850.0
  const MaxDrawdown: real := 8.5

  lemma DashboardLevels()
    ensures GetRiskLevel(Var95, "var95") == RiskLevel(Medium, "text-yellow-600")
    ensures GetRiskLevel(MaxDrawdown, "drawdown") == RiskLevel(Medium, "text-yellow-600")
  {
  }
}
