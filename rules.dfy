/** The constant table of reaction rules (`RULES_DATA`), in its order, which
    is the rule pass's implicit priority. */
module RuleTable {
  import opened Common
  import opened Elements

  function Reaction(name: string, center: string, neighbors: seq<string>,
                    product: string, consumed: int, probability: real): Rule
  {
    Rule(name, true, false, false, Some(Reactants(center, Some(neighbors))),
         Some(Products(product, Some(consumed))), Some(probability), None)
  }

  const RULES_DATA: seq<Rule> := [
    Reaction("Water Formation (O + 2H)", "O", ["H", "H"], "H2O", 2, 1.0),
    Reaction("Salt Formation (Na + Cl)", "Na", ["Cl"], "NACL", 1, 0.2),
    Reaction("Methane Formation (C + 4H)", "C", ["H", "H", "H", "H"], "CH4", 4, 0.05),
    Rule("Combustion (Flammable + O)", true, true, false, None, None, Some(0.1), None),
    Reaction("Oil Combustion (OIL + FIRE)", "OIL", ["FIRE"], "FIRE", 1, 1.0),
    Reaction("CO2 Formation (C + O)", "C", ["O"], "CO2", 1, 0.5),
    Reaction("SO2 Formation (S + O)", "S", ["O"], "SO2", 1, 0.5),
    Reaction("Photosynthesis (CO2 + H2O)", "CO2", ["H2O"], "LIFE", 1, 0.1),
    Reaction("Acid Rain (SO2 + H2O)", "SO2", ["H2O"], "H2SO4", 1, 0.2),
    Reaction("Salt Dissolution (NACL + H2O)", "NACL", ["H2O"], "H2O", 1, 0.4),
    Reaction("Neutralization (H2SO4 + Na)", "H2SO4", ["Na"], "NACL", 1, 0.2),
    Reaction("Rusting (Fe + O)", "Fe", ["O"], "DEAD", 1, 0.05),
    Reaction("Life Decay (LIFE)", "LIFE", [], "DEAD", 0, 0.005),
    Reaction("Dead Matter Decomposition (DEAD + O)", "DEAD", ["O"], "CO2", 1, 0.01),
    Reaction("Steam Condensation (STEAM + COLD)", "STEAM", ["COLD"], "H2O", 1, 1.0),
    Reaction("Ice Melting (ICE + HEAT)", "ICE", ["HEAT"], "H2O", 1, 1.0),
    Reaction("Water Freezing (H2O + COLD)", "H2O", ["COLD"], "ICE", 1, 1.0),
    Rule("Magnetism (Attraction)", true, false, true, None, None, Some(0.5), None),
    Reaction("Hydrogen Fusion (2H_PLASMA -> HE_PLASMA + Energy)", "H_PLASMA", ["H_PLASMA"],
             "HE_PLASMA", 1, 0.8).(minTemperature := Some(6000.0)),
    Reaction("Sun Formation (H_PLASMA + HE_PLASMA -> FUSION_SUN)", "H_PLASMA", ["HE_PLASMA"],
             "FUSION_SUN", 1, 0.01).(minTemperature := Some(7000.0))
  ]

  /** Every reactant rule names its products, and consumes as many neighbours
      as it requires. */
  lemma ReactantRulesComplete()
    ensures RulesComplete(RULES_DATA)
    ensures forall i :: 0 <= i < |RULES_DATA| && RULES_DATA[i].reactants.Some? ==>
      RULES_DATA[i].reactants.value.neighbors.Some? &&
      RULES_DATA[i].products.value.consumed == Some(|RULES_DATA[i].reactants.value.neighbors.value|)
  {
  }

  /** Every rule starts enabled with a probability in (0, 1]. */
  lemma RuleGates()
    ensures forall i :: 0 <= i < |RULES_DATA| ==>
      RULES_DATA[i].enabled && RULES_DATA[i].probability.Some? &&
      0.0 < RULES_DATA[i].probability.value <= 1.0
  {
  }

  /** Exactly one combustion rule and one magnetism rule, neither with
      reactants; only the two plasma rules carry a minimum temperature. */
  lemma SpecialRules()
    ensures |RULES_DATA| == 20
    ensures forall i :: 0 <= i < |RULES_DATA| ==> (RULES_DATA[i].isCombustion <==> i == 3)
    ensures forall i :: 0 <= i < |RULES_DATA| ==> (RULES_DATA[i].isMagnetism <==> i == 17)
    ensures RULES_DATA[3].reactants.None? && RULES_DATA[17].reactants.None?
    ensures forall i :: 0 <= i < |RULES_DATA| ==> (RULES_DATA[i].minTemperature.Some? <==> i == 18 || i == 19)
    ensures RULES_DATA[18].reactants.value.center == "H_PLASMA" && RULES_DATA[19].reactants.value.center == "H_PLASMA"
  {
  }
}
