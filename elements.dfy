/** The records of the registry: element definitions and reaction rules, with
    every optional field of the source's object literals as an `Option`. */
module Elements {
  import opened Common

  datatype Thresholds = Thresholds(freeze: real, boil: real)

  /** One element or compound. `phase` is the `phase_at_stp` string
      ("Solid", "Liquid", "Gas" or "Plasma" in the tables). */
  datatype Element = Element(
    symbol: string,
    name: string,
    color: string,
    phase: string,
    temperature: Option<real>,
    density: Option<real>,
    flammable: bool,
    conductive: bool,
    isLife: bool,
    isSun: bool,
    lifespan: Option<int>,
    mass: Option<real>,
    heatRange: Option<real>,
    heatIntensity: Option<real>,
    thresholds: Option<Thresholds>)

  /** An entry with only the fields every table entry has. */
  function Basic(symbol: string, name: string, color: string, phase: string,
                 temperature: real, density: real): Element
  {
    Element(symbol, name, color, phase, Some(temperature), Some(density),
            false, false, false, false, None, None, None, None, None)
  }

  datatype Reactants = Reactants(center: string, neighbors: Option<seq<string>>)

  datatype Products = Products(center: string, consumed: Option<int>)

  /** One reaction rule; `enabled` is toggled at run time. */
  datatype Rule = Rule(
    name: string,
    enabled: bool,
    isCombustion: bool,
    isMagnetism: bool,
    reactants: Option<Reactants>,
    products: Option<Products>,
    probability: Option<real>,
    minTemperature: Option<real>)

  /** The merged registry, keyed by symbol. */
  type Registry = map<string, Element>

  /** `elements[s]`, absent for an unknown symbol. */
  function Lookup(reg: Registry, s: string): Option<Element> {
    if s in reg then Some(reg[s]) else None
  }

  /** Every entry carries a nominal temperature, so no pass of the engine reads
      `undefined` from the registry. */
  predicate HasTemperatures(reg: Registry) {
    forall s :: s in reg ==> reg[s].temperature.Some?
  }

  /** A reactant rule has the products the rule pass dereferences. */
  predicate RuleComplete(r: Rule) {
    r.reactants.Some? ==> r.products.Some?
  }

  predicate RulesComplete(rules: seq<Rule>) {
    forall i :: 0 <= i < |rules| ==> RuleComplete(rules[i])
  }

  /** The nominal temperature of a registry entry (`element.temperature`). */
  function Nominal(e: Element): real
    requires e.temperature.Some?
  {
    e.temperature.value
  }
}
