/** Assembling the registry from the three loaded tables (js/data.js). The
    tables themselves arrive from script files, which is browser I/O; here
    they are parameters, `None` standing for a table that did not load. */
module Data {
  import opened Common
  import opened Elements
  import opened Compounds

  /** The registry used when any table is missing. */
  const FALLBACK: Registry := map[
    "VACUUM" := Basic("VACUUM", "Vacuum", "#000000", "Gas", -273.0, 0.0),
    "ERROR" := Basic("ERROR", "Error", "#FF00FF", "Solid", 0.0, 1.0)
  ]

  predicate Falsy(t: Option<real>) {
    t.None? || t.value == 0.0
  }

  /** An element after the room-temperature default. */
  function WithRoomTemperature(e: Element): Element {
    if Falsy(e.temperature) then e.(temperature := Some(25.0)) else e
  }

  /** The element table after the defaulting loop. */
  ghost function Defaulted(data: map<string, Element>): map<string, Element> {
    map k | k in data :: WithRoomTemperature(data[k])
  }

  /** The loop that gives every element without a truthy temperature the
      room temperature 25, in place. */
  method DefaultTemperatures(data: map<string, Element>) returns (out: map<string, Element>)
    ensures out == Defaulted(data)
  {
    out := data;
    var todo := data.Keys;
    while todo != {}
      invariant todo <= data.Keys
      invariant out.Keys == data.Keys
      invariant forall k :: k in data && k !in todo ==> out[k] == WithRoomTemperature(data[k])
      invariant forall k :: k in todo ==> out[k] == data[k]
      decreases todo
    {
      var k :| k in todo;
      if Falsy(out[k].temperature) {
        out := out[k := out[k].(temperature := Some(25.0))];
      }
      todo := todo - {k};
    }
  }

  /** The defaulting touches exactly the entries whose temperature is falsy,
      and leaves no falsy temperature behind. */
  lemma DefaultedEntries(data: map<string, Element>)
    ensures Defaulted(data).Keys == data.Keys
    ensures forall k :: k in data && Falsy(data[k].temperature) ==>
      Defaulted(data)[k] == data[k].(temperature := Some(25.0))
    ensures forall k :: k in data && !Falsy(data[k].temperature) ==> Defaulted(data)[k] == data[k]
    ensures forall k :: k in data ==> !Falsy(Defaulted(data)[k].temperature)
  {
  }

  /** `{ ...elementsData, ...compoundsData }`. */
  function Merge(elementsData: Registry, compoundsData: Registry): (m: Registry)
    ensures m.Keys == elementsData.Keys + compoundsData.Keys
    ensures forall k :: k in compoundsData ==> m[k] == compoundsData[k]
    ensures forall k :: k in elementsData && k !in compoundsData ==> m[k] == elementsData[k]
  {
    elementsData + compoundsData
  }

  /** A registry loaded from any element table and the compound table gives
      every symbol a nominal temperature, as the engine needs. */
  lemma LoadedHasTemperatures(elementsData: Registry)
    ensures HasTemperatures(Merge(Defaulted(elementsData), COMPOUNDS_DATA))
    ensures HasTemperatures(FALLBACK)
  {
    DefaultedEntries(elementsData);
    CompoundsWellFormed();
  }

  /** The module state of js/data.js: the registry and the rule list. */
  class DataStore {
    var elements: Registry
    var rules: seq<Rule>

    constructor ()
      ensures elements == map[] && rules == []
    {
      elements := map[];
      rules := [];
    }

    /** `loadData` after the script files have been fetched. */
    method LoadData(elementsData: Option<Registry>, compoundsData: Option<Registry>,
                    rulesData: Option<seq<Rule>>)
      modifies this
      ensures elementsData.None? || compoundsData.None? || rulesData.None? ==>
        elements == FALLBACK && rules == []
      ensures elementsData.Some? && compoundsData.Some? && rulesData.Some? ==>
        elements == Merge(Defaulted(elementsData.value), compoundsData.value) &&
        rules == rulesData.value
    {
      if elementsData.None? || compoundsData.None? || rulesData.None? {
        elements := FALLBACK;
        rules := [];
        return;
      }
      var defaulted := DefaultTemperatures(elementsData.value);
      elements := Merge(defaulted, compoundsData.value);
      rules := rulesData.value;
    }

    /** `getElement(symbol)`: the entry, or nothing for an unknown symbol. */
    function GetElement(symbol: string): (e: Option<Element>)
      reads this
      ensures e.Some? <==> symbol in elements
      ensures e.Some? ==> e.value == elements[symbol]
    {
      Lookup(elements, symbol)
    }

    /** `getRules()`: the stored list, in its order. */
    function GetRules(): seq<Rule>
      reads this
    {
      rules
    }
  }

  /** The fallback holds exactly VACUUM and ERROR. */
  lemma FallbackContents()
    ensures FALLBACK.Keys == {"VACUUM", "ERROR"}
    ensures FALLBACK["VACUUM"].temperature == Some(-273.0) && FALLBACK["VACUUM"].phase == "Gas"
  {
  }
}
