/** The constant table of synthetic compounds (`COMPOUNDS_DATA`) and what the
    engine relies on about it. */
module Compounds {
  import opened Common
  import opened Elements

  const COMPOUNDS_DATA: map<string, Element> := map[
    "VACUUM" := Basic("VACUUM", "Vacuum", "#000000", "Gas", -273.0, 0.0),
    "HEAT" := Basic("HEAT", "Heat Source", "#FF4500", "Solid", 1000.0, 10.0),
    "COLD" := Basic("COLD", "Cold Source", "#00BFFF", "Solid", -100.0, 10.0),
    "FIRE" := Basic("FIRE", "Fire", "#FF4500", "Gas", 800.0, 0.1).(lifespan := Some(15)),
    "H2O" := Basic("H2O", "Water", "#3498DB", "Liquid", 25.0, 1.0)
               .(thresholds := Some(Thresholds(0.0, 100.0))),
    "ICE" := Basic("ICE", "Ice", "#A9CCE3", "Solid", -10.0, 0.917),
    "STEAM" := Basic("STEAM", "Steam", "#F2F3F4", "Gas", 110.0, 0.0006),
    "LIFE" := Basic("LIFE", "Life", "#2ECC71", "Solid", 25.0, 1.1)
                .(isLife := true, lifespan := Some(100)),
    "DEAD" := Basic("DEAD", "Dead Matter", "#784212", "Solid", 25.0, 0.9),
    "CO2" := Basic("CO2", "Carbon Dioxide", "#A0A0A0", "Gas", 25.0, 1.977),
    "SO2" := Basic("SO2", "Sulfur Dioxide", "#F0E68C", "Gas", 25.0, 2.6288),
    "H2SO4" := Basic("H2SO4", "Sulfuric Acid", "#FFD700", "Liquid", 25.0, 1.83),
    "NACL" := Basic("NACL", "Salt", "#FDFEFE", "Solid", 25.0, 2.16),
    "CH4" := Basic("CH4", "Methane", "#B2FF66", "Gas", 25.0, 0.657).(flammable := true),
    "OIL" := Basic("OIL", "Oil", "#333333", "Liquid", 25.0, 0.9).(flammable := true),
    "LAVA" := Basic("LAVA", "Lava", "#CF1020", "Liquid", 1200.0, 2.5),
    "SUN" := Basic("SUN", "Sun", "#FFD700", "Solid", 5500.0, 100.0)
               .(isSun := true, heatRange := Some(50.0), heatIntensity := Some(100.0)),
    "FUSION_SUN" := Basic("FUSION_SUN", "Fusion Sun", "#FFEB3B", "Plasma", 15000.0, 200.0)
                      .(isSun := true, heatRange := Some(60.0), heatIntensity := Some(120.0))
  ]

  predicate IsPhase(p: string) {
    p == "Solid" || p == "Liquid" || p == "Gas" || p == "Plasma"
  }

  /** Every key names its own entry, and every entry has a temperature, a
      density and one of the four phases. */
  lemma CompoundsWellFormed()
    ensures forall k :: k in COMPOUNDS_DATA ==> COMPOUNDS_DATA[k].symbol == k
    ensures forall k :: k in COMPOUNDS_DATA ==>
      COMPOUNDS_DATA[k].temperature.Some? && COMPOUNDS_DATA[k].density.Some?
    ensures forall k :: k in COMPOUNDS_DATA ==> IsPhase(COMPOUNDS_DATA[k].phase)
    ensures HasTemperatures(COMPOUNDS_DATA)
  {
  }

  /** Vacuum, which every pass treats specially. */
  lemma VacuumCompound()
    ensures COMPOUNDS_DATA["VACUUM"].phase == "Gas"
    ensures COMPOUNDS_DATA["VACUUM"].temperature == Some(-273.0)
    ensures COMPOUNDS_DATA["VACUUM"].density == Some(0.0)
  {
  }

  /** The two temperature sources. */
  lemma SourceCompounds()
    ensures COMPOUNDS_DATA["HEAT"].temperature == Some(1000.0)
    ensures COMPOUNDS_DATA["COLD"].temperature == Some(-100.0)
    ensures COMPOUNDS_DATA["HEAT"].phase == "Solid" && COMPOUNDS_DATA["COLD"].phase == "Solid"
    ensures COMPOUNDS_DATA["HEAT"].density == Some(10.0) && COMPOUNDS_DATA["COLD"].density == Some(10.0)
  {
  }

  /** The two entries with a lifespan. */
  lemma LifespanCompounds()
    ensures COMPOUNDS_DATA["LIFE"].lifespan == Some(100)
    ensures COMPOUNDS_DATA["FIRE"].lifespan == Some(15)
    ensures COMPOUNDS_DATA["FIRE"].temperature == Some(800.0)
  {
  }

  /** Which entries carry each flag. */
  lemma CompoundFlags()
    ensures forall k :: k in COMPOUNDS_DATA ==> (COMPOUNDS_DATA[k].isLife <==> k == "LIFE")
    ensures forall k :: k in COMPOUNDS_DATA ==> (COMPOUNDS_DATA[k].flammable <==> k == "CH4" || k == "OIL")
    ensures forall k :: k in COMPOUNDS_DATA ==> (COMPOUNDS_DATA[k].isSun <==> k == "SUN" || k == "FUSION_SUN")
    ensures forall k :: k in COMPOUNDS_DATA ==> (COMPOUNDS_DATA[k].lifespan.Some? <==> k == "LIFE" || k == "FIRE")
  {
  }
}
