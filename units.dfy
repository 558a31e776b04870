/** The time unit of a report. `output` takes an integer selector: 0 for
    nanoseconds, 1 for microseconds, 3 for seconds, and anything else
    (2 in particular) for the default, milliseconds. A unit gives the label
    printed before each value, the divisor that turns nanoseconds into the
    unit, and the number of decimals printed. */
module Units {

  datatype Unit = Unit(name: string, divisor: int, decimals: int)

  /** The position of the selected unit in the sequence ns, µs, ms, s. */
  function Scale(unitType: int): nat
  {
    if 0 <= unitType <= 3 then unitType else 2
  }

  function Pow1000(k: nat): nat
  {
    if k == 0 then 1 else 1000 * Pow1000(k - 1)
  }

  /** The unit that a selector chooses: the milliseconds default, overridden
      by each of the three other recognised selectors. */
  function SelectUnit(unitType: int): (u: Unit)
    ensures u.divisor == Pow1000(Scale(unitType)) && u.divisor > 0
    ensures u.decimals == if Scale(unitType) == 0 then 0 else if Scale(unitType) == 1 then 3 else 6
    ensures u.name == ["Nanosecs ", "Microsecs ", "Millisecs ", "Secs "][Scale(unitType)]
    ensures |u.name| <= 10
  {
    var u := Unit("Millisecs ", 1000000, 6);
    var u := if unitType == 0 then Unit("Nanosecs ", 1, 0) else u;
    var u := if unitType == 1 then Unit("Microsecs ", 1000, 3) else u;
    var u := if unitType == 3 then Unit("Secs ", 1000000000, 6) else u;
    u
  }

  /** Different selected units differ in label and in divisor, so a report
      says which unit its values are in. */
  lemma SelectUnitDistinct(t1: int, t2: int)
    requires Scale(t1) != Scale(t2)
    ensures SelectUnit(t1).name != SelectUnit(t2).name
    ensures SelectUnit(t1).divisor != SelectUnit(t2).divisor
  {
    var u1, u2 := SelectUnit(t1), SelectUnit(t2);
    assert u1.name[2] != u2.name[2] || |u1.name| != |u2.name|;
  }
}
