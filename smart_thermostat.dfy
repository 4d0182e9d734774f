/** The smart thermostat of Module7_SmartThermostat/Thermostat-1.py: a
    three-state machine (off, heat, cool) with an integer set-point, two LEDs
    whose behaviour is recomputed from (state, temperature, set-point), and a
    display loop that alternates the second LCD line and sends a telemetry
    record over the serial port every 30th tick.

    The temperature enters every operation as an `int` that is already the
    floor of the Fahrenheit reading; the sensor, the LCD, the serial port and
    the clock are outside the model. */
module SmartThermostat {
  import opened Text

  /** Width of the character LCD. */
  const LcdColumns: nat := 16

  /** Set-point a new machine starts with, in degrees Fahrenheit. */
  const DefaultSetPoint: int := 72

  datatype State = Off | Heat | Cool

  /** What a PWM LED is told to do: `off()` (dark), `on()` (lit) or `pulse()`. */
  datatype Led = Dark | Lit | Pulse

  datatype Leds = Leds(red: Led, blue: Led)

  /** Which text the second LCD line shows on a tick. */
  datatype Line2 = TempReading | ModeAndSetPoint

  /** A decoded telemetry record. */
  datatype Record = Record(state: State, tempF: int, setPoint: int)

  /** The state's identifier, as the serial record spells it. */
  function Id(s: State): string {
    match s
    case Off => "off"
    case Heat => "heat"
    case Cool => "cool"
  }

  /** The `cycle` transition: off to heat, heat to cool, cool to off. */
  function Next(s: State): (r: State)
    ensures r != s
  {
    match s
    case Off => Heat
    case Heat => Cool
    case Cool => Off
  }

  /** Cycling is a rotation of order three: no state comes back sooner. */
  lemma CycleOrderThree(s: State)
    ensures Next(Next(Next(s))) == s
    ensures Next(Next(s)) != s
  {
  }

  /** The LED policy of `updateLights`. The red LED is lit only while heating
      and pulses exactly while the room is below the set-point; the blue LED
      is lit only while cooling and pulses exactly while the room is above
      it. Hence at most one LED is ever lit. */
  function Lights(s: State, temp: int, setPoint: int): (leds: Leds)
    ensures leds.red == Dark || leds.blue == Dark
    ensures leds.red != Dark <==> s == Heat
    ensures leds.blue != Dark <==> s == Cool
    ensures leds.red == Pulse <==> s == Heat && temp < setPoint
    ensures leds.blue == Pulse <==> s == Cool && temp > setPoint
  {
    match s
    case Heat => if temp < setPoint then Leds(Pulse, Dark) else Leds(Lit, Dark)
    case Cool => if temp > setPoint then Leds(Dark, Pulse) else Leds(Dark, Lit)
    case Off => Leds(Dark, Dark)
  }

  // ---------------------------------------------------------------------
  // Telemetry record.

  /** The record `setupSerialOutput` builds: "<state>,<tempF>,<setPoint>". */
  function SerialOutput(s: State, tempF: int, setPoint: int): string {
    Id(s) + "," + IntToString(tempF) + "," + IntToString(setPoint)
  }

  /** The line written to the serial port: the record and one line break. */
  function TelemetryLine(s: State, tempF: int, setPoint: int): string {
    SerialOutput(s, tempF, setPoint) + "\n"
  }

  lemma IdHasNoSeparator(s: State)
    ensures ',' !in Id(s) && '\n' !in Id(s)
  {
  }

  /** A telemetry line holds exactly two commas and exactly one line break,
      its last character. */
  lemma TelemetryLineShape(s: State, tempF: int, setPoint: int)
    ensures multiset(TelemetryLine(s, tempF, setPoint))[','] == 2
    ensures multiset(TelemetryLine(s, tempF, setPoint))['\n'] == 1
    ensures TelemetryLine(s, tempF, setPoint)[|TelemetryLine(s, tempF, setPoint)| - 1] == '\n'
  {
    var a, b, c := Id(s), IntToString(tempF), IntToString(setPoint);
    IdHasNoSeparator(s);
    IntToStringIsDecimal(tempF);
    IntToStringIsDecimal(setPoint);
    DecimalHasNo(b, ',');
    DecimalHasNo(c, ',');
    DecimalHasNo(b, '\n');
    DecimalHasNo(c, '\n');
    JoinedLineCounts(a, b, c, ',', '\n');
    assert TelemetryLine(s, tempF, setPoint) == a + [','] + b + [','] + c + ['\n'];
  }

  function ParseState(id: string): Option<State> {
    if id == "off" then Some(Off)
    else if id == "heat" then Some(Heat)
    else if id == "cool" then Some(Cool)
    else None
  }

  /** What a consumer of the serial port reads back from one line. */
  function ParseTelemetry(line: string): Option<Record> {
    if |line| == 0 || line[|line| - 1] != '\n' then None
    else
      var fields := Split(line[..|line| - 1], ',');
      if |fields| != 3 then None
      else
        match (ParseState(fields[0]), ParseInt(fields[1]), ParseInt(fields[2]))
        case (Some(s), Some(t), Some(sp)) => Some(Record(s, t, sp))
        case _ => None
  }

  /** Each state is read back from its identifier. */
  lemma ParseStateId(s: State)
    ensures ParseState(Id(s)) == Some(s)
  {
  }

  /** The record splits at its commas into exactly its three fields. */
  lemma SerialOutputFields(s: State, tempF: int, setPoint: int)
    ensures Split(SerialOutput(s, tempF, setPoint), ',') == [Id(s), IntToString(tempF), IntToString(setPoint)]
  {
    IdHasNoSeparator(s);
    IntToStringIsDecimal(tempF);
    IntToStringIsDecimal(setPoint);
    DecimalHasNo(IntToString(tempF), ',');
    DecimalHasNo(IntToString(setPoint), ',');
    SplitThreeFields(Id(s), IntToString(tempF), IntToString(setPoint), ',');
  }

  /** The telemetry line carries the state, the temperature and the
      set-point without loss, negative values included. */
  lemma TelemetryRoundTrip(s: State, tempF: int, setPoint: int)
    ensures ParseTelemetry(TelemetryLine(s, tempF, setPoint)) == Some(Record(s, tempF, setPoint))
  {
    var line := TelemetryLine(s, tempF, setPoint);
    var body := SerialOutput(s, tempF, setPoint);
    assert line[..|line| - 1] == body;
    SerialOutputFields(s, tempF, setPoint);
    ParseStateId(s);
    IntToStringRoundTrip(tempF);
    IntToStringRoundTrip(setPoint);
    ParseFields(line, body, Record(s, tempF, setPoint));
  }

  /** A line whose body splits into three fields that each read back
      reads back as the record they form. */
  lemma ParseFields(line: string, body: string, r: Record)
    requires |line| > 0 && line[|line| - 1] == '\n' && line[..|line| - 1] == body
    requires |Split(body, ',')| == 3
    requires ParseState(Split(body, ',')[0]) == Some(r.state)
    requires ParseInt(Split(body, ',')[1]) == Some(r.tempF)
    requires ParseInt(Split(body, ',')[2]) == Some(r.setPoint)
    ensures ParseTelemetry(line) == Some(r)
  {
  }

  /** Two machines that send the same telemetry line agree on state,
      temperature and set-point. */
  lemma TelemetryInjective(s1: State, t1: int, sp1: int, s2: State, t2: int, sp2: int)
    requires TelemetryLine(s1, t1, sp1) == TelemetryLine(s2, t2, sp2)
    ensures s1 == s2 && t1 == t2 && sp1 == sp2
  {
    TelemetryRoundTrip(s1, t1, sp1);
    TelemetryRoundTrip(s2, t2, sp2);
  }

  // ---------------------------------------------------------------------
  // Display lines.

  /** `text.ljust(16)[:16]`. */
  function DisplayLine(text: string): (line: string)
    ensures |line| == LcdColumns
  {
    LjustThenTruncate(text, LcdColumns)
  }

  /** The second line before fitting: "Temp:<t>F" or "<STATE> SP:<sp>F". */
  function Line2Text(shown: Line2, s: State, tempF: int, setPoint: int): string {
    match shown
    case TempReading => "Temp:" + IntToString(tempF) + "F"
    case ModeAndSetPoint => Upper(Id(s)) + " SP:" + IntToString(setPoint) + "F"
  }

  /** The second line shows the temperature while `altCounter` is below 6. */
  function ShownFor(altCounter: int): Line2 {
    if altCounter < 6 then TempReading else ModeAndSetPoint
  }

  /** The message sent to the LCD: two fitted lines joined by a line break. */
  function Frame(now: string, shown: Line2, s: State, tempF: int, setPoint: int): string {
    DisplayLine(now) + "\n" + DisplayLine(Line2Text(shown, s, tempF, setPoint))
  }

  /** The message fills both rows: 16 columns of time, one line break,
      16 columns of the second line. */
  lemma FrameLayout(now: string, shown: Line2, s: State, tempF: int, setPoint: int)
    ensures |Frame(now, shown, s, tempF, setPoint)| == 2 * LcdColumns + 1
    ensures Frame(now, shown, s, tempF, setPoint)[..LcdColumns] == DisplayLine(now)
    ensures Frame(now, shown, s, tempF, setPoint)[LcdColumns] == '\n'
    ensures Frame(now, shown, s, tempF, setPoint)[LcdColumns + 1..] == DisplayLine(Line2Text(shown, s, tempF, setPoint))
  {
    var m := Frame(now, shown, s, tempF, setPoint);
    assert m == DisplayLine(now) + "\n" + DisplayLine(Line2Text(shown, s, tempF, setPoint));
  }

  /** The temperature line shows "Temp:", the temperature in decimal, read
      back exactly, and the unit 'F'. */
  lemma TempLineReadsBack(s: State, tempF: int, setPoint: int)
    ensures |Line2Text(TempReading, s, tempF, setPoint)| >= 7
    ensures Line2Text(TempReading, s, tempF, setPoint)[..5] == "Temp:"
    ensures ParseInt(Line2Text(TempReading, s, tempF, setPoint)[5..|Line2Text(TempReading, s, tempF, setPoint)| - 1]) == Some(tempF)
    ensures Line2Text(TempReading, s, tempF, setPoint)[|Line2Text(TempReading, s, tempF, setPoint)| - 1] == 'F'
  {
    var t := Line2Text(TempReading, s, tempF, setPoint);
    var digits := IntToString(tempF);
    assert t == "Temp:" + digits + "F";
    assert t[5..|t| - 1] == digits;
    IntToStringRoundTrip(tempF);
  }

  /** The mode line shows the state's identifier in capitals, " SP:", the
      set-point in decimal, read back exactly, and the unit 'F'. */
  lemma ModeLineReadsBack(s: State, tempF: int, setPoint: int)
    ensures |Line2Text(ModeAndSetPoint, s, tempF, setPoint)| >= |Id(s)| + 6
    ensures Line2Text(ModeAndSetPoint, s, tempF, setPoint)[..|Id(s)|] == Upper(Id(s))
    ensures Line2Text(ModeAndSetPoint, s, tempF, setPoint)[|Id(s)|..|Id(s)| + 4] == " SP:"
    ensures ParseInt(Line2Text(ModeAndSetPoint, s, tempF, setPoint)[|Id(s)| + 4..|Line2Text(ModeAndSetPoint, s, tempF, setPoint)| - 1]) == Some(setPoint)
    ensures Line2Text(ModeAndSetPoint, s, tempF, setPoint)[|Line2Text(ModeAndSetPoint, s, tempF, setPoint)| - 1] == 'F'
  {
    var t := Line2Text(ModeAndSetPoint, s, tempF, setPoint);
    var n := |Id(s)|;
    var digits := IntToString(setPoint);
    assert t == Upper(Id(s)) + " SP:" + digits + "F";
    assert t[n + 4..|t| - 1] == digits;
    IntToStringRoundTrip(setPoint);
  }

  /** What a tick writes to the serial port, given `counter` at its start. */
  function TelemetryFor(counter: int, s: State, tempF: int, setPoint: int): Option<string> {
    if counter % 30 == 0 then Some(TelemetryLine(s, tempF, setPoint)) else None
  }

  // ---------------------------------------------------------------------
  // Cadence of the display loop.

  /** How `altCounter` moves on one tick. */
  function NextAlt(a: int): (b: int)
    ensures a < 10 ==> b == a + 1
    ensures a >= 10 ==> b == 1
  {
    if a < 6 then a + 1
    else if a + 1 >= 11 then 1
    else a + 1
  }

  /** How `counter` moves on one tick. */
  function NextCounter(c: int): (d: int)
    ensures 1 <= c < 30 ==> d == c + 1
    ensures c == 30 ==> d == 1
  {
    if c % 30 == 0 then 1 else c + 1
  }

  /** `altCounter` after `k` ticks starting from `a0`. */
  function AltCounterAfter(a0: int, k: nat): int {
    if k == 0 then a0 else NextAlt(AltCounterAfter(a0, k - 1))
  }

  /** `counter` after `k` ticks starting from `c0`. */
  function CounterAfter(c0: int, k: nat): int {
    if k == 0 then c0 else NextCounter(CounterAfter(c0, k - 1))
  }

  /** The entries of `xs` (one per tick) for the ticks among the first
      `n` of a display loop started with `counter` at 1 that start with
      `counter` a multiple of 30: the ticks that write telemetry. */
  function AtWriteTicks<T>(xs: seq<T>, n: nat): seq<T>
    requires n <= |xs|
  {
    if n == 0 then []
    else AtWriteTicks(xs, n - 1) + (if CounterAfter(1, n - 1) % 30 == 0 then [xs[n - 1]] else [])
  }

  /** The telemetry line each tick would write, given its temperature. */
  function TelemetryLines(temps: seq<int>, s: State, setPoint: int): (lines: seq<string>)
    ensures |lines| == |temps|
  {
    seq(|temps|, k requires 0 <= k < |temps| => TelemetryLine(s, temps[k], setPoint))
  }

  /** What the serial port receives during the first `n` ticks, while
      state and set-point stay as given. */
  function SerialLog(temps: seq<int>, s: State, setPoint: int, n: nat): seq<string>
    requires n <= |temps|
  {
    AtWriteTicks(TelemetryLines(temps, s, setPoint), n)
  }

  /** The LEDs after the first `n` ticks of a display loop started with
      `altCounter` at 1: recomputed from the tick's temperature on each
      tick that starts with `altCounter` at 10, untouched otherwise. */
  function LedsAfter(temps: seq<int>, s: State, setPoint: int, initial: Leds, n: nat): Leds
    requires n <= |temps|
  {
    if n == 0 then initial
    else if AltCounterAfter(1, n - 1) >= 10 then Lights(s, temps[n - 1], setPoint)
    else LedsAfter(temps, s, setPoint, initial, n - 1)
  }

  /** The counters of a loop started with both at 1, after `k` ticks. */
  lemma FreshCounters(k: nat)
    ensures ShownFor(AltCounterAfter(1, k)) == if k % 10 < 5 then TempReading else ModeAndSetPoint
    ensures CounterAfter(1, k) % 30 == 0 <==> (k + 1) % 30 == 0
  {
    AltCounterPeriod(1, k);
    CounterPeriod(1, k);
    OnlyThirtyWraps(CounterAfter(1, k));
    WrapResidues(k);
  }

  /** Within 1..30 only 30 is a multiple of 30. */
  lemma OnlyThirtyWraps(c: int)
    requires 1 <= c <= 30
    ensures c % 30 == 0 <==> c == 30
  {
  }

  /** The residues of a pass number that the closed forms of the counters
      compare against. */
  lemma WrapResidues(k: nat)
    ensures k % 30 + 1 == 30 <==> (k + 1) % 30 == 0
    ensures k % 10 + 1 < 6 <==> k % 10 < 5
  {
    ModStep(k, 30);
  }

  /** At the top of every tick of a loop started with both counters at 1,
      `altCounter` lies in 1..10 and `counter` in 1..30, so the loop sends
      telemetry exactly when `counter` is 30. */
  lemma CounterBounds(k: nat)
    ensures 1 <= AltCounterAfter(1, k) <= 10
    ensures 1 <= CounterAfter(1, k) <= 30
    ensures CounterAfter(1, k) % 30 == 0 <==> CounterAfter(1, k) == 30
  {
    AltCounterPeriod(1, k);
    CounterPeriod(1, k);
    OnlyThirtyWraps(CounterAfter(1, k));
  }

  /** Counting modulo 10 or 30 one step further wraps from the last
      residue to 0. */
  lemma ModStep(x: nat, m: nat)
    requires m == 10 || m == 30
    ensures (x + 1) % m == if x % m == m - 1 then 0 else x % m + 1
  {
  }

  lemma {:induction false} AltCounterPeriod(a0: int, k: nat)
    requires 1 <= a0 <= 10
    ensures AltCounterAfter(a0, k) == (a0 - 1 + k) % 10 + 1
  {
    if k > 0 {
      AltCounterPeriod(a0, k - 1);
      ModStep(a0 - 1 + k - 1, 10);
    }
  }

  lemma {:induction false} CounterPeriod(c0: int, k: nat)
    requires 1 <= c0 <= 30
    ensures CounterAfter(c0, k) == (c0 - 1 + k) % 30 + 1
  {
    if k > 0 {
      CounterPeriod(c0, k - 1);
      var c := CounterAfter(c0, k - 1);
      assert 1 <= c <= 30;
      ModStep(c0 - 1 + k - 1, 30);
    }
  }

  /** From the start of the loop, tick `t` (counted from 1) shows the
      temperature on ticks 1..5 of every ten and the mode on ticks 6..10,
      and recomputes the LEDs exactly on every tenth tick. */
  lemma DisplayAlternation(t: nat)
    requires t >= 1
    ensures AltCounterAfter(1, t - 1) <= 5 <==> (t - 1) % 10 < 5
    ensures AltCounterAfter(1, t - 1) == 10 <==> t % 10 == 0
  {
    AltCounterPeriod(1, t - 1);
  }

  /** The ticks (counted from 1) among the first `n` of a loop started
      with `counter` at 1 on which a telemetry line is written, in order. */
  function WriteTicks(n: nat): (ticks: seq<nat>)
    ensures forall j | 0 <= j < |ticks| :: 1 <= ticks[j] <= n
  {
    if n == 0 then []
    else WriteTicks(n - 1) + (if CounterAfter(1, n - 1) % 30 == 0 then [n] else [])
  }

  lemma ModShift(m: nat, r: int)
    requires 0 <= r < 30
    ensures (30 * m + r) % 30 == r
  {
  }

  /** No telemetry is written on the 29 ticks that follow a write. */
  lemma {:induction false} QuietBetweenWrites(m: nat, j: nat)
    requires j < 30
    ensures WriteTicks(30 * m + j) == WriteTicks(30 * m)
  {
    if j > 0 {
      var n := 30 * m + j;
      QuietBetweenWrites(m, j - 1);
      CounterPeriod(1, n - 1);
      ModShift(m, j - 1);
      assert CounterAfter(1, n - 1) == j;
      assert WriteTicks(n) == WriteTicks(n - 1);
    }
  }

  /** From the start of the loop, telemetry is written exactly on ticks
      30, 60, 90, ... */
  lemma {:induction false} WritesEveryThirtiethTick(m: nat)
    ensures |WriteTicks(30 * m)| == m
    ensures forall i | 0 <= i < m :: WriteTicks(30 * m)[i] == 30 * (i + 1)
  {
    if m > 0 {
      var n := 30 * m;
      WritesEveryThirtiethTick(m - 1);
      QuietBetweenWrites(m - 1, 29);
      CounterPeriod(1, n - 1);
      ModShift(m - 1, 29);
      assert n - 1 == 30 * (m - 1) + 29;
      assert CounterAfter(1, n - 1) == 30;
      assert WriteTicks(n) == WriteTicks(30 * (m - 1)) + [n];
    }
  }

  /** Over 90 ticks the loop writes on ticks 30, 60 and 90 and no others. */
  lemma NinetyTicks()
    ensures WriteTicks(90) == [30, 60, 90]
  {
    WritesEveryThirtiethTick(3);
    assert WriteTicks(30 * 3) == WriteTicks(90);
  }

  /** One entry is picked per write tick... */
  lemma {:induction false} AtWriteTicksLength<T>(xs: seq<T>, n: nat)
    requires n <= |xs|
    ensures |AtWriteTicks(xs, n)| == |WriteTicks(n)|
  {
    if n > 0 {
      AtWriteTicksLength(xs, n - 1);
    }
  }

  /** ... and entry `j` is the one of write tick `j`. */
  lemma {:induction false} AtWriteTicksEntry<T>(xs: seq<T>, n: nat, j: nat)
    requires n <= |xs|
    requires j < |WriteTicks(n)|
    ensures j < |AtWriteTicks(xs, n)|
    ensures AtWriteTicks(xs, n)[j] == xs[WriteTicks(n)[j] - 1]
  {
    AtWriteTicksLength(xs, n);
    AtWriteTicksLength(xs, n - 1);
    if j < |WriteTicks(n - 1)| {
      AtWriteTicksEntry(xs, n - 1, j);
    }
  }

  /** After `30 * m` ticks the serial port holds `m` lines, line `j`
      carrying the temperature of tick `30 * (j + 1)`. */
  lemma SerialEveryThirtiethTick(temps: seq<int>, s: State, setPoint: int, m: nat)
    requires 30 * m <= |temps|
    ensures |SerialLog(temps, s, setPoint, 30 * m)| == m
    ensures forall j | 0 <= j < m :: SerialLog(temps, s, setPoint, 30 * m)[j] == TelemetryLine(s, temps[30 * j + 29], setPoint)
  {
    AtWriteTicksLength(TelemetryLines(temps, s, setPoint), 30 * m);
    WritesEveryThirtiethTick(m);
    forall j | 0 <= j < m
      ensures SerialLog(temps, s, setPoint, 30 * m)[j] == TelemetryLine(s, temps[30 * j + 29], setPoint)
    {
      AtThirtiethEntry(TelemetryLines(temps, s, setPoint), m, j);
    }
  }

  lemma AtThirtiethEntry<T>(xs: seq<T>, m: nat, j: nat)
    requires 30 * m <= |xs| && j < m
    ensures j < |AtWriteTicks(xs, 30 * m)|
    ensures AtWriteTicks(xs, 30 * m)[j] == xs[30 * j + 29]
  {
    WritesEveryThirtiethTick(m);
    AtWriteTicksEntry(xs, 30 * m, j);
  }

  /** The LEDs keep their initial setting for the first nine ticks;
      afterwards they show the policy for the temperature of the last
      tick whose number is a multiple of ten. */
  lemma {:induction false} LedsAfterLastRefresh(temps: seq<int>, s: State, setPoint: int, initial: Leds, n: nat)
    requires n <= |temps|
    ensures n < 10 ==> LedsAfter(temps, s, setPoint, initial, n) == initial
    ensures n >= 10 ==> LedsAfter(temps, s, setPoint, initial, n) == Lights(s, temps[n - n % 10 - 1], setPoint)
  {
    if n > 0 {
      LedsAfterLastRefresh(temps, s, setPoint, initial, n - 1);
      AltCounterPeriod(1, n - 1);
      ModStep(n - 1, 10);
    }
  }

  // ---------------------------------------------------------------------
  // The machine.

  class TemperatureMachine {
    var state: State
    var setPoint: int
    var red: Led
    var blue: Led

    /** A lit LED always belongs to the active mode. */
    ghost predicate Valid()
      reads this
    {
      && (red != Dark ==> state == Heat)
      && (blue != Dark ==> state == Cool)
    }

    constructor ()
      ensures Valid()
      ensures state == Off && setPoint == DefaultSetPoint
      ensures red == Dark && blue == Dark
    {
      state := Off;
      setPoint := DefaultSetPoint;
      red, blue := Dark, Dark;
    }

    method UpdateLights(tempF: int)
      modifies this`red, this`blue
      ensures Leds(red, blue) == Lights(state, tempF, setPoint)
    {
      red := Dark;
      blue := Dark;
      if state == Heat {
        if tempF < setPoint {
          blue := Dark;
          red := Pulse;
        } else {
          blue := Dark;
          red := Lit;
        }
      } else if state == Cool {
        if tempF > setPoint {
          red := Dark;
          blue := Pulse;
        } else {
          red := Dark;
          blue := Lit;
        }
      } else {
        red := Dark;
        blue := Dark;
      }
    }

    method OnEnterHeat(tempF: int)
      modifies this`red, this`blue
      ensures Leds(red, blue) == Lights(state, tempF, setPoint)
    {
      UpdateLights(tempF);
    }

    method OnExitHeat()
      modifies this`red
      ensures red == Dark
    {
      red := Dark;
    }

    method OnEnterCool(tempF: int)
      modifies this`red, this`blue
      ensures Leds(red, blue) == Lights(state, tempF, setPoint)
    {
      UpdateLights(tempF);
    }

    method OnExitCool()
      modifies this`blue
      ensures blue == Dark
    {
      blue := Dark;
    }

    method OnEnterOff()
      modifies this`red, this`blue
      ensures red == Dark && blue == Dark
    {
      red := Dark;
      blue := Dark;
    }

    /** `cycle`: the exit hook of the old state, the transition, then the
        entry hook of the new state. */
    method Cycle(tempF: int)
      modifies this`state, this`red, this`blue
      ensures state == Next(old(state))
      ensures Leds(red, blue) == Lights(state, tempF, setPoint)
    {
      match state {
        case Heat => OnExitHeat();
        case Cool => OnExitCool();
        case Off =>
      }
      state := Next(state);
      match state {
        case Heat => OnEnterHeat(tempF);
        case Cool => OnEnterCool(tempF);
        case Off => OnEnterOff();
      }
    }

    method ProcessTempStateButton(tempF: int)
      requires Valid()
      modifies this`state, this`red, this`blue
      ensures Valid()
      ensures state == Next(old(state))
      ensures Leds(red, blue) == Lights(state, tempF, setPoint)
    {
      Cycle(tempF);
      UpdateLights(tempF);
    }

    method ProcessTempIncButton(tempF: int)
      requires Valid()
      modifies this`setPoint, this`red, this`blue
      ensures Valid()
      ensures setPoint == old(setPoint) + 1
      ensures Leds(red, blue) == Lights(state, tempF, setPoint)
    {
      setPoint := setPoint + 1;
      UpdateLights(tempF);
    }

    method ProcessTempDecButton(tempF: int)
      requires Valid()
      modifies this`setPoint, this`red, this`blue
      ensures Valid()
      ensures setPoint == old(setPoint) - 1
      ensures Leds(red, blue) == Lights(state, tempF, setPoint)
    {
      setPoint := setPoint - 1;
      UpdateLights(tempF);
    }

    method SetupSerialOutput(tempF: int) returns (output: string)
      ensures output == SerialOutput(state, tempF, setPoint)
    {
      output := Id(state) + "," + IntToString(tempF) + "," + IntToString(setPoint);
    }

    /** One pass of the `manageMyDisplay` loop, given the loop's two
        counters: build the two LCD lines, advance `altCounter`
        (recomputing the LEDs when it wraps) and `counter` (sending
        telemetry when it is a multiple of 30). */
    method Tick(now: string, tempF: int, altCounter: int, counter: int)
      returns (message: string, shown: Line2, telemetry: Option<string>, altCounter': int, counter': int)
      requires Valid()
      modifies this`red, this`blue
      ensures Valid()
      ensures shown == ShownFor(altCounter)
      ensures message == Frame(now, shown, state, tempF, setPoint)
      ensures telemetry == TelemetryFor(counter, state, tempF, setPoint)
      ensures altCounter' == NextAlt(altCounter)
      ensures counter' == NextCounter(counter)
      ensures Leds(red, blue) == if altCounter >= 10 then Lights(state, tempF, setPoint) else old(Leds(red, blue))
    {
      var line1 := DisplayLine(now);
      var line2;
      if altCounter < 6 {
        shown := TempReading;
        line2 := DisplayLine(Line2Text(shown, state, tempF, setPoint));
        altCounter' := altCounter + 1;
      } else {
        shown := ModeAndSetPoint;
        line2 := DisplayLine(Line2Text(shown, state, tempF, setPoint));
        altCounter' := altCounter + 1;
        if altCounter' >= 11 {
          UpdateLights(tempF);
          altCounter' := 1;
        }
      }
      message := line1 + "\n" + line2;
      if counter % 30 == 0 {
        var output := SetupSerialOutput(tempF);
        telemetry := Some(output + "\n");
        counter' := 1;
      } else {
        telemetry := None;
        counter' := counter + 1;
      }
    }

    /** Pass `i` of the display loop, in terms of what the loop has
        shown and sent so far. */
    method Pass(clock: seq<string>, temps: seq<int>, ghost initial: Leds, i: nat, lcd: string, sent: seq<string>, altCounter: int, counter: int)
      returns (lcd': string, sent': seq<string>, altCounter': int, counter': int)
      requires Valid()
      requires i < |clock| == |temps|
      requires altCounter == AltCounterAfter(1, i) && counter == CounterAfter(1, i)
      requires sent == SerialLog(temps, state, setPoint, i)
      requires Leds(red, blue) == LedsAfter(temps, state, setPoint, initial, i)
      modifies this`red, this`blue
      ensures Valid()
      ensures altCounter' == AltCounterAfter(1, i + 1) && counter' == CounterAfter(1, i + 1)
      ensures lcd' == Frame(clock[i], ShownFor(AltCounterAfter(1, i)), state, temps[i], setPoint)
      ensures sent' == SerialLog(temps, state, setPoint, i + 1)
      ensures Leds(red, blue) == LedsAfter(temps, state, setPoint, initial, i + 1)
    {
      var shown, telemetry;
      lcd', shown, telemetry, altCounter', counter' := Tick(clock[i], temps[i], altCounter, counter);
      sent' := sent;
      if telemetry.Some? {
        sent' := sent + [telemetry.value];
      }
    }

    method ManageMyDisplay(clock: seq<string>, temps: seq<int>) returns (lcd: string, sent: seq<string>)
      requires Valid()
      requires |clock| == |temps|
      modifies this`red, this`blue
      ensures Valid()
      ensures |clock| > 0 ==> lcd == Frame(clock[|clock| - 1], ShownFor(AltCounterAfter(1, |clock| - 1)), state, temps[|clock| - 1], setPoint)
      ensures sent == SerialLog(temps, state, setPoint, |clock|)
      ensures Leds(red, blue) == LedsAfter(temps, state, setPoint, old(Leds(red, blue)), |clock|)
    {
      var counter, altCounter := 1, 1;
      lcd, sent := "", [];
      for i := 0 to |clock|
        invariant Valid()
        invariant altCounter == AltCounterAfter(1, i) && counter == CounterAfter(1, i)
        invariant i > 0 ==> lcd == Frame(clock[i - 1], ShownFor(AltCounterAfter(1, i - 1)), state, temps[i - 1], setPoint)
        invariant sent == SerialLog(temps, state, setPoint, i)
        invariant Leds(red, blue) == LedsAfter(temps, state, setPoint, old(Leds(red, blue)), i)
      {
        lcd, sent, altCounter, counter := Pass(clock, temps, old(Leds(red, blue)), i, lcd, sent, altCounter, counter);
      }
    }
  }

  /** The increment button followed by the decrement button: state and
      set-point come back, and the LEDs show the policy for the current
      temperature, so they come back too whenever they showed it before. */
  method IncThenDec(m: TemperatureMachine, tempF: int)
    requires m.Valid()
    modifies m
    ensures m.Valid()
    ensures m.state == old(m.state) && m.setPoint == old(m.setPoint)
    ensures Leds(m.red, m.blue) == Lights(m.state, tempF, m.setPoint)
    ensures old(Leds(m.red, m.blue)) == Lights(old(m.state), tempF, old(m.setPoint)) ==> Leds(m.red, m.blue) == old(Leds(m.red, m.blue))
  {
    m.ProcessTempIncButton(tempF);
    m.ProcessTempDecButton(tempF);
  }

  /** A client run: start off at 72, room at 68; cycle to heat, raise the
      set-point three times, let the room warm to 75, cycle to cool. */
  method ButtonScenario() {
    var m := new TemperatureMachine();
    m.ProcessTempStateButton(68);
    assert m.state == Heat && m.red == Pulse && m.blue == Dark;
    m.ProcessTempIncButton(68);
    m.ProcessTempIncButton(68);
    m.ProcessTempIncButton(68);
    assert m.setPoint == 75 && m.red == Pulse;
    m.UpdateLights(75);
    assert m.red == Lit && m.blue == Dark;
    m.ProcessTempStateButton(75);
    assert m.state == Cool && m.red == Dark && m.blue == Lit;
  }
}
