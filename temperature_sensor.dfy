/** The temperature display of
    Module6_TemperatureSensorIntegration/TemperatureSensorIntegration.py: a
    two-state machine that toggles the displayed scale between Celsius and
    Fahrenheit, and a display loop that writes the time and the reading to a
    16x2 LCD, each line cut and padded to exactly 16 columns.

    Readings enter as the text the script formats them to (one decimal
    place); the sensor, the float formatting and the clock are outside the
    model. */
module TemperatureSensorIntegration {
  import opened Text

  /** Columns of the LCD. */
  const LcdCols: nat := 16

  datatype Scale = Celsius | Fahrenheit

  /** The `cycle` transition: Celsius to Fahrenheit and back. */
  function Toggle(s: Scale): (r: Scale)
    ensures r != s
  {
    match s
    case Celsius => Fahrenheit
    case Fahrenheit => Celsius
  }

  /** Cycling twice returns to the starting scale. */
  lemma CycleTwice(s: Scale)
    ensures Toggle(Toggle(s)) == s
  {
  }

  /** The value the entry hook of a state gives `activeScale`: 'C' exactly
      for Celsius and 'F' exactly for Fahrenheit. */
  function ScaleChar(s: Scale): (c: char)
    ensures c == 'C' <==> s == Celsius
    ensures c == 'F' <==> s == Fahrenheit
  {
    match s
    case Celsius => 'C'
    case Fahrenheit => 'F'
  }

  /** `line[:16].ljust(16)`. */
  function FitColumns(line: string): (r: string)
    ensures |r| == LcdCols
  {
    TruncateThenLjust(line, LcdCols)
  }

  /** The message `updateScreen` hands to the LCD: both lines fitted to the
      width, joined by one line break. */
  function ScreenMessage(line1: string, line2: string): (message: string)
    ensures |message| == 2 * LcdCols + 1
    ensures message[..LcdCols] == FitColumns(line1)
    ensures message[LcdCols] == '\n'
    ensures message[LcdCols + 1..] == FitColumns(line2)
  {
    FitColumns(line1) + "\n" + FitColumns(line2)
  }

  /** When neither line holds a line break, the only one in the message is
      the separator at column 16. */
  lemma ScreenMessageSingleBreak(line1: string, line2: string)
    requires '\n' !in line1 && '\n' !in line2
    ensures forall i | 0 <= i < |ScreenMessage(line1, line2)| :: ScreenMessage(line1, line2)[i] == '\n' <==> i == LcdCols
  {
    var m := ScreenMessage(line1, line2);
    forall i | 0 <= i < |m|
      ensures m[i] == '\n' <==> i == LcdCols
    {
      if i < LcdCols {
        assert m[i] == FitColumns(line1)[i];
        FitKeepsPrefix(line1, LcdCols, i);
        FitOrdersAgree(line1, LcdCols);
      } else if i > LcdCols {
        assert m[i] == FitColumns(line2)[i - LcdCols - 1];
        FitKeepsPrefix(line2, LcdCols, i - LcdCols - 1);
        FitOrdersAgree(line2, LcdCols);
      }
    }
  }

  /** The second line of `displayTemp`: the Celsius reading with a 'C' when
      the active scale is 'C', otherwise the Fahrenheit reading with an 'F',
      then the humidity. */
  function ReadingLine(activeScale: char, celsius: string, fahrenheit: string, humidity: string): (line: string)
    ensures |line| == (if activeScale == 'C' then |celsius| else |fahrenheit|) + |humidity| + 7
    ensures line[..2] == "T:"
    ensures activeScale == 'C' ==> line[2..2 + |celsius|] == celsius && line[2 + |celsius|] == 'C'
    ensures activeScale != 'C' ==> line[2..2 + |fahrenheit|] == fahrenheit && line[2 + |fahrenheit|] == 'F'
    ensures line[|line| - |humidity| - 1..|line| - 1] == humidity && line[|line| - 1] == '%'
  {
    if activeScale == 'C' then "T:" + celsius + "C H:" + humidity + "%"
    else "T:" + fahrenheit + "F H:" + humidity + "%"
  }

  /** The messages of the first `n` passes of `displayTemp` with the
      active scale fixed. */
  function DisplayLog(activeScale: char, clock: seq<string>, celsius: seq<string>, fahrenheit: seq<string>,
                      humidity: seq<string>, n: nat): (messages: seq<string>)
    requires n <= |clock| && n <= |celsius| && n <= |fahrenheit| && n <= |humidity|
    ensures |messages| == n
  {
    if n == 0 then []
    else
      DisplayLog(activeScale, clock, celsius, fahrenheit, humidity, n - 1) +
      [ScreenMessage(clock[n - 1], ReadingLine(activeScale, celsius[n - 1], fahrenheit[n - 1], humidity[n - 1]))]
  }

  class ManagedDisplay {
    /** What the LCD shows. */
    var message: string

    constructor ()
      ensures message == ""
    {
      message := "";
    }

    method UpdateScreen(line1: string, line2: string)
      modifies this
      ensures message == ScreenMessage(line1, line2)
    {
      var l1 := Ljust(Truncate(line1, LcdCols), LcdCols);
      var l2 := Ljust(Truncate(line2, LcdCols), LcdCols);
      message := l1 + "\n" + l2;
    }
  }

  class TempMachine {
    var state: Scale
    var activeScale: char
    const screen: ManagedDisplay

    /** `activeScale` names the scale of the current state. */
    ghost predicate Valid()
      reads this
    {
      activeScale == ScaleChar(state)
    }

    constructor ()
      ensures Valid()
      ensures state == Celsius && activeScale == 'C'
      ensures fresh(screen)
    {
      state := Celsius;
      activeScale := 'C';
      screen := new ManagedDisplay();
    }

    method OnEnterCelsius()
      modifies this`activeScale
      ensures activeScale == 'C'
    {
      activeScale := 'C';
    }

    method OnEnterFahrenheit()
      modifies this`activeScale
      ensures activeScale == 'F'
    {
      activeScale := 'F';
    }

    /** A button press: the `cycle` transition, then the entry hook of the
        new state. The scale is right afterwards whatever it was before. */
    method ProcessButton()
      modifies this`state, this`activeScale
      ensures state == Toggle(old(state))
      ensures Valid()
    {
      state := Toggle(state);
      match state {
        case Celsius => OnEnterCelsius();
        case Fahrenheit => OnEnterFahrenheit();
      }
    }

    /** `displayTemp` run for as many passes as there are clock readings,
        with no button pressed meanwhile: pass `i` shows the time and the
        reading in the active scale, and the LCD ends up with the last
        message. */
    method DisplayTemp(clock: seq<string>, celsius: seq<string>, fahrenheit: seq<string>, humidity: seq<string>)
      returns (shown: seq<string>)
      requires |celsius| == |clock| && |fahrenheit| == |clock| && |humidity| == |clock|
      modifies screen
      ensures shown == DisplayLog(activeScale, clock, celsius, fahrenheit, humidity, |clock|)
      ensures |clock| > 0 ==> screen.message == shown[|clock| - 1]
    {
      shown := [];
      var i := 0;
      while i < |clock|
        invariant 0 <= i <= |clock|
        invariant shown == DisplayLog(activeScale, clock, celsius, fahrenheit, humidity, i)
        invariant i > 0 ==> screen.message == shown[i - 1]
      {
        var line2 := ReadingLine(activeScale, celsius[i], fahrenheit[i], humidity[i]);
        screen.UpdateScreen(clock[i], line2);
        shown := shown + [screen.message];
        i := i + 1;
      }
    }
  }
}
