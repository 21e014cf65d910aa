// The level-to-severity decoration of `TraderVueLogFormatter.format`. The
// time stamp and the message text are not modelled.

module LogFormat {

  // The numeric levels of Python's `logging` module.
  const DEBUG := 10
  const INFO := 20
  const WARNING := 30
  const ERROR := 40
  const CRITICAL := 50

  /** The colorama prefix put before the line (and reset after it). */
  datatype Colour = Red | Yellow | Plain

  datatype Decoration = Decoration(colour: Colour, severity: char)

  /** The order of the severity letters, from the least to the most severe. */
  function Rank(c: char): nat {
    if c == 'E' then 4
    else if c == 'W' then 3
    else if c == 'I' then 2
    else if c == 'D' then 1
    else 0
  }

  function Decorate(level: int): (d: Decoration)
    ensures d.severity in "EWID?"
    ensures d.colour == Red <==> d.severity == 'E'
    ensures d.colour == Yellow <==> d.severity == 'W'
    ensures d.colour != Plain <==> level >= WARNING
    ensures d.severity == 'E' <==> level >= ERROR
    ensures d.severity == 'W' <==> WARNING <= level < ERROR
    ensures d.severity == 'I' <==> INFO <= level < WARNING
    ensures d.severity == 'D' <==> DEBUG <= level < INFO
    ensures d.severity == '?' <==> level < DEBUG
  {
    if level >= ERROR then Decoration(Red, 'E')
    else if level >= WARNING then Decoration(Yellow, 'W')
    else if level >= INFO then Decoration(Plain, 'I')
    else if level >= DEBUG then Decoration(Plain, 'D')
    else Decoration(Plain, '?')
  }

  /** A more severe level never gets a less severe letter. */
  lemma SeverityMonotone(a: int, b: int)
    requires a <= b
    ensures Rank(Decorate(a).severity) <= Rank(Decorate(b).severity)
  {
  }

  /** Each standard level gets its own letter; CRITICAL shares ERROR's. */
  lemma StandardLevels()
    ensures Decorate(CRITICAL) == Decorate(ERROR) == Decoration(Red, 'E')
    ensures Decorate(WARNING) == Decoration(Yellow, 'W')
    ensures Decorate(INFO).severity == 'I' && Decorate(DEBUG).severity == 'D'
    ensures Decorate(0).severity == '?'
  {
  }
}
