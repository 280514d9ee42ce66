/**
 * `LogLevel` (an `enum class` over `uint8_t`), its names, and the parse of a
 * name back to a level.
 */
module LogLevels {
  import opened Bytes

  datatype LogLevel = DEBUG | INFO | ERROR | FATAL

  /** The enumerator's underlying `uint8_t` value; `enum class` comparisons compare it. */
  function Tag(l: LogLevel): (b: Byte)
    ensures b as int < 4
  {
    match l
    case DEBUG => 0 as char
    case INFO => 1 as char
    case ERROR => 2 as char
    case FATAL => 3 as char
  }

  /** `l >= min` on the enumeration. */
  predicate AtLeast(l: LogLevel, min: LogLevel)
  {
    Tag(l) >= Tag(min)
  }

  /** The level ordering is a total order running DEBUG < INFO < ERROR < FATAL. */
  lemma {:induction false} AtLeastIsTotalOrder(a: LogLevel, b: LogLevel, c: LogLevel)
    ensures AtLeast(a, a)
    ensures AtLeast(a, b) && AtLeast(b, a) ==> a == b
    ensures AtLeast(a, b) && AtLeast(b, c) ==> AtLeast(a, c)
    ensures AtLeast(a, b) || AtLeast(b, a)
    ensures AtLeast(INFO, DEBUG) && AtLeast(ERROR, INFO) && AtLeast(FATAL, ERROR)
    ensures !AtLeast(DEBUG, INFO) && !AtLeast(INFO, ERROR) && !AtLeast(ERROR, FATAL)
  {
  }

  /** The level a stored tag byte denotes, when it is one of the four enumerators. */
  function LevelOfTag(b: Byte): (r: Option<LogLevel>)
    ensures r.Some? <==> b as int < 4
    ensures r.Some? ==> Tag(r.value) == b
  {
    if b == 0 as char then Some(DEBUG)
    else if b == 1 as char then Some(INFO)
    else if b == 2 as char then Some(ERROR)
    else if b == 3 as char then Some(FATAL)
    else None
  }

  lemma {:induction false} TagRoundTrip(l: LogLevel)
    ensures LevelOfTag(Tag(l)) == Some(l)
  {
  }

  /** `LogLevelToString`. */
  function LogLevelToString(l: LogLevel): (s: seq<Byte>)
    ensures |s| > 0 && NoNul(s)
  {
    match l
    case DEBUG => "DEBUG"
    case INFO => "INFO"
    case ERROR => "ERROR"
    case FATAL => "FATAL"
  }

  /**
   * `LogLevelToString` applied to whatever byte sits in the tag position:
   * a value outside the four enumerators falls through the switch to "INVALID".
   */
  function TagName(b: Byte): (s: seq<Byte>)
    ensures b as int < 4 ==> s == LogLevelToString(LevelOfTag(b).value)
    ensures b as int >= 4 ==> s == "INVALID"
  {
    match LevelOfTag(b)
    case Some(l) => LogLevelToString(l)
    case None => "INVALID"
  }

  /** `LogLevelStrToEnum`: look the name up; anything unknown is FATAL. */
  function LogLevelStrToEnum(s: seq<Byte>): LogLevel
  {
    if s == "DEBUG" then DEBUG
    else if s == "INFO" then INFO
    else if s == "ERROR" then ERROR
    else FATAL
  }

  /** Parsing a level's name gives the level back; the four names are distinct. */
  lemma {:induction false} NameRoundTrip(l: LogLevel, m: LogLevel)
    ensures LogLevelStrToEnum(LogLevelToString(l)) == l
    ensures LogLevelToString(l) == LogLevelToString(m) ==> l == m
  {
    match l
    case DEBUG =>
    case INFO => assert LogLevelToString(l) != "DEBUG";
    case ERROR => assert LogLevelToString(l)[0] == 'E';
    case FATAL => assert LogLevelToString(l)[0] == 'F';
  }

  /** Every string that is not one of the four names parses as FATAL. */
  lemma {:induction false} UnknownNameIsFatal(s: seq<Byte>)
    requires forall l: LogLevel :: s != LogLevelToString(l)
    ensures LogLevelStrToEnum(s) == FATAL
  {
    assert s != LogLevelToString(DEBUG) && s != LogLevelToString(INFO) && s != LogLevelToString(ERROR);
  }
}
