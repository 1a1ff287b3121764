/** Reading the configuration: the command-line flags, the header directives
    of the configuration file, the `every` duration grammar, the `#!` shell
    line and the script that follows it. */
module Config {
  import opened Text
  import Hook

  /** Why the source gives up on a configuration: one value per error message
      it prints before exiting. */
  datatype ConfigError =
    | MultiplePasswords
    | MultipleCompressionLevels
    | InvalidCompression
    | MultipleWebhooks
    | MultipleEvery
    | UnitNotSpecified
    | UnknownUnit(unit: string)
    | InvalidTime
    | UndefinedDuration
    | UndefinedDirective
    | NoShell
    | MissingWebhook
    | MissingEvery

  datatype Parsed<+T> = Ok(value: T) | Err(error: ConfigError)

  /** A complete configuration; `delay` is a duration in milliseconds. */
  datatype Config = Config(
    webhook: Hook.Webhook,
    script: string,
    shell: seq<string>,
    delay: nat,
    password: Option<string>,
    compressionLevel: int)

  /** The compression level used when the file names none. */
  const DEFAULT_COMPRESSION: int := 10

  // ---------------------------------------------------------------------------
  // The unit table

  /** A row of the unit table: the names a unit goes by, and its length in
      milliseconds. */
  datatype TimeColumn = TimeColumn(aliases: seq<string>, millis: nat)

  const SECOND: nat := 1000
  const MINUTE: nat := 60 * SECOND
  const HOUR: nat := 60 * MINUTE
  const DAY: nat := 24 * HOUR

  const TIME_TABLE: seq<TimeColumn> := [
    TimeColumn(["ms", "milisecond", "miliseconds", "millisecond", "milliseconds"], 1),
    TimeColumn(["s", "second", "seconds"], SECOND),
    TimeColumn(["m", "min", "minute", "minutes"], MINUTE),
    TimeColumn(["h", "hour", "hours"], HOUR),
    TimeColumn(["d", "day", "days"], DAY),
    TimeColumn(["w", "week", "weeks"], 7 * DAY),
    TimeColumn(["n", "mon", "month", "months"], 2628288 * SECOND),
    TimeColumn(["y", "year", "years"], 365 * DAY + 6 * DAY)
  ]

  /** The length of the first row of `table` that knows the name `unit`. */
  function FindUnit(table: seq<TimeColumn>, unit: string): Option<nat>
    decreases |table|
  {
    if table == [] then None
    else if unit in table[0].aliases then Some(table[0].millis)
    else FindUnit(table[1..], unit)
  }

  /** The search finds a unit exactly when some row knows the name, and then
      answers with the first such row. */
  lemma {:induction false} FindUnitFirst(table: seq<TimeColumn>, unit: string)
    ensures FindUnit(table, unit).Some? <==> exists k :: 0 <= k < |table| && unit in table[k].aliases
    ensures FindUnit(table, unit).Some? ==>
              exists k :: 0 <= k < |table| && unit in table[k].aliases
                          && FindUnit(table, unit).value == table[k].millis
                          && forall j :: 0 <= j < k ==> unit !in table[j].aliases
    decreases |table|
  {
    if table != [] && unit !in table[0].aliases {
      FindUnitFirst(table[1..], unit);
      var r := FindUnit(table[1..], unit);
      if r.Some? {
        var k :| 0 <= k < |table| - 1 && unit in table[1..][k].aliases && r.value == table[1..][k].millis
                 && forall j :: 0 <= j < k ==> unit !in table[1..][j].aliases;
        assert unit in table[k + 1].aliases;
        assert forall j :: 0 < j < k + 1 ==> table[j] == table[1..][j - 1];
      }
    } else if table != [] {
      assert unit in table[0].aliases;
    }
  }

  /** The length of the unit named `unit`, in milliseconds. */
  function UnitMillis(unit: string): Option<nat> {
    FindUnit(TIME_TABLE, unit)
  }

  /** Rows that do not know the name can be skipped. */
  lemma {:induction false} FindUnitSkip(table: seq<TimeColumn>, unit: string, n: nat)
    requires n <= |table| && forall j :: 0 <= j < n ==> unit !in table[j].aliases
    ensures FindUnit(table, unit) == FindUnit(table[n..], unit)
    decreases n
  {
    if n > 0 {
      assert forall j :: 0 <= j < n - 1 ==> table[1..][j] == table[j + 1];
      FindUnitSkip(table[1..], unit, n - 1);
      assert table[1..][n - 1..] == table[n..];
    }
  }

  /** The units below an hour, by their shortest names. */
  lemma UnitValuesToMinute()
    ensures UnitMillis("ms") == Some(1) && UnitMillis("s") == Some(1_000)
    ensures UnitMillis("m") == Some(60_000)
  {
    var t := TIME_TABLE;
    assert "s" !in t[0].aliases;
    assert "m" !in t[0].aliases && "m" !in t[1].aliases;
    FindUnitSkip(t, "s", 1);
    FindUnitSkip(t, "m", 2);
  }

  /** An hour and a day. */
  lemma UnitValuesHourDay()
    ensures UnitMillis("h") == Some(3_600_000) && UnitMillis("d") == Some(86_400_000)
  {
    var t := TIME_TABLE;
    assert "h" !in t[0].aliases && "h" !in t[1].aliases && "h" !in t[2].aliases;
    assert "d" !in t[0].aliases && "d" !in t[1].aliases && "d" !in t[2].aliases && "d" !in t[3].aliases;
    FindUnitSkip(t, "h", 3);
    FindUnitSkip(t, "d", 4);
  }

  /** A week, and a month of 30.42 days. */
  lemma UnitValuesWeekMonth()
    ensures UnitMillis("w") == Some(604_800_000) && UnitMillis("n") == Some(2_628_288_000)
  {
    var t := TIME_TABLE;
    assert "w" !in t[0].aliases && "w" !in t[1].aliases && "w" !in t[2].aliases;
    assert "w" !in t[3].aliases && "w" !in t[4].aliases;
    assert "n" !in t[0].aliases && "n" !in t[1].aliases && "n" !in t[2].aliases;
    assert "n" !in t[3].aliases && "n" !in t[4].aliases && "n" !in t[5].aliases;
    FindUnitSkip(t, "w", 5);
    FindUnitSkip(t, "n", 6);
  }

  /** A year of 371 days. */
  lemma UnitValueYear()
    ensures UnitMillis("y") == Some(32_054_400_000)
  {
    var t := TIME_TABLE;
    assert "y" !in t[0].aliases && "y" !in t[1].aliases && "y" !in t[2].aliases;
    assert "y" !in t[3].aliases && "y" !in t[4].aliases && "y" !in t[5].aliases;
    assert "y" !in t[6].aliases;
    FindUnitSkip(t, "y", 7);
  }

  // Row k of the unit table shares no name with any later row; one lemma per
  // row keeps each comparison of literals small.
  lemma RowApart0()
    ensures forall j, a :: 0 < j < |TIME_TABLE| && a in TIME_TABLE[0].aliases ==> a !in TIME_TABLE[j].aliases
  {
  }

  lemma RowApart1()
    ensures forall j, a :: 1 < j < |TIME_TABLE| && a in TIME_TABLE[1].aliases ==> a !in TIME_TABLE[j].aliases
  {
  }

  lemma RowApart2()
    ensures forall j, a :: 2 < j < |TIME_TABLE| && a in TIME_TABLE[2].aliases ==> a !in TIME_TABLE[j].aliases
  {
  }

  lemma RowApart3()
    ensures forall j, a :: 3 < j < |TIME_TABLE| && a in TIME_TABLE[3].aliases ==> a !in TIME_TABLE[j].aliases
  {
  }

  lemma RowApart4()
    ensures forall j, a :: 4 < j < |TIME_TABLE| && a in TIME_TABLE[4].aliases ==> a !in TIME_TABLE[j].aliases
  {
  }

  lemma RowApart5()
    ensures forall j, a :: 5 < j < |TIME_TABLE| && a in TIME_TABLE[5].aliases ==> a !in TIME_TABLE[j].aliases
  {
  }

  lemma RowApart6()
    ensures forall j, a :: 6 < j < |TIME_TABLE| && a in TIME_TABLE[6].aliases ==> a !in TIME_TABLE[j].aliases
  {
  }

  /** No name belongs to two rows of the unit table. */
  lemma NoSharedAlias()
    ensures forall i, j, a :: 0 <= i < j < |TIME_TABLE| && a in TIME_TABLE[i].aliases ==> a !in TIME_TABLE[j].aliases
  {
    RowApart0(); RowApart1(); RowApart2(); RowApart3(); RowApart4(); RowApart5(); RowApart6();
  }

  // ---------------------------------------------------------------------------
  // The `every` duration grammar

  /** The index of the first character that is not a digit, or the length when
      there is none (`str::find` with `!char::is_numeric`). */
  function FirstNonDigit(s: string): (k: nat)
    ensures k <= |s|
    decreases |s|
  {
    if s == [] || !IsDigit(s[0]) then 0 else 1 + FirstNonDigit(s[1..])
  }

  /** `value` units of `t` milliseconds each (`Duration * u32`). */
  function Times(t: nat, value: nat): nat {
    t * value
  }

  /** Adds `n` milliseconds to a parsed duration. */
  function Plus(n: nat, r: Parsed<nat>): Parsed<nat> {
    match r
    case Ok(v) => Ok(n + v)
    case Err(e) => Err(e)
  }

  /** The outcome of one pass of the token loop: the milliseconds read and
      how many tokens that took, or the error. */
  datatype Step = Read(amount: nat, used: nat) | Fail(error: ConfigError)

  /** The duration, in milliseconds, that the tokens from `i` on denote. */
  function EveryFrom(table: seq<TimeColumn>, tokens: seq<string>, i: nat): Parsed<nat>
    requires i <= |tokens|
    decreases |tokens| - i, 1
  {
    if i == |tokens| then Ok(0) else EveryAt(table, tokens, i)
  }

  /**
   * The duration the tokens from `i` on denote, when there is one at `i`. A
   * number token is followed by a unit token; a token of digits followed by
   * other characters is a number glued to a unit; any other token must be a
   * unit name, worth one unit. The duration is the sum of these steps, and
   * the first step that fails gives the error. Unit names are looked up in
   * `table`, which the source fixes to TIME_TABLE.
   */
  function EveryAt(table: seq<TimeColumn>, tokens: seq<string>, i: nat): Parsed<nat>
    requires i < |tokens|
    decreases |tokens| - i, 0
  {
    var x := tokens[i];
    var k := FirstNonDigit(x);
    match ParseU32(x)
    case Some(value) =>
      if i + 1 == |tokens| then Err(UnitNotSpecified)
      else
        (match FindUnit(table, tokens[i + 1])
         case None => Err(UnknownUnit(tokens[i + 1]))
         case Some(t) => Plus(Times(t, value), EveryFrom(table, tokens, i + 2)))
    case None =>
      if 0 < k < |x| then
        (match ParseU32(x[..k])
         case None => Err(InvalidTime)
         case Some(value) =>
           match FindUnit(table, x[k..])
           case None => Err(UnknownUnit(x[k..]))
           case Some(t) => Plus(Times(t, value), EveryFrom(table, tokens, i + 1)))
      else
        (match FindUnit(table, x)
         case None => Err(UndefinedDuration)
         case Some(t) => Plus(t, EveryFrom(table, tokens, i + 1)))
  }

  /** The duration the tokens of an `every` line after the keyword denote. */
  function EveryDelay(table: seq<TimeColumn>, tokens: seq<string>): Parsed<nat> {
    EveryFrom(table, tokens, 0)
  }

  /** src/config.rs lines 153-197: the token loop of an `every` line, summing into `d`. */
  method ParseEvery(table: seq<TimeColumn>, tokens: seq<string>) returns (r: Parsed<nat>)
    ensures r == EveryDelay(table, tokens)
  {
    ghost var target := EveryDelay(table, tokens);
    var d: nat := 0;
    var i := 0;
    while i < |tokens|
      invariant i <= |tokens|
      invariant target == Plus(d, EveryFrom(table, tokens, i))
      decreases |tokens| - i
    {
      var step := NextStep(table, tokens, i);
      if step.Fail? {
        return Err(step.error);
      }
      d, i := d + step.amount, i + step.used;
    }
    return Ok(d);
  }

  /** src/config.rs lines 157-196: one pass of the token loop, at token `i`: it reads one or
      two tokens and the duration is what they add to the rest, or it fails
      and so does the whole line. */
  method NextStep(table: seq<TimeColumn>, tokens: seq<string>, i: nat) returns (step: Step)
    requires i < |tokens|
    ensures step.Fail? ==> EveryFrom(table, tokens, i) == Err(step.error)
    ensures step.Read? ==>
              && 1 <= step.used <= 2 && i + step.used <= |tokens|
              && EveryFrom(table, tokens, i) == Plus(step.amount, EveryFrom(table, tokens, i + step.used))
  {
    var x := tokens[i];
    var value := ParseU32(x);
    if value.Some? {
      if i + 1 == |tokens| {
        return Fail(UnitNotSpecified);
      }
      var unit := tokens[i + 1];
      var t := FindUnit(table, unit);
      if t.None? {
        return Fail(UnknownUnit(unit));
      }
      return Read(Times(t.value, value.value), 2);
    }
    var k := FirstNonDigit(x);
    if 0 < k < |x| {
      var v := ParseU32(x[..k]);
      if v.None? {
        return Fail(InvalidTime);
      }
      var t := FindUnit(table, x[k..]);
      if t.None? {
        return Fail(UnknownUnit(x[k..]));
      }
      return Read(Times(t.value, v.value), 1);
    }
    var t := FindUnit(table, x);
    if t.None? {
      return Fail(UndefinedDuration);
    }
    return Read(t.value, 1);
  }

  /** Token lists that parse can be followed by more tokens: their duration is
      added to whatever the rest denotes, and an error in the rest is kept. */
  lemma EveryAppend(table: seq<TimeColumn>, a: seq<string>, b: seq<string>)
    requires EveryDelay(table, a).Ok?
    ensures EveryDelay(table, a + b) == Plus(EveryDelay(table, a).value, EveryDelay(table, b))
  {
    EveryAppendFrom(table, a, b, 0);
  }

  lemma {:induction false} EveryAppendFrom(table: seq<TimeColumn>, a: seq<string>, b: seq<string>, i: nat)
    requires i <= |a| && EveryFrom(table, a, i).Ok?
    ensures EveryFrom(table, a + b, i) == Plus(EveryFrom(table, a, i).value, EveryDelay(table, b))
    decreases |a| - i
  {
    if i == |a| {
      EveryShift(table, a, b, 0);
    } else {
      assert (a + b)[i] == a[i];
      if ParseU32(a[i]).Some? {
        assert (a + b)[i + 1] == a[i + 1];
        EveryAppendFrom(table, a, b, i + 2);
      } else {
        EveryAppendFrom(table, a, b, i + 1);
      }
    }
  }

  /** Parsing the tokens after `a` is parsing `b`. */
  lemma {:induction false} EveryShift(table: seq<TimeColumn>, a: seq<string>, b: seq<string>, j: nat)
    requires j <= |b|
    ensures EveryFrom(table, a + b, |a| + j) == EveryFrom(table, b, j)
    decreases |b| - j
  {
    if j < |b| {
      var ab := a + b;
      assert ab[|a| + j] == b[j];
      EveryShift(table, a, b, j + 1);
      if j + 1 < |b| {
        assert ab[|a| + j + 1] == b[j + 1];
        EveryShift(table, a, b, j + 2);
      }
    }
  }

  /** The index of the first non-digit after a run of digits. */
  lemma {:induction false} FirstNonDigitAfter(digits: string, rest: string)
    requires AllDigits(digits) && rest != [] && !IsDigit(rest[0])
    ensures FirstNonDigit(digits + rest) == |digits|
    decreases |digits|
  {
    if digits != [] {
      assert (digits + rest)[1..] == digits[1..] + rest;
      FirstNonDigitAfter(digits[1..], rest);
    } else {
      assert digits + rest == rest;
    }
  }

  /**
   * The three spellings of "n units" agree: a number and a unit as two
   * tokens, the number glued to the unit, and, for one unit, the name alone.
   * `unit` must begin with neither a digit nor a plus sign, as every name in
   * TIME_TABLE does.
   */
  lemma EveryForms(table: seq<TimeColumn>, n: nat, unit: string)
    requires n < U32_LIMIT && FindUnit(table, unit).Some?
    requires unit != [] && !IsDigit(unit[0]) && unit[0] != '+'
    ensures EveryDelay(table, [Decimal(n), unit]) == Ok(n * FindUnit(table, unit).value)
    ensures EveryDelay(table, [Decimal(n) + unit]) == Ok(n * FindUnit(table, unit).value)
    ensures EveryDelay(table, [unit]) == Ok(FindUnit(table, unit).value)
  {
    var t := FindUnit(table, unit).value;
    var d := Decimal(n);
    var x := d + unit;
    ParseUnsignedDecimal(n, U32_LIMIT);
    assert ParseU32(d) == Some(n);
    var two := [d, unit];
    assert two[0] == d && two[1] == unit;
    assert EveryFrom(table, two, 2) == Ok(0);
    assert EveryAt(table, two, 0) == Plus(Times(t, n), Ok(0));
    assert x[0] == d[0] && x[|d|] == unit[0];
    assert !IsDigit(x[|d|]);
    assert ParseU32(x) == None;
    FirstNonDigitAfter(d, unit);
    assert x[..|d|] == d && x[|d|..] == unit;
    assert EveryFrom(table, [x], 1) == Ok(0);
    assert EveryAt(table, [x], 0) == Plus(Times(t, n), Ok(0));
    assert !IsDigit(unit[0]);
    assert ParseU32(unit) == None;
    assert FirstNonDigit(unit) == 0;
    assert EveryFrom(table, [unit], 1) == Ok(0);
    assert EveryAt(table, [unit], 0) == Plus(t, Ok(0));
  }

  /** A number with no unit after it is an error. */
  lemma EveryNeedsUnit(table: seq<TimeColumn>, a: seq<string>, n: nat)
    requires EveryDelay(table, a).Ok? && n < U32_LIMIT
    ensures EveryDelay(table, a + [Decimal(n)]) == Err(UnitNotSpecified)
  {
    ParseUnsignedDecimal(n, U32_LIMIT);
    var last := [Decimal(n)];
    assert EveryAt(table, last, 0) == Err(UnitNotSpecified);
    EveryAppend(table, a, last);
  }

  // ---------------------------------------------------------------------------
  // Header directives

  /** The four values the header can set, each at most once. */
  datatype Slots = Slots(
    webhook: Option<Hook.Webhook>,
    delay: Option<nat>,
    password: Option<string>,
    compression: Option<int>)

  const EMPTY_SLOTS := Slots(None, None, None, None)

  /** `b` keeps every value `a` holds. */
  predicate Extends(a: Slots, b: Slots) {
    && (a.webhook.Some? ==> b.webhook == a.webhook)
    && (a.delay.Some? ==> b.delay == a.delay)
    && (a.password.Some? ==> b.password == a.password)
    && (a.compression.Some? ==> b.compression == a.compression)
  }

  /**
   * One trimmed header line that is neither blank nor a comment. The keys are
   * tried in the order `password`, `compression`, `webhook`, `every`; each
   * takes the text after the first space as its value and fails when its
   * slot is already set. A compression value must read as an i64 before the
   * slot is looked at, while an `every` line is refused as a repeat before
   * its duration is read.
   */
  function Directive(slots: Slots, x: string): (r: Parsed<Slots>)
    ensures r.Ok? ==> Extends(slots, r.value) && !Taken(slots, x) && Taken(r.value, x)
  {
    if StartsWith(x, "password ") then
      if slots.password.Some? then Err(MultiplePasswords)
      else Ok(slots.(password := Some(AfterFirst(x, ' '))))
    else if StartsWith(x, "compression ") then
      match ParseI64(AfterFirst(x, ' '))
      case None => Err(InvalidCompression)
      case Some(level) =>
        if slots.compression.Some? then Err(MultipleCompressionLevels)
        else Ok(slots.(compression := Some(level)))
    else if StartsWith(x, "webhook ") then
      if slots.webhook.Some? then Err(MultipleWebhooks)
      else Ok(slots.(webhook := Some(Hook.Webhook(AfterFirst(x, ' ')))))
    else if StartsWith(x, "every ") then
      if slots.delay.Some? then Err(MultipleEvery)
      else
        match EveryDelay(TIME_TABLE, Split(x, ' ')[1..])
        case Err(e) => Err(e)
        case Ok(d) => Ok(slots.(delay := Some(d)))
    else Err(UndefinedDirective)
  }

  /** The slot that the directive line `x` sets is already set. */
  predicate Taken(slots: Slots, x: string) {
    || (StartsWith(x, "password ") && slots.password.Some?)
    || (StartsWith(x, "compression ") && slots.compression.Some?)
    || (StartsWith(x, "webhook ") && slots.webhook.Some?)
    || (StartsWith(x, "every ") && slots.delay.Some?)
  }

  /** A line of the header that ends it: `#!` after trimming. */
  predicate IsShellLine(line: string) {
    StartsWith(Trim(line), "#!")
  }

  /** A line the header skips: blank or a `#` comment after trimming. */
  predicate IsSkipped(line: string) {
    Trim(line) == [] || StartsWith(Trim(line), "#")
  }

  /** The header read from line `i` on: the index of the line that stopped
      it (the shell line, or the end) and the slots filled on the way. */
  function Header(lines: seq<string>, i: nat, slots: Slots): (r: Parsed<(nat, Slots)>)
    requires i <= |lines|
    ensures r.Ok? ==> i <= r.value.0 <= |lines|
    decreases |lines| - i
  {
    if i == |lines| || IsShellLine(lines[i]) then Ok((i, slots))
    else if IsSkipped(lines[i]) then Header(lines, i + 1, slots)
    else
      match Directive(slots, Trim(lines[i]))
      case Err(e) => Err(e)
      case Ok(next) => Header(lines, i + 1, next)
  }

  /** The header stops at the first shell line after `i`, or at the end, and
      only ever fills slots. */
  lemma {:induction false} HeaderStops(lines: seq<string>, i: nat, slots: Slots)
    requires i <= |lines| && Header(lines, i, slots).Ok?
    ensures var (k, found) := Header(lines, i, slots).value;
            && (k < |lines| ==> IsShellLine(lines[k]))
            && (forall j :: i <= j < k ==> !IsShellLine(lines[j]))
            && Extends(slots, found)
    decreases |lines| - i
  {
    if i < |lines| && !IsShellLine(lines[i]) {
      var next := if IsSkipped(lines[i]) then slots else Directive(slots, Trim(lines[i])).value;
      assert Header(lines, i, slots) == Header(lines, i + 1, next) && Extends(slots, next);
      HeaderStops(lines, i + 1, next);
    }
  }

  /** Once the slot of a directive line is set, the header fails at the next
      line that repeats the directive, unless a shell line comes first. */
  lemma {:induction false} HeaderRefusesTaken(lines: seq<string>, i: nat, slots: Slots, b: nat)
    requires i <= b < |lines| && Taken(slots, Trim(lines[b]))
    requires forall j :: i <= j <= b ==> !IsShellLine(lines[j])
    ensures Header(lines, i, slots).Err?
    decreases b - i
  {
    if i < b && !IsSkipped(lines[i]) {
      var d := Directive(slots, Trim(lines[i]));
      if d.Ok? {
        HeaderRefusesTaken(lines, i + 1, d.value, b);
      }
    } else if i < b {
      HeaderRefusesTaken(lines, i + 1, slots, b);
    } else {
      var x := Trim(lines[b]);
      assert x != [] && x[0] != '#';
      assert Directive(slots, x).Err?;
    }
  }

  /** A directive line given twice in the header (say two `webhook` lines)
      makes the whole header fail. */
  lemma {:induction false} HeaderRefusesRepeat(lines: seq<string>, i: nat, slots: Slots, a: nat, b: nat)
    requires i <= a < b < |lines| && Trim(lines[a]) == Trim(lines[b]) && !IsSkipped(lines[a])
    requires forall j :: i <= j <= b ==> !IsShellLine(lines[j])
    ensures Header(lines, i, slots).Err?
    decreases a - i
  {
    var d := Directive(slots, Trim(lines[i]));
    if i == a {
      if d.Ok? {
        HeaderRefusesTaken(lines, i + 1, d.value, b);
      }
    } else if IsSkipped(lines[i]) {
      HeaderRefusesRepeat(lines, i + 1, slots, a, b);
    } else if d.Ok? {
      HeaderRefusesRepeat(lines, i + 1, d.value, a, b);
    }
  }

  // ---------------------------------------------------------------------------
  // The shell line, the script and the whole file

  /** Line `k`, trimmed, without its `#!` and trimmed again, when it is such a
      line and something is left. */
  function ShellText(lines: seq<string>, k: nat): (r: Option<string>)
    requires k <= |lines|
    ensures r.Some? ==> k < |lines| && r.value != []
  {
    if k == |lines| || !IsShellLine(lines[k]) then None
    else
      var text := Trim(Trim(lines[k])[2..]);
      if text == [] then None else Some(text)
  }

  /**
   * The configuration the lines of a file describe. The header is read up to
   * the first shell line; then, in this order, a missing or empty shell
   * line, a missing `webhook` and a missing `every` are errors. The shell
   * command is the shell text split at single spaces, the script is the
   * lines after the shell line, each followed by a line feed, and the
   * compression level defaults to DEFAULT_COMPRESSION.
   */
  function ParseConfig(lines: seq<string>): Parsed<Config> {
    match Header(lines, 0, EMPTY_SLOTS)
    case Err(e) => Err(e)
    case Ok((k, slots)) =>
      match ShellText(lines, k)
      case None => Err(NoShell)
      case Some(text) =>
        if slots.webhook.None? then Err(MissingWebhook)
        else if slots.delay.None? then Err(MissingEvery)
        else Ok(Config(slots.webhook.value, Unlines(lines[k + 1..]), Split(text, ' '),
                       slots.delay.value, slots.password, slots.compression.GetOr(DEFAULT_COMPRESSION)))
  }

  /** src/config.rs lines 110-199: one header directive, with the duration of an `every`
      line read by the token loop. */
  method ReadDirective(slots: Slots, x: string) returns (r: Parsed<Slots>)
    ensures r == Directive(slots, x)
  {
    if StartsWith(x, "password ") {
      if slots.password.Some? {
        return Err(MultiplePasswords);
      }
      return Ok(slots.(password := Some(AfterFirst(x, ' '))));
    }
    if StartsWith(x, "compression ") {
      var level := ParseI64(AfterFirst(x, ' '));
      if level.None? {
        return Err(InvalidCompression);
      }
      if slots.compression.Some? {
        return Err(MultipleCompressionLevels);
      }
      return Ok(slots.(compression := Some(level.value)));
    }
    if StartsWith(x, "webhook ") {
      if slots.webhook.Some? {
        return Err(MultipleWebhooks);
      }
      return Ok(slots.(webhook := Some(Hook.Webhook(AfterFirst(x, ' ')))));
    }
    if StartsWith(x, "every ") {
      if slots.delay.Some? {
        return Err(MultipleEvery);
      }
      var d := ParseEvery(TIME_TABLE, Split(x, ' ')[1..]);
      if d.Err? {
        return Err(d.error);
      }
      return Ok(slots.(delay := Some(d.value)));
    }
    return Err(UndefinedDirective);
  }

  /**
   * src/config.rs lines 90-244: the configuration file's text split into lines, the header
   * read line by line into four optional values until a `#!` line, then the
   * shell line and the script.
   */
  method ReadConfig(file: string) returns (r: Parsed<Config>)
    ensures r == ParseConfig(Lines(file))
  {
    var lines := Lines(file);
    var webhook: Option<Hook.Webhook> := None;
    var delay: Option<nat> := None;
    var password: Option<string> := None;
    var compression: Option<int> := None;
    var i := 0;
    while i < |lines|
      invariant i <= |lines|
      invariant Header(lines, 0, EMPTY_SLOTS) == Header(lines, i, Slots(webhook, delay, password, compression))
      decreases |lines| - i
    {
      var x := Trim(lines[i]);
      if StartsWith(x, "#!") {
        break;
      }
      i := i + 1;
      if StartsWith(x, "#") || x == [] {
        continue;
      }
      var next := ReadDirective(Slots(webhook, delay, password, compression), x);
      if next.Err? {
        return Err(next.error);
      }
      webhook, delay, password, compression := next.value.webhook, next.value.delay, next.value.password, next.value.compression;
    }
    assert Header(lines, i, Slots(webhook, delay, password, compression)) == Ok((i, Slots(webhook, delay, password, compression)));
    var shell := ShellText(lines, i);
    if shell.None? {
      return Err(NoShell);
    }
    var script := Unlines(lines[i + 1..]);
    if webhook.None? {
      return Err(MissingWebhook);
    }
    if delay.None? {
      return Err(MissingEvery);
    }
    return Ok(Config(webhook.value, script, Split(shell.value, ' '), delay.value, password, compression.GetOr(DEFAULT_COMPRESSION)));
  }

  /** A parsed configuration's script is the text after the first shell line,
      and the header before that line holds no other shell line. */
  lemma ConfigScript(lines: seq<string>)
    requires ParseConfig(lines).Ok?
    ensures exists k :: && 0 <= k < |lines| && IsShellLine(lines[k])
                        && (forall j :: 0 <= j < k ==> !IsShellLine(lines[j]))
                        && ParseConfig(lines).value.script == Unlines(lines[k + 1..])
  {
    HeaderStops(lines, 0, EMPTY_SLOTS);
    var k := Header(lines, 0, EMPTY_SLOTS).value.0;
    assert IsShellLine(lines[k]);
  }

  // ---------------------------------------------------------------------------
  // Writing a configuration back

  /** A value a directive line can carry and give back: not empty, no line
      feed, and no whitespace at its end, which trimming would drop. */
  predicate DirectiveValue(v: string) {
    v != [] && '\n' !in v && !IsWhitespace(v[|v| - 1])
  }

  /** A word of the shell command: not empty and free of whitespace. */
  predicate Word(w: string) {
    w != [] && forall i :: 0 <= i < |w| ==> !IsWhitespace(w[i])
  }

  /** The configurations the header can express. */
  predicate Expressible(c: Config) {
    && DirectiveValue(c.webhook.url) && c.delay < U32_LIMIT
    && (c.password.Some? ==> DirectiveValue(c.password.value))
    && I64_MIN <= c.compressionLevel <= I64_MAX
    && |c.shell| >= 1 && forall i :: 0 <= i < |c.shell| ==> Word(c.shell[i])
  }

  /** A header that describes `c`: its directives, the delay in
      milliseconds, then the shell line. */
  function HeaderLines(c: Config): seq<string>
    requires |c.shell| >= 1
  {
    ["webhook " + c.webhook.url, "every " + Decimal(c.delay) + " ms"]
    + (if c.password.Some? then ["password " + c.password.value] else [])
    + ["compression " + IntText(c.compressionLevel), "#!" + Join(c.shell, ' ')]
  }

  /** A directive line made of `key`, which ends in its one space, and the
      value `v` is read as a directive, and the value is the text after the
      key. */
  lemma KeyLine(key: string, v: string)
    requires DirectiveValue(v) && |key| >= 2 && key[0] != '#' && !IsWhitespace(key[0])
    requires key[|key| - 1] == ' ' && ' ' !in key[..|key| - 1]
    ensures var x := key + v;
            && x[0] == key[0] && Trim(x) == x && !IsShellLine(x) && !IsSkipped(x)
            && StartsWith(x, key) && AfterFirst(x, ' ') == v
  {
    var x := key + v;
    TrimNothing(x);
    assert x[..|key|] == key;
    assert key[..|key| - 1] + [' '] == key;
    AfterFirstOfKey(x, key[..|key| - 1], ' ');
    assert x[|key|..] == v;
  }

  /** Reading one directive line of a rendered header. */
  lemma HeaderAdvance(lines: seq<string>, i: nat, slots: Slots, next: Slots)
    requires i < |lines| && !IsShellLine(lines[i]) && !IsSkipped(lines[i])
    requires Directive(slots, Trim(lines[i])) == Ok(next)
    ensures Header(lines, i, slots) == Header(lines, i + 1, next)
  {
  }

  lemma WebhookLine(slots: Slots, url: string)
    requires DirectiveValue(url) && slots.webhook.None?
    ensures var x := "webhook " + url;
            && !IsShellLine(x) && !IsSkipped(x)
            && Directive(slots, Trim(x)) == Ok(slots.(webhook := Some(Hook.Webhook(url))))
  {
    var x := "webhook " + url;
    KeyLine("webhook ", url);
    NotStartsWith(x, "password ");
    NotStartsWith(x, "compression ");
  }

  lemma PasswordLine(slots: Slots, password: string)
    requires DirectiveValue(password) && slots.password.None?
    ensures var x := "password " + password;
            && !IsShellLine(x) && !IsSkipped(x)
            && Directive(slots, Trim(x)) == Ok(slots.(password := Some(password)))
  {
    KeyLine("password ", password);
  }

  lemma CompressionLine(slots: Slots, level: int)
    requires I64_MIN <= level <= I64_MAX && slots.compression.None?
    ensures var x := "compression " + IntText(level);
            && !IsShellLine(x) && !IsSkipped(x)
            && Directive(slots, Trim(x)) == Ok(slots.(compression := Some(level)))
  {
    var v := IntText(level);
    var x := "compression " + v;
    assert DirectiveValue(v) by {
      var d := Decimal(if level < 0 then -level else level);
      assert v == d || v == "-" + d;
      assert v[|v| - 1] == d[|d| - 1] && IsDigit(d[|d| - 1]);
      assert forall i :: 0 <= i < |v| ==> v[i] == '-' || IsDigit(v[i]);
    }
    KeyLine("compression ", v);
    NotStartsWith(x, "password ");
    ParseI64IntText(level);
  }

  lemma EveryLine(slots: Slots, ms: nat)
    requires ms < U32_LIMIT && slots.delay.None?
    ensures var x := "every " + Decimal(ms) + " ms";
            && !IsShellLine(x) && !IsSkipped(x)
            && Directive(slots, Trim(x)) == Ok(slots.(delay := Some(ms)))
  {
    var d := Decimal(ms);
    var x := "every " + d + " ms";
    assert x[0] == 'e' && x[|x| - 1] == 's';
    TrimNothing(x);
    assert StartsWith(x, "every ") by {
      assert x[..6] == "every ";
    }
    NotStartsWith(x, "password ");
    NotStartsWith(x, "compression ");
    NotStartsWith(x, "webhook ");
    assert !IsSkipped(x) && !IsShellLine(x) by {
      NotStartsWith(x, "#");
      NotStartsWith(x, "#!");
    }
    assert Split(x, ' ')[1..] == [d, "ms"] by {
      assert ' ' !in d by {
        forall i | 0 <= i < |d|
          ensures d[i] != ' '
        {
          assert IsDigit(d[i]);
        }
      }
      assert x == "every" + [' '] + (d + [' '] + "ms");
      SplitAfter("every", ' ', d + [' '] + "ms");
      SplitAfter(d, ' ', "ms");
      SplitNone("ms", ' ');
    }
    assert EveryDelay(TIME_TABLE, [d, "ms"]) == Ok(ms) by {
      UnitValuesToMinute();
      EveryForms(TIME_TABLE, ms, "ms");
    }
  }

  /** The words of a shell command joined with spaces: the text starts and
      ends with a non-space, holds no line feed, and splits back into the
      words. */
  lemma JoinWords(shell: seq<string>)
    requires |shell| >= 1 && forall i :: 0 <= i < |shell| ==> Word(shell[i])
    ensures var j := Join(shell, ' ');
            && j != [] && !IsWhitespace(j[0]) && !IsWhitespace(j[|j| - 1])
            && '\n' !in j && Split(j, ' ') == shell
  {
    assert forall i :: 0 <= i < |shell| ==> shell[i] != [] && ' ' !in shell[i] && '\n' !in shell[i];
    JoinEnds(shell, ' ');
    JoinMember(shell, ' ', '\n');
    JoinSplit(shell, ' ');
  }

  lemma ShellLine(shell: seq<string>)
    requires |shell| >= 1 && forall i :: 0 <= i < |shell| ==> Word(shell[i])
    ensures var x := "#!" + Join(shell, ' ');
            && '\n' !in x && StripCr(x) == x && IsShellLine(x)
            && Trim(Trim(x)[2..]) == Join(shell, ' ') && Split(Join(shell, ' '), ' ') == shell
  {
    var j := Join(shell, ' ');
    var x := "#!" + j;
    JoinWords(shell);
    TrimNothing(x);
    TrimNothing(j);
    assert x[..2] == "#!" && x[2..] == j;
    assert x[|x| - 1] == j[|j| - 1];
  }

  /** The rendered header fills the four slots with the configuration's
      values and stops at its shell line. */
  lemma RenderedHeader(c: Config, body: seq<string>)
    requires Expressible(c)
    ensures Header(HeaderLines(c) + body, 0, EMPTY_SLOTS)
            == Ok((|HeaderLines(c)| - 1, Slots(Some(c.webhook), Some(c.delay), c.password, Some(c.compressionLevel))))
  {
    var lines := HeaderLines(c) + body;
    var s1 := EMPTY_SLOTS.(webhook := Some(c.webhook));
    var s2 := s1.(delay := Some(c.delay));
    assert lines[0] == "webhook " + c.webhook.url;
    WebhookLine(EMPTY_SLOTS, c.webhook.url);
    HeaderAdvance(lines, 0, EMPTY_SLOTS, s1);
    assert lines[1] == "every " + Decimal(c.delay) + " ms";
    EveryLine(s1, c.delay);
    HeaderAdvance(lines, 1, s1, s2);
    RenderedHeaderTail(c, body);
  }

  /** The header after the `webhook` and `every` lines. */
  lemma RenderedHeaderTail(c: Config, body: seq<string>)
    requires Expressible(c)
    ensures Header(HeaderLines(c) + body, 2, Slots(Some(c.webhook), Some(c.delay), None, None))
            == Ok((|HeaderLines(c)| - 1, Slots(Some(c.webhook), Some(c.delay), c.password, Some(c.compressionLevel))))
  {
    var head := HeaderLines(c);
    var lines := head + body;
    var m := |head| - 1;
    var s2 := Slots(Some(c.webhook), Some(c.delay), None, None);
    var s3 := s2.(password := c.password);
    var s4 := s3.(compression := Some(c.compressionLevel));
    if c.password.Some? {
      assert lines[2] == "password " + c.password.value;
      PasswordLine(s2, c.password.value);
      HeaderAdvance(lines, 2, s2, s3);
    }
    assert lines[m - 1] == "compression " + IntText(c.compressionLevel);
    CompressionLine(s3, c.compressionLevel);
    HeaderAdvance(lines, m - 1, s3, s4);
    ShellLine(c.shell);
    assert lines[m] == "#!" + Join(c.shell, ' ');
    assert Header(lines, m, s4) == Ok((m, s4));
  }

  /** Writing a configuration's header followed by any script lines, then
      parsing, gives the configuration back with that script. */
  lemma HeaderRoundTrip(c: Config, body: seq<string>)
    requires Expressible(c)
    ensures ParseConfig(HeaderLines(c) + body) == Ok(c.(script := Unlines(body)))
  {
    var head := HeaderLines(c);
    var lines := head + body;
    var m := |head| - 1;
    var slots := Slots(Some(c.webhook), Some(c.delay), c.password, Some(c.compressionLevel));
    assert Header(lines, 0, EMPTY_SLOTS) == Ok((m, slots)) by {
      RenderedHeader(c, body);
    }
    var shell := Join(c.shell, ' ');
    assert ShellText(lines, m) == Some(shell) && Split(shell, ' ') == c.shell by {
      ShellLine(c.shell);
      assert lines[m] == "#!" + shell;
    }
    assert lines[m + 1..] == body;
  }

  /** The digits of a number, with a sign or not, are no line feeds. */
  lemma IntTextPlain(n: int)
    ensures var v := IntText(n); v != [] && '\n' !in v && IsDigit(v[|v| - 1])
  {
    var v := IntText(n);
    var d := Decimal(if n < 0 then -n else n);
    assert v == d || v == "-" + d;
    assert v[|v| - 1] == d[|d| - 1];
    assert forall i :: 0 <= i < |v| ==> v[i] == '-' || IsDigit(v[i]);
  }

  /** A key followed by a value that ends in a non-space is a plain line. */
  lemma PlainKeyLine(key: string, v: string)
    requires '\n' !in key && '\n' !in v && v != [] && !IsWhitespace(v[|v| - 1])
    ensures PlainLine(key + v)
  {
    var x := key + v;
    assert x[|x| - 1] == v[|v| - 1];
  }

  /** Each rendered directive line is a plain line. */
  lemma DirectiveLinesPlain(c: Config)
    requires Expressible(c)
    ensures PlainLine("webhook " + c.webhook.url)
    ensures PlainLine("every " + Decimal(c.delay) + " ms")
    ensures c.password.Some? ==> PlainLine("password " + c.password.value)
    ensures PlainLine("compression " + IntText(c.compressionLevel))
  {
    var d := Decimal(c.delay);
    assert '\n' !in "every " + d by {
      forall i | 0 <= i < |d|
        ensures d[i] != '\n'
      {
        assert IsDigit(d[i]);
      }
    }
    PlainKeyLine("webhook ", c.webhook.url);
    PlainKeyLine("every " + d, " ms");
    IntTextPlain(c.compressionLevel);
    PlainKeyLine("compression ", IntText(c.compressionLevel));
    if c.password.Some? {
      PlainKeyLine("password ", c.password.value);
    }
  }

  /** The rendered header lines are plain lines. */
  lemma HeaderLinesPlain(c: Config)
    requires Expressible(c)
    ensures forall i :: 0 <= i < |HeaderLines(c)| ==> PlainLine(HeaderLines(c)[i])
  {
    DirectiveLinesPlain(c);
    ShellLine(c.shell);
    var first := ["webhook " + c.webhook.url, "every " + Decimal(c.delay) + " ms"];
    var middle := if c.password.Some? then ["password " + c.password.value] else [];
    var last := ["compression " + IntText(c.compressionLevel), "#!" + Join(c.shell, ' ')];
    PlainAppend(first, middle);
    PlainAppend(first + middle, last);
  }

  /** The same, for the text of a whole configuration file, when every script
      line is plain. */
  lemma FileRoundTrip(c: Config, body: seq<string>)
    requires Expressible(c) && forall i :: 0 <= i < |body| ==> PlainLine(body[i])
    ensures ParseConfig(Lines(Unlines(HeaderLines(c) + body))) == Ok(c.(script := Unlines(body)))
  {
    var head := HeaderLines(c);
    assert Lines(Unlines(head + body)) == head + body by {
      HeaderLinesPlain(c);
      PlainAppend(head, body);
      LinesUnlines(head + body);
    }
    HeaderRoundTrip(c, body);
  }

  // ---------------------------------------------------------------------------
  // Command-line flags

  /** The configuration path used when the arguments run out. */
  const DEFAULT_CONFIG: string := "backup_config"

  /** The argument after `rest`'s head is taken, or the default path once
      the arguments have run out. */
  function Next(rest: seq<string>): string {
    if rest == [] then DEFAULT_CONFIG else rest[0]
  }

  function Drop1(rest: seq<string>): seq<string> {
    if rest == [] then [] else rest[1..]
  }

  /** The flag loop at argument `current`, with `rest` after it: whether
      `--setup` was seen, and the configuration path. Every argument that
      starts with `--` is a flag; the first one that does not is the path,
      except that a `--` right after a flag ends the loop and is itself taken
      as the path. */
  function FlagsFrom(current: string, rest: seq<string>, setup: bool): (bool, string)
    decreases |rest|, if StartsWith(current, "--") then 1 else 0
  {
    if !StartsWith(current, "--") then (setup, current)
    else
      var seen := setup || current == "--setup";
      var next := Next(rest);
      if next == "--" then (seen, next)
      else
        assert rest == [] ==> !StartsWith(next, "--") by {
          if rest == [] {
            NotStartsWith(DEFAULT_CONFIG, "--");
          }
        }
        FlagsFrom(next, Drop1(rest), seen)
  }

  /** The flags of `args`, the arguments after the program name. */
  function Flags(args: seq<string>): (bool, string) {
    FlagsFrom(Next(args), Drop1(args), false)
  }

  /** src/config.rs lines 56-72: the flag loop, taking one argument at a time. */
  method ReadFlags(args: seq<string>) returns (setup: bool, config: string)
    ensures (setup, config) == Flags(args)
  {
    var rest := Drop1(args);
    config := Next(args);
    setup := false;
    while StartsWith(config, "--")
      invariant Flags(args) == FlagsFrom(config, rest, setup)
      decreases |rest|, if StartsWith(config, "--") then 1 else 0
    {
      if config == "--setup" {
        setup := true;
      }
      if rest == [] {
        NotStartsWith(DEFAULT_CONFIG, "--");
      }
      config, rest := Next(rest), Drop1(rest);
      if config == "--" {
        break;
      }
    }
  }

  /** The path the loop settles on is `--` or does not start with `--`, and
      is an argument or the default; `--setup` is only set by an argument. */
  lemma {:induction false} FlagsFromShape(current: string, rest: seq<string>, setup: bool)
    ensures var (seen, path) := FlagsFrom(current, rest, setup);
            && (path == "--" || !StartsWith(path, "--"))
            && (path == current || path in rest || path == DEFAULT_CONFIG)
            && (seen ==> setup || current == "--setup" || "--setup" in rest)
    decreases |rest|, if StartsWith(current, "--") then 1 else 0
  {
    if StartsWith(current, "--") && Next(rest) != "--" {
      if rest == [] {
        NotStartsWith(DEFAULT_CONFIG, "--");
      }
      FlagsFromShape(Next(rest), Drop1(rest), setup || current == "--setup");
    }
  }

  lemma FlagsShape(args: seq<string>)
    ensures var (seen, path) := Flags(args);
            && (path == "--" || !StartsWith(path, "--"))
            && (path in args || path == DEFAULT_CONFIG)
            && (seen ==> "--setup" in args)
  {
    FlagsFromShape(Next(args), Drop1(args), false);
    if args != [] {
      assert args == [args[0]] + args[1..];
    }
  }

  /** Flags, then a path: the path is the first argument that does not start
      with `--`, and `--setup` is set when it is among the flags. */
  lemma {:induction false} FlagsFromBefore(flags: seq<string>, path: string, rest: seq<string>, setup: bool)
    requires |flags| >= 1 && forall i :: 0 <= i < |flags| ==> StartsWith(flags[i], "--")
    requires forall i :: 1 <= i < |flags| ==> flags[i] != "--"
    requires !StartsWith(path, "--")
    ensures FlagsFrom(flags[0], flags[1..] + [path] + rest, setup) == (setup || "--setup" in flags, path)
    decreases |flags|
  {
    var after := flags[1..] + [path] + rest;
    if |flags| == 1 {
      assert Next(after) == path;
    } else {
      assert Next(after) == flags[1] && Drop1(after) == flags[2..] + [path] + rest;
      FlagsFromBefore(flags[1..], path, rest, setup || flags[0] == "--setup");
      assert flags == [flags[0]] + flags[1..];
    }
  }

  lemma FlagsBefore(flags: seq<string>, path: string, rest: seq<string>)
    requires forall i :: 0 <= i < |flags| ==> StartsWith(flags[i], "--")
    requires forall i :: 1 <= i < |flags| ==> flags[i] != "--"
    requires !StartsWith(path, "--")
    ensures Flags(flags + [path] + rest) == ("--setup" in flags, path)
  {
    var args := flags + [path] + rest;
    if flags == [] {
      assert Next(args) == path;
    } else {
      assert Next(args) == flags[0] && Drop1(args) == flags[1..] + [path] + rest;
      FlagsFromBefore(flags, path, rest, false);
    }
  }

  /** Flags alone: the path is the default one. */
  lemma {:induction false} FlagsFromOnly(flags: seq<string>, setup: bool)
    requires |flags| >= 1 && forall i :: 0 <= i < |flags| ==> StartsWith(flags[i], "--")
    requires forall i :: 1 <= i < |flags| ==> flags[i] != "--"
    ensures FlagsFrom(flags[0], flags[1..], setup) == (setup || "--setup" in flags, DEFAULT_CONFIG)
    decreases |flags|
  {
    if |flags| == 1 {
      NotStartsWith(DEFAULT_CONFIG, "--");
    } else {
      FlagsFromOnly(flags[1..], setup || flags[0] == "--setup");
      assert flags == [flags[0]] + flags[1..];
    }
  }

  lemma FlagsOnly(flags: seq<string>)
    requires forall i :: 0 <= i < |flags| ==> StartsWith(flags[i], "--")
    requires forall i :: 1 <= i < |flags| ==> flags[i] != "--"
    ensures Flags(flags) == ("--setup" in flags, DEFAULT_CONFIG)
  {
    if flags == [] {
      NotStartsWith(DEFAULT_CONFIG, "--");
    } else {
      FlagsFromOnly(flags, false);
    }
  }

  /** After a flag, `--` is taken as the configuration path. */
  lemma FlagsDashDash(flag: string, rest: seq<string>)
    requires StartsWith(flag, "--")
    ensures Flags([flag, "--"] + rest) == (flag == "--setup", "--")
  {
    var args := [flag, "--"] + rest;
    assert Next(args) == flag && Drop1(args) == ["--"] + rest;
  }
}
