/**
 * The command-line parser of the integrity utility. `Parse` scans every token
 * once, left to right: a token that does not start with '-' is skipped, a known
 * option updates its field (reading the token after it when it takes a value;
 * that value token is then scanned as the next token), "--" is skipped and any
 * other '-' token counts one error. Without a path the result has one more
 * error; with no tokens at all the error count is 255.
 */
module CommandLine {
  import opened Wrappers
  import opened Numerics

  /** The fields of an Arguments object. */
  datatype Options = Options(
    path: string, algorithm: string, extensions: string, threads: int, compare: Option<string>,
    delay: int, repeat: bool, log: bool, help: bool, allExtensions: bool, errors: int)

  /** What the constructor sets; `delay` and `compare` keep the C# defaults 0 and null. */
  function Defaults(): Options {
    Options("", "SHA3-512", "all", 4, None, 0, false, false, false, true, 0)
  }

  /** The cases of the option switch. */
  datatype Opt = Path | Algorithm | Extensions | Threads | Compare | Delay | Log | File | Help | EndOfOptions | Unknown {
    predicate TakesValue() {
      this in {Path, Algorithm, Extensions, Threads, Compare, Delay, File}
    }
  }

  /** Which case of the switch a token selects. */
  function Classify(token: string): Opt {
    match token
    case "-p" | "--path" => Path
    case "-a" | "--algorithm" => Algorithm
    case "-e" | "--extensions" => Extensions
    case "-t" | "--threads" => Threads
    case "-c" | "--compare" => Compare
    case "-d" | "--delay" => Delay
    case "-l" | "--log" => Log
    case "-f" | "--file" => File
    case "-h" | "--help" => Help
    case "--" => EndOfOptions
    case _ => Unknown
  }

  /**
   * What the source needs of its input to run without an exception: no empty
   * token, a value after every option that takes one, and a token count that
   * fits the Int16 loop counter.
   */
  predicate WellFormed(args: seq<string>) {
    && |args| <= INT16_MAX
    && (forall i :: 0 <= i < |args| ==> args[i] != [])
    && (forall i :: 0 <= i < |args| && Classify(args[i]).TakesValue() ==> i + 1 < |args|)
  }

  function ErrorIf(failed: bool): nat {
    if failed then 1 else 0
  }

  function Multiplier(unit: char): int {
    match unit
    case 'm' => 60
    case 'h' => 3600
    case _ => 1
  }

  /**
   * The effect of a `-d` value on the delay field, as the new delay and the
   * number of errors it adds. A trailing non-digit is a unit: 's', 'm' and 'h'
   * parse the rest and scale it (with Int32 wrap-around), any other unit is an
   * error that leaves the delay alone. A failed parse stores 0.
   */
  function DelayValue(s: string, delay: int): (int, nat)
    requires s != []
  {
    var last := s[|s| - 1];
    if !IsDigit(last) then
      var number := s[..|s| - 1];
      if last == 's' || last == 'm' || last == 'h' then
        (WrapInt32(ParsedOrZero(number, INT32_MIN, INT32_MAX) * Multiplier(last)),
         ErrorIf(TryParse(number, INT32_MIN, INT32_MAX).None?))
      else (delay, 1)
    else
      (ParsedOrZero(s, INT32_MIN, INT32_MAX), ErrorIf(TryParse(s, INT32_MIN, INT32_MAX).None?))
  }

  /** The effect of option k, with value token `value`, on the options. */
  function Apply(o: Options, k: Opt, value: string): Options
    requires k == Delay ==> value != []
  {
    match k
    case Path => o.(path := value)
    case Algorithm => o.(algorithm := value)
    case Extensions => o.(extensions := value, allExtensions := value == "all")
    case Threads =>
      o.(threads := ParsedOrZero(value, INT16_MIN, INT16_MAX),
         errors := o.errors + ErrorIf(TryParse(value, INT16_MIN, INT16_MAX).None?))
    case Compare => o.(compare := Some(value))
    case Delay =>
      var d := DelayValue(value, o.delay);
      o.(delay := d.0, errors := o.errors + d.1, repeat := true)
    case Log => o.(log := true)
    case File => o
    case Help => o.(help := true)
    case EndOfOptions => o
    case Unknown => o.(errors := o.errors + 1)
  }

  /** The token after token i; WellFormed makes it exist wherever it is read. */
  function Next(args: seq<string>, i: nat): string {
    if i + 1 < |args| then args[i + 1] else ""
  }

  /** The effect of token i on the options: a token without a leading '-' is skipped. */
  function Step(o: Options, args: seq<string>, i: nat): Options
    requires i < |args| && WellFormed(args)
  {
    if args[i][0] != '-' then o else Apply(o, Classify(args[i]), Next(args, i))
  }

  /** The options after scanning the first n tokens. */
  function Scan(o: Options, args: seq<string>, n: nat): Options
    requires n <= |args| && WellFormed(args)
  {
    if n == 0 then o else Step(Scan(o, args, n - 1), args, n - 1)
  }

  /** The options after Parse: the scan of every token, then the missing-path check. */
  function Parsed(o: Options, args: seq<string>): Options
    requires WellFormed(args)
  {
    if |args| == 0 then o.(errors := 255)
    else
      var r := Scan(o, args, |args|);
      if r.path == "" then r.(errors := r.errors + 1) else r
  }

  /** The `-d` case of the switch, on the delay field alone. */
  method ParseDelay(value: string, delay: int) returns (d: int, e: nat)
    requires value != []
    ensures (d, e) == DelayValue(value, delay)
  {
    var s := value;
    d := delay;
    e := 0;
    if !IsDigit(s[|s| - 1]) {
      var unit := s[|s| - 1];
      s := s[..|s| - 1];
      var parsed := TryParse(s, INT32_MIN, INT32_MAX);
      if unit == 's' {
        d := if parsed.Some? then parsed.value else 0;
        e := if parsed.Some? then 0 else 1;
      } else if unit == 'm' {
        d := if parsed.Some? then parsed.value else 0;
        e := if parsed.Some? then 0 else 1;
        d := WrapInt32(d * 60);
      } else if unit == 'h' {
        d := if parsed.Some? then parsed.value else 0;
        e := if parsed.Some? then 0 else 1;
        d := WrapInt32(d * 3600);
      } else {
        e := 1;
      }
    } else {
      var parsed := TryParse(s, INT32_MIN, INT32_MAX);
      d := if parsed.Some? then parsed.value else 0;
      e := if parsed.Some? then 0 else 1;
    }
  }

  class Arguments {
    var path: string
    var algorithm: string
    var extensions: string
    var threads: int
    var compare: Option<string>
    var delay: int
    var repeat: bool
    var log: bool
    var help: bool
    var allExtensions: bool
    var errors: int

    function State(): Options
      reads this
    {
      Options(path, algorithm, extensions, threads, compare, delay, repeat, log, help, allExtensions, errors)
    }

    constructor ()
      ensures State() == Defaults()
    {
      path := "";
      algorithm := "SHA3-512";
      extensions := "all";
      threads := 4;
      compare := None;
      delay := 0;
      repeat := false;
      log := false;
      help := false;
      allExtensions := true;
      errors := 0;
    }

    /** The switch of the parsing loop, for option k whose value token is `value`. */
    method Switch(k: Opt, value: string)
      requires k == Delay ==> value != []
      modifies this
      ensures State() == Apply(old(State()), k, value)
    {
      match k {
        case Path | Algorithm | Extensions | Compare =>
          SetText(k, value);
        case Threads =>
          SetThreads(value);
        case Delay =>
          SetDelay(value);
        case Log =>
          log := true;
        case File =>
          // writes the invocation to a script file: not modelled
        case Help =>
          help := true;
        case EndOfOptions =>
        case Unknown =>
          errors := errors + 1;
      }
    }

    /** The cases of the switch that store the next token. */
    method SetText(k: Opt, value: string)
      requires k in {Path, Algorithm, Extensions, Compare}
      modifies this
      ensures State() == Apply(old(State()), k, value)
    {
      match k {
        case Path =>
          path := value;
        case Algorithm =>
          algorithm := value;
        case Extensions =>
          extensions := value;
          allExtensions := extensions == "all";
        case Compare =>
          compare := Some(value);
      }
    }

    /** The `-t` case: the next token parsed as an Int16, or 0 and one error. */
    method SetThreads(value: string)
      modifies this
      ensures State() == Apply(old(State()), Threads, value)
    {
      var parsed := TryParse(value, INT16_MIN, INT16_MAX);
      threads := if parsed.Some? then parsed.value else 0;
      errors := errors + (if parsed.Some? then 0 else 1);
    }

    /** The `-d` case: the delay and its error count as `ParseDelay` computes them; repeat is set. */
    method SetDelay(value: string)
      requires value != []
      modifies this
      ensures State() == Apply(old(State()), Delay, value)
    {
      var d, e := ParseDelay(value, delay);
      delay := d;
      errors := errors + e;
      repeat := true;
    }

    method Parse(args: seq<string>)
      requires WellFormed(args)
      modifies this
      ensures State() == Parsed(old(State()), args)
    {
      var length := |args|;
      if length == 0 {
        errors := 255;
        return;
      }
      var i := 0;
      while i < length
        invariant 0 <= i <= length
        invariant State() == Scan(old(State()), args, i)
      {
        var token := args[i];
        if token[0] == '-' {
          Switch(Classify(token), Next(args, i));
        }
        i := i + 1;
      }
      if path == "" {
        errors := errors + 1;
      }
    }
  }

  // ----- what Parse promises -----

  /** Every option of the switch is spelled with a leading '-'. */
  lemma KnownOptionsStartWithDash(token: string)
    requires Classify(token) != Unknown
    ensures token != [] && token[0] == '-'
  {
  }

  /** With no tokens the error count is 255 and every other field keeps its value. */
  lemma ParseWithoutArguments(o: Options)
    ensures Parsed(o, []) == o.(errors := 255)
  {
  }

  /** One option adds at most one error. */
  lemma ApplyErrors(o: Options, k: Opt, value: string)
    requires k == Delay ==> value != []
    ensures o.errors <= Apply(o, k, value).errors <= o.errors + 1
  {
  }

  /** Scanning n tokens adds between 0 and n errors: at most one per token. */
  lemma {:induction false} ScanErrorsBounded(o: Options, args: seq<string>, n: nat)
    requires n <= |args| && WellFormed(args)
    ensures o.errors <= Scan(o, args, n).errors <= o.errors + n
  {
    if n > 0 {
      ScanErrorsBounded(o, args, n - 1);
      var prev := Scan(o, args, n - 1);
      if args[n - 1][0] == '-' {
        ApplyErrors(prev, Classify(args[n - 1]), Next(args, n - 1));
      }
    }
  }

  /** A fresh Arguments object that is parsed without ending up with a path always reports an error. */
  lemma MissingPathIsAnError(args: seq<string>)
    requires WellFormed(args)
    ensures Parsed(Defaults(), args).path == "" ==> Parsed(Defaults(), args).errors >= 1
  {
    if |args| > 0 {
      ScanErrorsBounded(Defaults(), args, |args|);
    }
  }

  /** The string-valued field an option sets, if any. */
  function ValueOf(o: Options, k: Opt): Option<string> {
    match k
    case Path => Some(o.path)
    case Algorithm => Some(o.algorithm)
    case Extensions => Some(o.extensions)
    case Compare => o.compare
    case _ => None
  }

  /** The options whose value is stored verbatim. */
  predicate StoresValue(k: Opt) {
    k in {Path, Algorithm, Extensions, Compare}
  }

  /** An option sets its own field to its value and leaves the other stored values alone. */
  lemma ApplyValue(o: Options, k: Opt, value: string, field: Opt)
    requires (k == Delay ==> value != []) && StoresValue(field)
    ensures ValueOf(Apply(o, k, value), field) == if k == field then Some(value) else ValueOf(o, field)
  {
  }

  /** A field whose option appears nowhere among the first n tokens keeps its initial value. */
  lemma {:induction false} ValueUntouched(o: Options, args: seq<string>, n: nat, k: Opt)
    requires n <= |args| && WellFormed(args) && StoresValue(k)
    requires forall j :: 0 <= j < n ==> Classify(args[j]) != k
    ensures ValueOf(Scan(o, args, n), k) == ValueOf(o, k)
  {
    if n > 0 {
      ValueUntouched(o, args, n - 1, k);
      if args[n - 1][0] == '-' {
        ApplyValue(Scan(o, args, n - 1), Classify(args[n - 1]), Next(args, n - 1), k);
      }
    }
  }

  /**
   * Repeated options overwrite earlier ones: when token j is the last k token
   * among the first n, the field of k holds the token after it.
   */
  lemma {:induction false} LastWriteWins(o: Options, args: seq<string>, n: nat, k: Opt, j: nat)
    requires n <= |args| && WellFormed(args) && StoresValue(k)
    requires j < n && Classify(args[j]) == k
    requires forall l :: j < l < n ==> Classify(args[l]) != k
    ensures ValueOf(Scan(o, args, n), k) == Some(args[j + 1])
  {
    var t := args[n - 1];
    if n - 1 == j {
      KnownOptionsStartWithDash(t);
      ApplyValue(Scan(o, args, n - 1), k, Next(args, n - 1), k);
    } else {
      LastWriteWins(o, args, n - 1, k, j);
      if t[0] == '-' {
        ApplyValue(Scan(o, args, n - 1), Classify(t), Next(args, n - 1), k);
      }
    }
  }

  /** The flag an option switches on, if any. */
  function FlagOf(o: Options, k: Opt): bool {
    match k
    case Delay => o.repeat
    case Log => o.log
    case Help => o.help
    case _ => false
  }

  /** An option switches its own flag on and leaves the other flags alone. */
  lemma ApplyFlag(o: Options, k: Opt, value: string, flag: Opt)
    requires (k == Delay ==> value != []) && flag in {Delay, Log, Help}
    ensures FlagOf(Apply(o, k, value), flag) == (FlagOf(o, flag) || k == flag)
  {
  }

  /** `-d` sets repeat, `-l` sets log, `-h` sets help, and nothing clears them. */
  lemma {:induction false} FlagsAccumulate(o: Options, args: seq<string>, n: nat, k: Opt)
    requires n <= |args| && WellFormed(args) && k in {Delay, Log, Help}
    ensures FlagOf(Scan(o, args, n), k) <==> FlagOf(o, k) || exists j :: 0 <= j < n && Classify(args[j]) == k
  {
    if n > 0 {
      FlagsAccumulate(o, args, n - 1, k);
      var prev := Scan(o, args, n - 1);
      var t := args[n - 1];
      if t[0] == '-' {
        ApplyFlag(prev, Classify(t), Next(args, n - 1), k);
      } else {
        assert Classify(t) != k by {
          if Classify(t) == k {
            KnownOptionsStartWithDash(t);
          }
        }
      }
    }
  }

  /** The extensions invariant of an Arguments object: allExtensions says whether extensions is "all". */
  predicate ExtensionsAgree(o: Options) {
    o.allExtensions == (o.extensions == "all")
  }

  lemma ApplyExtensionsAgree(o: Options, k: Opt, value: string)
    requires (k == Delay ==> value != []) && ExtensionsAgree(o)
    ensures ExtensionsAgree(Apply(o, k, value))
  {
  }

  /** Every token keeps the extensions invariant. */
  lemma {:induction false} AllExtensionsTracksValue(o: Options, args: seq<string>, n: nat)
    requires n <= |args| && WellFormed(args) && ExtensionsAgree(o)
    ensures ExtensionsAgree(Scan(o, args, n))
  {
    if n > 0 {
      AllExtensionsTracksValue(o, args, n - 1);
      if args[n - 1][0] == '-' {
        ApplyExtensionsAgree(Scan(o, args, n - 1), Classify(args[n - 1]), Next(args, n - 1));
      }
    }
  }

  /** Starting from the defaults, a parse leaves allExtensions in step with extensions. */
  lemma ParsedAllExtensions(args: seq<string>)
    requires WellFormed(args)
    ensures ExtensionsAgree(Parsed(Defaults(), args))
  {
    if |args| > 0 {
      AllExtensionsTracksValue(Defaults(), args, |args|);
    }
  }

  /** A plain integer delay is taken as seconds, without error. */
  lemma DelayPlainNumber(n: int, delay: int)
    requires INT32_MIN <= n <= INT32_MAX
    ensures DelayValue(IntToString(n), delay) == (n, 0)
  {
    IntToStringEndsInDigit(n);
    TryParseIntToString(n, INT32_MIN, INT32_MAX);
  }

  /**
   * A delay with unit 's', 'm' or 'h' is the number times 1, 60 or 3600, wrapped
   * to Int32, and exact whenever the product fits.
   */
  lemma DelayWithUnit(n: int, unit: char, delay: int)
    requires INT32_MIN <= n <= INT32_MAX && unit in "smh"
    ensures DelayValue(IntToString(n) + [unit], delay) == (WrapInt32(n * Multiplier(unit)), 0)
    ensures INT32_MIN <= n * Multiplier(unit) <= INT32_MAX ==> DelayValue(IntToString(n) + [unit], delay).0 == n * Multiplier(unit)
  {
    var s := IntToString(n) + [unit];
    assert s[..|s| - 1] == IntToString(n);
    TryParseIntToString(n, INT32_MIN, INT32_MAX);
  }

  /** Any other trailing non-digit is one error and leaves the delay as it was. */
  lemma DelayUnknownUnit(number: string, unit: char, delay: int)
    requires !IsDigit(unit) && unit !in "smh"
    ensures DelayValue(number + [unit], delay) == (delay, 1)
  {
  }

  /** A delay value without a single digit is always one error. */
  lemma DelayNeedsDigit(s: string, delay: int)
    requires s != [] && forall k :: 0 <= k < |s| ==> !IsDigit(s[k])
    ensures DelayValue(s, delay).1 == 1
  {
    TryParseNeedsDigit(s[..|s| - 1], INT32_MIN, INT32_MAX);
  }

  /** `-t` stores any Int16 value as given, with no clamp to 1..16, and no error. */
  lemma ThreadsTakesAnyInt16(o: Options, args: seq<string>, i: nat, n: int)
    requires i < |args| && WellFormed(args) && Classify(args[i]) == Threads
    requires INT16_MIN <= n <= INT16_MAX && args[i + 1] == IntToString(n)
    ensures Step(o, args, i) == o.(threads := n)
  {
    KnownOptionsStartWithDash(args[i]);
    TryParseIntToString(n, INT16_MIN, INT16_MAX);
  }

  /** A `-t` value that is not an Int16 is one error and stores 0. */
  lemma ThreadsInvalid(o: Options, args: seq<string>, i: nat)
    requires i < |args| && WellFormed(args) && Classify(args[i]) == Threads
    requires TryParse(args[i + 1], INT16_MIN, INT16_MAX).None?
    ensures Step(o, args, i) == o.(threads := 0, errors := o.errors + 1)
  {
    KnownOptionsStartWithDash(args[i]);
  }

  /** A `-t` numeral outside the Int16 range, such as 40000, is one error and stores 0. */
  lemma ThreadsOutOfRange(o: Options, args: seq<string>, i: nat, n: int)
    requires i < |args| && WellFormed(args) && Classify(args[i]) == Threads
    requires (n < INT16_MIN || INT16_MAX < n) && args[i + 1] == IntToString(n)
    ensures Step(o, args, i) == o.(threads := 0, errors := o.errors + 1)
  {
    TryParseOutOfRange(n, INT16_MIN, INT16_MAX);
    ThreadsInvalid(o, args, i);
  }

  /** Tokens without a leading '-', "--" and unknown options change nothing but the error count. */
  lemma IgnoredTokens(o: Options, args: seq<string>, i: nat)
    requires i < |args| && WellFormed(args)
    ensures args[i][0] != '-' || Classify(args[i]) == EndOfOptions ==> Step(o, args, i) == o
    ensures args[i][0] == '-' && Classify(args[i]) == Unknown ==> Step(o, args, i) == o.(errors := o.errors + 1)
  {
  }
}
