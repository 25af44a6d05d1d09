/**
 * The notification request (`Config`) with its field defaults, and the
 * command-line half of `Config.Load`: the argument-shape branch and
 * `ParseCommandLine`.
 */
module Configuration {
  import opened Strings

  /**
   * One notification request. String fields are C# `string?` values.
   * `image`, `size`, `primary`, `important`, `apiListenPort` and
   * `maxNotificationsOnScreen` live in partial class files that are not part
   * of this model; they are plain fields here.
   */
  datatype Config = Config(
    message: NString,
    title: NString,
    time: NString,
    image: NString,
    position: NString,
    exit: bool,
    color: NString,
    sound: NString,
    size: NString,
    primary: bool,
    important: bool,
    apiListenPort: int,
    maxNotificationsOnScreen: int)

  const DefaultSound: string := "C:\\Windows\\Media\\Windows Notify System Generic.wav"

  /**
   * `new Config()`. The initialisers of the fields declared in the unseen
   * partial files are taken as the C# defaults (null, false, 0), except the
   * on-screen limit, taken as 4.
   */
  const DefaultConfig: Config := Config(
    message := Some(""),
    title := Some("Notification"),
    time := Some("10"),
    image := None,
    position := Some("topleft"),
    exit := false,
    color := Some(""),
    sound := Some(DefaultSound),
    size := None,
    primary := false,
    important := false,
    apiListenPort := 0,
    maxNotificationsOnScreen := 4)

  /** A fresh request has a blank message, so nothing would accept it unchanged. */
  lemma DefaultConfigIsBlank()
    ensures IsNullOrWhiteSpace(DefaultConfig.message)
    ensures DefaultConfig.title == Some("Notification") && DefaultConfig.time == Some("10")
    ensures DefaultConfig.position == Some("topleft") && !DefaultConfig.exit && DefaultConfig.color == Some("")
  {
  }

  // ---------------------------------------------------------------------------
  // Command-line arguments

  /** An argument that starts with '-' or '/'. */
  predicate IsSwitchLike(arg: string)
  {
    StartsWith(arg, '-') || StartsWith(arg, '/')
  }

  /** An argument `ParseCommandLine` treats as a flag. */
  predicate IsFlag(arg: string)
  {
    IsSwitchLike(arg) && |arg| > 1
  }

  /** `arg.TrimStart('-', '/').ToLowerInvariant()`. */
  function FlagKey(arg: string): string
  {
    Lower(TrimStartChars(arg, {'-', '/'}))
  }

  const RecognisedKeys: set<string> := {"message", "title", "time", "image", "position", "exit", "color", "sound"}

  /** The `switch (key)` of `ParseCommandLine`: one flag with its (possibly null) value. */
  function ApplyFlag(c: Config, key: string, value: NString): (r: Config)
    ensures key !in RecognisedKeys ==> r == c
    ensures r.exit == (c.exit || key == "exit")
    ensures key == "position" ==> r.position == LowerOpt(value)
    ensures key == "message" ==> r.message == value
  {
    match key
    case "message" => c.(message := value)
    case "title" => c.(title := value)
    case "time" => c.(time := value)
    case "image" => c.(image := value)
    case "position" => c.(position := LowerOpt(value))
    case "exit" => c.(exit := true)
    case "color" => c.(color := value)
    case "sound" => c.(sound := value)
    case _ => c
  }

  /**
   * What `ParseCommandLine` does with `args[i..]`, one flag at a time: a flag
   * takes the next argument as its value unless that one is switch-like;
   * anything else is skipped.
   */
  function ParseFrom(c: Config, args: seq<string>, i: nat): Config
    decreases |args| - i
  {
    if i >= |args| then c
    else if IsFlag(args[i]) then
      if i + 1 < |args| && !IsSwitchLike(args[i + 1]) then
        ParseFrom(ApplyFlag(c, FlagKey(args[i]), Some(args[i + 1])), args, i + 2)
      else
        ParseFrom(ApplyFlag(c, FlagKey(args[i]), None), args, i + 1)
    else
      ParseFrom(c, args, i + 1)
  }

  /** Some argument at or after `i` is an "exit" flag. */
  predicate HasExitFlag(args: seq<string>, i: nat)
  {
    exists j :: i <= j < |args| && IsFlag(args[j]) && FlagKey(args[j]) == "exit"
  }

  /**
   * A flag is never taken as another flag's value, so every "exit" flag is
   * seen, whatever surrounds it; nothing else sets `exit`.
   */
  lemma {:induction false} ExitIffExitFlag(c: Config, args: seq<string>, i: nat)
    ensures ParseFrom(c, args, i).exit == (c.exit || HasExitFlag(args, i))
    decreases |args| - i
  {
    if i < |args| {
      if IsFlag(args[i]) {
        var c' := ApplyFlag(c, FlagKey(args[i]), if i + 1 < |args| && !IsSwitchLike(args[i + 1]) then Some(args[i + 1]) else None);
        if i + 1 < |args| && !IsSwitchLike(args[i + 1]) {
          ExitIffExitFlag(c', args, i + 2);
          assert !IsFlag(args[i + 1]);
          assert HasExitFlag(args, i) == (FlagKey(args[i]) == "exit" || HasExitFlag(args, i + 2)) by {
            if HasExitFlag(args, i) {
              var j :| i <= j < |args| && IsFlag(args[j]) && FlagKey(args[j]) == "exit";
              assert j == i || j >= i + 2;
            }
          }
        } else {
          ExitIffExitFlag(c', args, i + 1);
          assert HasExitFlag(args, i) == (FlagKey(args[i]) == "exit" || HasExitFlag(args, i + 1)) by {
            if HasExitFlag(args, i) {
              var j :| i <= j < |args| && IsFlag(args[j]) && FlagKey(args[j]) == "exit";
              assert j == i || j >= i + 1;
            }
          }
        }
      } else {
        ExitIffExitFlag(c, args, i + 1);
        assert HasExitFlag(args, i) == HasExitFlag(args, i + 1) by {
          if HasExitFlag(args, i) {
            var j :| i <= j < |args| && IsFlag(args[j]) && FlagKey(args[j]) == "exit";
            assert j != i;
          }
        }
      }
    }
  }

  /** Only flags with a recognised key change anything; bare arguments are ignored. */
  lemma {:induction false} UnrecognisedChangeNothing(c: Config, args: seq<string>, i: nat)
    requires forall j :: i <= j < |args| && IsFlag(args[j]) ==> FlagKey(args[j]) !in RecognisedKeys
    ensures ParseFrom(c, args, i) == c
    decreases |args| - i
  {
    if i < |args| {
      if IsFlag(args[i]) && i + 1 < |args| && !IsSwitchLike(args[i + 1]) {
        UnrecognisedChangeNothing(c, args, i + 2);
      } else {
        UnrecognisedChangeNothing(c, args, i + 1);
      }
    }
  }

  /**
   * A flag followed by a plain argument takes it as its value, and parsing
   * resumes after that value; a flag and value alone end the parse.
   */
  lemma FlagTakesPlainValue(c: Config, args: seq<string>, i: nat)
    requires i + 1 < |args| && IsFlag(args[i]) && !IsSwitchLike(args[i + 1])
    ensures ParseFrom(c, args, i) == ParseFrom(ApplyFlag(c, FlagKey(args[i]), Some(args[i + 1])), args, i + 2)
    ensures i + 2 == |args| ==> ParseFrom(c, args, i) == ApplyFlag(c, FlagKey(args[i]), Some(args[i + 1]))
  {
  }

  /**
   * A flag followed by a switch-like argument, or by nothing, is applied with
   * a null value, and the next argument is parsed on its own.
   */
  lemma FlagBeforeSwitchGetsNull(c: Config, args: seq<string>, i: nat)
    requires i < |args| && IsFlag(args[i]) && (i + 1 == |args| || IsSwitchLike(args[i + 1]))
    ensures ParseFrom(c, args, i) == ParseFrom(ApplyFlag(c, FlagKey(args[i]), None), args, i + 1)
    ensures i + 1 == |args| ==> ParseFrom(c, args, i) == ApplyFlag(c, FlagKey(args[i]), None)
  {
  }

  /** `ParseCommandLine`: the index loop that bumps `i` past a consumed value. */
  method ParseCommandLine(c: Config, args: seq<string>) returns (r: Config)
    ensures r == ParseFrom(c, args, 0)
  {
    r := c;
    var i := 0;
    while i < |args|
      invariant i <= |args|
      invariant ParseFrom(r, args, i) == ParseFrom(c, args, 0)
      decreases |args| - i
    {
      var arg := args[i];
      if (StartsWith(arg, '-') || StartsWith(arg, '/')) && |arg| > 1 {
        var key := FlagKey(arg);
        var value: NString := None;
        if i + 1 < |args| && !StartsWith(args[i + 1], '-') && !StartsWith(args[i + 1], '/') {
          value := Some(args[i + 1]);
          i := i + 1;
        }
        r := ApplyFlag(r, key, value);
      }
      i := i + 1;
    }
  }

  /** Exactly one bare argument, or exactly two: the positional message (and title) form. */
  predicate IsPositionalForm(args: seq<string>)
  {
    (|args| == 1 && !IsSwitchLike(args[0])) ||
    (|args| == 2 && !IsSwitchLike(args[0]) && !IsSwitchLike(args[1]))
  }

  /** The argument-shape branch at the end of `Config.Load`. */
  method LoadArguments(c: Config, args: seq<string>) returns (r: Config)
    ensures |args| == 1 && !IsSwitchLike(args[0]) ==> r == c.(message := Some(args[0]))
    ensures |args| == 2 && !IsSwitchLike(args[0]) && !IsSwitchLike(args[1]) ==>
              r == c.(message := Some(args[0]), title := Some(args[1]))
    ensures !IsPositionalForm(args) ==> r == ParseFrom(c, args, 0)
  {
    if |args| == 1 && !(StartsWith(args[0], '-') || StartsWith(args[0], '/')) {
      r := c.(message := Some(args[0]));
    } else if |args| == 2 && !(StartsWith(args[0], '-') || StartsWith(args[0], '/') || StartsWith(args[1], '-') || StartsWith(args[1], '/')) {
      r := c.(message := Some(args[0]));
      r := r.(title := Some(args[1]));
    } else {
      r := ParseCommandLine(c, args);
    }
  }
}
