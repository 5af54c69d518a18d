/** The `fanctl` command: the first argument after the program name picks a
    mode to apply, the G-Mode status query, or the tray. */
module Cli {
  import opened Backend
  import opened Text
  import Tray

  datatype Command = Usage | Apply(mode: FanMode) | Status | RunTray | Invalid

  const USAGE := "Usage: fanctl [quiet|balanced|performance|gmode|status|tray]"

  /** The dispatch of `main` on `args` (with `args[0]` the program name):
      too few arguments is a usage error, a mode token applies that mode,
      and only `args[1]` is looked at. */
  function Parse(args: seq<string>): (c: Command)
    ensures c == Usage <==> |args| < 2
    ensures c.Apply? <==> |args| >= 2 && exists m :: AsStr(m) == args[1]
    ensures c.Apply? ==> AsStr(c.mode) == args[1]
    ensures c == Status <==> |args| >= 2 && args[1] == "status"
    ensures c == RunTray <==> |args| >= 2 && args[1] == "tray"
  {
    if |args| < 2 then Usage
    else
      match args[1]
      case "quiet" => assert AsStr(Quiet) == args[1]; Apply(Quiet)
      case "balanced" => assert AsStr(Balanced) == args[1]; Apply(Balanced)
      case "performance" => assert AsStr(Performance) == args[1]; Apply(Performance)
      case "gmode" => assert AsStr(GMode) == args[1]; Apply(GMode)
      case "status" => Status
      case "tray" => RunTray
      case _ =>
        assert forall m :: AsStr(m) != args[1];
        Invalid
  }

  /** Every mode token parses back to its mode, whatever follows it. */
  lemma ParseAsStr(m: FanMode, rest: seq<string>)
    ensures Parse(["fanctl", AsStr(m)] + rest) == Apply(m)
  {
  }

  /** The tray's privileged child runs `fanctl` on exactly the requested
      mode. */
  lemma PkexecRunsRequestedMode(m: FanMode)
    ensures Tray.PkexecCommand(m)[0] == "pkexec"
    ensures Parse(Tray.PkexecCommand(m)[1..]) == Apply(m)
  {
  }

  /** How the process ends: with a status code and the lines it printed to
      stdout and stderr, or running the tray's event loop. */
  datatype ProcessEnd = Ended(code: int, stdout: seq<string>, stderr: seq<string>) | TrayRunning

  /** The end of a mode application: 0 with nothing printed, or 1 after its
      one diagnostic line. */
  function ApplyExit(o: Outcome): (e: ProcessEnd)
    ensures e.Ended? && e.stdout == []
    ensures e.code == 0 <==> o == Ok
    ensures e.code == 0 || e.code == 1
    ensures o == Ok ==> e.stderr == []
    ensures o.Exit? ==> e.stderr == [Message(o.reason)]
  {
    match o
    case Ok => Ended(0, [], [])
    case Exit(f) => Ended(1, [], [Message(f)])
  }

  /** The status line of `fanctl status`: "G-Mode: " then ON or OFF. */
  function StatusLine(on: bool): (r: string)
    ensures StartsWith(r, "G-Mode: ")
    ensures on <==> r[8..] == "ON"
  {
    if on then "G-Mode: ON" else "G-Mode: OFF"
  }

  /** `main`. */
  method Fanctl(sys: Platform, args: seq<string>) returns (e: ProcessEnd)
    modifies sys`trace
    ensures Parse(args) == Usage ==> e == Ended(1, [], [USAGE]) && sys.trace == old(sys.trace)
    ensures Parse(args) == Invalid ==> e == Ended(1, [], ["Invalid mode"]) && sys.trace == old(sys.trace)
    ensures Parse(args).Apply? ==>
      && sys.trace == old(sys.trace) + ApplyRun(Parse(args).mode, sys.hw).ops
      && e == ApplyExit(ApplyRun(Parse(args).mode, sys.hw).outcome)
    ensures Parse(args) == Status ==>
      && sys.trace == old(sys.trace) + QueryOps(sys.hw)
      && e == Ended(0, [StatusLine(GModeQuery(sys.hw))], [])
    ensures Parse(args) == RunTray ==>
      sys.trace == old(sys.trace) + QueryOps(sys.hw) && e == TrayRunning
  {
    if |args| < 2 {
      return Ended(1, [], [USAGE]);
    }
    match args[1]
    case "quiet" =>
      var o := ApplyMode(sys, Quiet);
      e := ApplyExit(o);
    case "balanced" =>
      var o := ApplyMode(sys, Balanced);
      e := ApplyExit(o);
    case "performance" =>
      var o := ApplyMode(sys, Performance);
      e := ApplyExit(o);
    case "gmode" =>
      var o := ApplyMode(sys, GMode);
      e := ApplyExit(o);
    case "status" =>
      var on := IsGModeOn(sys);
      e := Ended(0, [StatusLine(on)], []);
    case "tray" =>
      var tray := new Tray.FanTray(sys);
      e := TrayRunning;
    case _ =>
      e := Ended(1, [], ["Invalid mode"]);
  }
}
