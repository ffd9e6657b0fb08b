/** The argument vector of daemon.c and the command line main.c builds with it. */
module Daemon {
  import opened Options

  /** What execvp passes on: the strings in front of the first NULL. */
  function Argv(cells: seq<Option<string>>): seq<string> {
    if cells == [] || cells[0].None? then [] else [cells[0].value] + Argv(cells[1..])
  }

  /** The cells hold exactly the arguments and one NULL behind them. */
  ghost predicate Holds(cells: seq<Option<string>>, args: seq<string>) {
    |cells| == |args| + 1 && cells[|args|] == None && forall i | 0 <= i < |args| :: cells[i] == Some(args[i])
  }

  lemma {:induction false} ArgvIs(cells: seq<Option<string>>, args: seq<string>)
    requires Holds(cells, args)
    ensures Argv(cells) == args
  {
    if args != [] {
      ArgvIs(cells[1..], args[1..]);
      assert args == [args[0]] + args[1..];
    }
  }

  class DaemonInfo {
    var arguments: array<Option<string>>
    var pid: int

    /** daemon_init. */
    constructor (args: seq<string>)
      ensures Holds(arguments[..], args) && fresh(arguments) && pid == -1
    {
      var cells := new Option<string>[|args| + 1](_ => None);
      forall i | 0 <= i < |args| {
        cells[i] := Some(args[i]);
      }
      arguments, pid := cells, -1;
    }

    /** daemon_addparam: the new string goes where the NULL was, a new NULL behind it. */
    method AddParam(param: string, ghost args: seq<string>)
      requires Holds(arguments[..], args)
      modifies this`arguments
      ensures Holds(arguments[..], args + [param]) && fresh(arguments)
    {
      var n := arguments.Length + 1;
      var tmp := new Option<string>[n](_ => None);
      forall i | 0 <= i < arguments.Length {
        tmp[i] := arguments[i];
      }
      tmp[n - 2] := Some(param);
      tmp[n - 1] := None;
      forall i | 0 <= i < |args| ensures tmp[i] == Some(args[i]) {
        assert arguments[..][i] == Some(args[i]);
      }
      arguments := tmp;
    }
  }

  /** The command line of tincd: in the foreground unless this is a oneshot run. */
  function CommandLine(bin: string, network: string, debug: string, oneshot: bool, user: Option<string>): seq<string> {
    [bin, "-n", network, debug]
    + (if oneshot then [] else ["-D"])
    + (if user.Some? then ["--user", user.value] else [])
  }

  /** tincd is told to stay in the foreground exactly in runs that are not oneshot, and its user exactly if one is set. */
  lemma CommandLineIs(bin: string, network: string, debug: string, user: string)
    ensures CommandLine(bin, network, debug, true, None) == [bin, "-n", network, debug]
    ensures CommandLine(bin, network, debug, false, None) == [bin, "-n", network, debug, "-D"]
    ensures CommandLine(bin, network, debug, true, Some(user)) == [bin, "-n", network, debug, "--user", user]
    ensures CommandLine(bin, network, debug, false, Some(user)) == [bin, "-n", network, debug, "-D", "--user", user]
  {
  }

  /** What fire_up_tincd_handler prepares. */
  method Prepare(bin: string, network: string, debug: string, oneshot: bool, user: Option<string>) returns (di: DaemonInfo)
    ensures Argv(di.arguments[..]) == CommandLine(bin, network, debug, oneshot, user)
    ensures fresh(di) && di.pid == -1
  {
    ghost var args := [bin, "-n", network, debug];
    di := new DaemonInfo([bin, "-n", network, debug]);
    if !oneshot {
      di.AddParam("-D", args);
      args := args + ["-D"];
    }
    if user.Some? {
      di.AddParam("--user", args);
      di.AddParam(user.value, args + ["--user"]);
      args := args + ["--user"] + [user.value];
    }
    ArgvIs(di.arguments[..], args);
  }
}
