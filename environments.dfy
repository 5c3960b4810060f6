/**
 * Choosing the test environment (environments.py, `open_config`): the
 * command line is scanned for `--env`, the element after its first
 * occurrence names the environment, `env_main` stands in otherwise, and
 * the name selects the configuration file `./config/<name>.json`.
 */
module Environments {
  import opened Wrappers

  /** The option that names the environment. */
  const Flag: string := "--env"

  /** The environment used when the command line names none. */
  const DefaultEnv: string := "env_main"

  /** `argv.index(x)` when `x in argv`: the position of the first occurrence. */
  function FirstIndex(argv: seq<string>, x: string): (r: Option<nat>)
    ensures r.None? <==> x !in argv
    ensures r.Some? ==> r.value < |argv| && argv[r.value] == x && x !in argv[..r.value]
  {
    if argv == [] then None
    else if argv[0] == x then Some(0)
    else
      match FirstIndex(argv[1..], x)
      case None => None
      case Some(i) =>
        assert argv[..i + 1] == [argv[0]] + argv[1..][..i];
        Some(i + 1)
  }

  /** The environment name `open_config` settles on for the command line `argv`. */
  function EnvName(argv: seq<string>): (r: string)
    ensures Flag !in argv ==> r == DefaultEnv
    ensures forall i {:trigger argv[i]} :: 0 <= i < |argv| && argv[i] == Flag && Flag !in argv[..i] ==>
              r == if i + 1 < |argv| then argv[i + 1] else DefaultEnv
  {
    match FirstIndex(argv, Flag)
    case None => DefaultEnv
    case Some(i) =>
      if i + 1 < |argv| then argv[i + 1] else DefaultEnv
  }

  /** The path of the configuration file for environment `name`. */
  function ConfigPath(name: string): (r: string)
    ensures |r| == |name| + 14
    ensures r[..9] == "./config/" && r[9..|r| - 5] == name && r[|r| - 5..] == ".json"
  {
    "./config/" + name + ".json"
  }

  /** The configuration file `open_config` reads for the command line `argv`. */
  function ConfigFile(argv: seq<string>): (r: string)
    ensures |r| == |EnvName(argv)| + 14 && r[9..|r| - 5] == EnvName(argv)
  {
    ConfigPath(EnvName(argv))
  }

  /**
   * Only the first `--env` counts: arguments appended after it and its
   * value, including further `--env` options, change nothing.
   */
  lemma {:induction false} LaterArgumentsIgnored(argv: seq<string>, more: seq<string>)
    requires var i := FirstIndex(argv, Flag); i.Some? && i.value + 1 < |argv|
    ensures EnvName(argv + more) == EnvName(argv)
  {
    var i := FirstIndex(argv, Flag).value;
    var all := argv + more;
    assert all[..i] == argv[..i];
    assert all[i] == Flag && all[i + 1] == argv[i + 1];
  }

  /** The element after `--env` is taken as it is, even when it is itself an option. */
  lemma ValueTakenVerbatim(program: string)
    requires program != Flag
    ensures EnvName([program, Flag, Flag]) == Flag
  {
    var argv := [program, Flag, Flag];
    assert argv[1] == Flag && argv[..1] == [program];
  }

  /** `--env` as the last element names nothing, and the default is used. */
  lemma TrailingFlagFallsBack(argv: seq<string>)
    requires Flag !in argv
    ensures EnvName(argv + [Flag]) == DefaultEnv
  {
    var all := argv + [Flag];
    assert all[|argv|] == Flag && all[..|argv|] == argv;
  }
}
