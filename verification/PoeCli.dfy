/** Registration of the `poe` command group in the root `show` command. */
module PoeCli {
  import opened Wrappers

  /** A node of the command tree: its name and its subcommands. */
  datatype Command = Command(name: string, subcommands: seq<Command>)

  /** `show poe`: the `interface` group with its `configuration` and `state` subcommands. */
  const PoeCommand := Command("poe", [Command("interface", [Command("configuration", []), Command("state", [])])])

  /** The root command, whose `commands` map the plugin extends. */
  class RootCli {
    var commands: map<string, Command>

    /** Every command is registered under its own name (true unless a caller filed one under an alias). */
    ghost predicate Valid()
      reads this
    {
      forall n :: n in commands ==> commands[n].name == n
    }

    constructor (commands: map<string, Command>)
      ensures this.commands == commands
    {
      this.commands := commands;
    }

    /** `add_command`: file the command under its name, replacing any earlier one. */
    method AddCommand(cmd: Command)
      modifies this
      ensures old(Valid()) ==> Valid()
      ensures commands == old(commands)[cmd.name := cmd]
    {
      commands := commands[cmd.name := cmd];
    }

    /** `register`: add `poe`, or raise when a command of that name already exists. */
    method Register() returns (r: Outcome<string>)
      modifies this
      ensures old(Valid()) ==> Valid()
      ensures PoeCommand.name in old(commands) ==>
        r == Fail(PoeCommand.name + " already exists in CLI") && commands == old(commands)
      ensures PoeCommand.name !in old(commands) ==>
        r == Pass && commands == old(commands)[PoeCommand.name := PoeCommand]
    {
      if PoeCommand.name in commands {
        return Fail(PoeCommand.name + " already exists in CLI");
      }
      AddCommand(PoeCommand);
      r := Pass;
    }
  }
}
