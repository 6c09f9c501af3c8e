/** A command read from a machine, written into an app config, and lowered to a machine again. */
module CommandRoundTrip {
  import opened Prelude
  import opened AppConfig
  import opened Machines
  import ShellWords

  /** The command comes back word for word exactly when every word is printable. */
  lemma CommandSurvivesIff(tools: Tools, c: Config, group: string, words: seq<string>)
    requires words != [] && group != "" && group in c.processes && c.processes[group] == ShellWords.Printed(words)
    requires tools.split(ShellWords.Printed(words)) == ShellWords.Split(ShellWords.Printed(words))
    ensures InitCmd(tools, c, group) == Ok(Some(words)) <==> forall w :: w in words ==> ShellWords.Printable(w)
  {
    ShellWords.PrintThenSplitIff(words);
    if ShellWords.Printed(words) == "" {
      assert ShellWords.Split("") == Some([]);
    }
  }
}
