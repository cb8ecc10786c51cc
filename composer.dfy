/**
 * The command line `requireComposerPackages` hands to the process runner.
 */
module Composer {

  /** The `--composer` value that selects the `composer` binary on the search path. */
  const Global := "global"

  /**
   * `['composer', 'require', ...packages]` for the `global` sentinel, otherwise
   * `['php', composer, 'require', ...packages]`: the chosen binary invocation,
   * then `require`, then the packages in the order given.
   */
  function ComposerCommand(composer: string, packages: seq<string>): (argv: seq<string>)
    ensures |argv| == |packages| + (if composer == Global then 2 else 3)
    ensures composer == Global ==> argv[0] == "composer" && argv[1] == "require"
    ensures composer != Global ==> argv[0] == "php" && argv[1] == composer && argv[2] == "require"
    ensures argv[|argv| - |packages|..] == packages
  {
    (if composer == Global then ["composer", "require"] else ["php", composer, "require"]) + packages
  }

  /**
   * The command line determines its inputs: the packages, whether the global
   * binary was chosen and, if not, which script path was given.
   */
  lemma ComposerCommandDetermines(c1: string, p1: seq<string>, c2: string, p2: seq<string>)
    requires ComposerCommand(c1, p1) == ComposerCommand(c2, p2)
    ensures p1 == p2
    ensures c1 == Global <==> c2 == Global
    ensures c1 != Global ==> c1 == c2
  {
    var argv := ComposerCommand(c1, p1);
    assert (c1 == Global) == (argv[0] == "composer");
    assert (c2 == Global) == (argv[0] == "composer");
  }
}
