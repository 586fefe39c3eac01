/** How the command list reaches the spawned process. `run_download` passes the list to
    `subprocess.Popen` with `shell=True`; on a POSIX system Popen then runs `/bin/sh -c` with the
    list's first item as the shell script and every later item as a positional parameter of the
    shell itself (`$0`, `$1`, ...), which that script never refers to. */
module Spawn {
  import opened Wrappers
  import opened Text
  import opened Validation
  import opened Arguments

  /** A character the POSIX shell gives a meaning of its own (word splitting, quoting,
      expansion, redirection, control operators, comments and reserved words). */
  predicate IsShellSpecial(c: char) {
    IsSpace(c) || c in "|&;<>()$`\\\"'*?[]#~=%{}!"
  }

  /** A script the shell reads as one word naming one program, with no arguments. */
  predicate PlainWord(w: string) {
    |w| > 0 && forall i :: 0 <= i < |w| ==> !IsShellSpecial(w[i])
  }

  /** As written (POSIX, `shell=True`): the child the shell starts for a script that is a plain
      word is that program alone; the rest of the list stays with the shell. */
  function ShellSpawnArgv(cmd: seq<string>): seq<string>
    requires |cmd| > 0 && PlainWord(cmd[0])
  {
    [cmd[0]]
  }

  /** Corrected (no shell): the child's argument vector is the list itself. */
  function DirectSpawnArgv(cmd: seq<string>): seq<string> {
    cmd
  }

  /** The discrepancy: for every form and a plain interpreter path, the child started
      through the shell receives neither `-m webtoon_downloader` nor the URL nor any option,
      so the interpreter starts without the downloader. */
  lemma ShellSpawnDropsArguments(python: string, f: Form)
    requires PlainWord(python)
    ensures var cmd := Command(python, Serialize(f));
      && ShellSpawnArgv(cmd) == [python]
      && |cmd| >= 8
      && ShellSpawnArgv(cmd) != cmd
  {
  }

  /** The intended behaviour: spawned without a shell, the child runs the downloader's module
      and its arguments read back as the URL followed by exactly the options the form chose. */
  lemma DirectSpawnDeliversArguments(python: string, f: Form)
    ensures var argv := DirectSpawnArgv(Command(python, Serialize(f)));
      && argv[..3] == [python, "-m", "webtoon_downloader"]
      && Read(argv[3..]) == Some(Invocation(f.url, IntendedOptions(f)))
  {
    ReadSerialized(f);
  }
}
