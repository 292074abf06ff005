/**
 The four commands that change a project document's metadata (`project add-github-repo`, `remove-github-repo`,
 `enable-github` and `disable-github` in `cli/project.py`), as the mutators of `CasLoop`: what each makes of the
 document, that each lands as sent and settles, and what any run of them leaves behind.
 */
module MetadataCommands {
  import opened Options
  import opened CasLoop

  const GITHUB_REPOS := "github_repos"
  const GITHUB_WATCH := "github_watch_enabled"

  // What `validate_github_repo` lets through is never empty.
  type Repo = s: string | s != "" witness "owner/name"

  datatype Command = AddRepo(repo: Repo) | RemoveRepo(repo: Repo) | Enable | Disable

  // ---- Lists of strings ------------------------------------------------------------------------------

  function Get(meta: Meta, key: string): Option<Value> { if key in meta then Some(meta[key]) else None }

  // A bare string is a list of one; anything but a list is an empty one.
  function Entries(value: Option<Value>): seq<Value> {
    if value.None? then []
    else
      match value.value
      case Text(_) => [value.value]
      case Items(items) => items
      case _ => []
  }

  // The non-empty strings among the items, each where it comes first.
  function Strings(items: seq<Value>): seq<string> {
    if items == [] then []
    else
      var before, last := Strings(items[..|items| - 1]), items[|items| - 1];
      if last.Text? && last.text != "" && last.text !in before then before + [last.text] else before
  }

  predicate Distinct(names: seq<string>) { forall i, j :: 0 <= i < j < |names| ==> names[i] != names[j] }

  predicate Named(names: seq<string>) { Distinct(names) && "" !in names }

  function Texts(names: seq<string>): seq<Value> { seq(|names|, i requires 0 <= i < |names| => Text(names[i])) }

  /** The list holds every non-empty string among the items once, and nothing else. */
  lemma {:induction false} StringsAreListedOnce(items: seq<Value>)
    ensures Named(Strings(items))
    ensures forall name :: name in Strings(items) <==> name != "" && Text(name) in items
  {
    if items != [] {
      var init, last := items[..|items| - 1], items[|items| - 1];
      StringsAreListedOnce(init);
      assert items == init + [last];
    }
  }

  /** What comes last counts only if it is a non-empty string that was not there: the first of its kind keeps its
      place. */
  lemma LaterOnesChangeNothing(items: seq<Value>, last: Value)
    ensures Strings(items + [last]) ==
            if last.Text? && last.text != "" && last !in items then Strings(items) + [last.text] else Strings(items)
  {
    StringsAreListedOnce(items);
    assert (items + [last])[..|items|] == items;
  }

  /** A stored list of distinct names reads back as it is. */
  lemma {:induction false} NamesReadBack(names: seq<string>)
    requires Named(names)
    ensures Strings(Texts(names)) == names
  {
    if names != [] {
      var init, last := names[..|names| - 1], names[|names| - 1];
      NamesReadBack(init);
      assert Texts(names)[..|names| - 1] == Texts(init);
      assert last !in init;
      assert names == init + [last];
    }
  }

  /** `_str_list`. */
  method StrList(value: Option<Value>) returns (result: seq<string>)
    ensures result == Strings(Entries(value))
  {
    var items := Entries(value);
    var seen: set<string> := {};
    result := [];
    for i := 0 to |items|
      invariant result == Strings(items[..i]) && forall name :: name in seen <==> name in result
    {
      assert items[..i + 1][..i] == items[..i];
      var item := items[i];
      if !item.Text? || item.text == "" || item.text in seen { continue; }
      result := result + [item.text];
      seen := seen + {item.text};
    }
    assert items[..|items|] == items;
  }

  // ---- The commands ----------------------------------------------------------------------------------

  function Repos(meta: Meta): (repos: seq<string>)
    ensures Named(repos)
  {
    StringsAreListedOnce(Entries(Get(meta, GITHUB_REPOS)));
    Strings(Entries(Get(meta, GITHUB_REPOS)))
  }

  // Only a real `True` counts.
  predicate Watching(meta: Meta) { Get(meta, GITHUB_WATCH) == Some(Flag(true)) }

  /** What is stored reads so: a list as its names, a bare string as a list of one, anything else as no repository; and
      only a real `True` as watching. */
  lemma StoredValuesRead(meta: Meta, value: Value)
    ensures var stored := meta[GITHUB_REPOS := value];
            Repos(stored) ==
            match value
            case Items(items) => Strings(items)
            case Text(name) => (if name == "" then [] else [name])
            case _ => []
    ensures GITHUB_REPOS !in meta ==> Repos(meta) == []
    ensures Watching(meta[GITHUB_WATCH := value]) <==> value == Flag(true)
    ensures GITHUB_WATCH !in meta ==> !Watching(meta)
  {
    if value.Text? {
      assert Strings([value]) == Strings([] + [value]);
      LaterOnesChangeNothing([], value);
    }
  }

  function Without(names: seq<string>, name: string): (rest: seq<string>)
    ensures forall n :: n in rest <==> n in names && n != name
    ensures Named(names) ==> Named(rest)
  {
    if names == [] then []
    else
      var rest, last := Without(names[..|names| - 1], name), names[|names| - 1];
      assert names == names[..|names| - 1] + [last];
      assert Distinct(names) ==> last !in names[..|names| - 1];
      if last == name then rest else rest + [last]
  }

  // The mutator of each command.
  function Apply(command: Command, meta: Meta): Answer {
    match command
    case AddRepo(repo) =>
      if repo in Repos(meta) then Wanted(meta)
      else Wanted(meta[GITHUB_REPOS := Items(Texts(Repos(meta) + [repo]))])
    case RemoveRepo(repo) =>
      if repo !in Repos(meta) then Wanted(meta)
      else Wanted(meta[GITHUB_REPOS := Items(Texts(Without(Repos(meta), repo)))])
    case Enable =>
      if Repos(meta) == [] then Raised
      else if Watching(meta) then Wanted(meta)
      else Wanted(meta[GITHUB_WATCH := Flag(true)])
    case Disable =>
      if !Watching(meta) then Wanted(meta)
      else Wanted(meta[GITHUB_WATCH := Flag(false)])
  }

  // Each writer runs one command.
  function Running(commands: nat -> Command): Mutators { (writer: nat, meta: Meta) => Apply(commands(writer), meta) }

  lemma KeysDiffer()
    ensures GITHUB_REPOS != GITHUB_WATCH
  {
    assert |GITHUB_REPOS| != |GITHUB_WATCH|;
  }

  lemma RepoListReadsBack(meta: Meta, names: seq<string>)
    requires Named(names)
    ensures Repos(meta[GITHUB_REPOS := Items(Texts(names))]) == names
    ensures Watching(meta[GITHUB_REPOS := Items(Texts(names))]) == Watching(meta)
  {
    KeysDiffer();
    NamesReadBack(names);
  }

  lemma FlagReadsBack(meta: Meta, on: bool)
    ensures Watching(meta[GITHUB_WATCH := Flag(on)]) == on
    ensures Repos(meta[GITHUB_WATCH := Flag(on)]) == Repos(meta)
  {
    KeysDiffer();
  }

  // The repositories and the switch behind a command.
  function ReposAfter(command: Command, repos: seq<string>): seq<string> {
    match command
    case AddRepo(repo) => if repo in repos then repos else repos + [repo]
    case RemoveRepo(repo) => Without(repos, repo)
    case _ => repos
  }

  lemma {:induction false} WithoutAbsent(names: seq<string>, name: string)
    requires name !in names
    ensures Without(names, name) == names
  {
    if names != [] { WithoutAbsent(names[..|names| - 1], name); }
  }

  /** What a command wants, as the watcher reads it; only enabling a project with no repository raises. */
  lemma WhatACommandWants(command: Command, meta: Meta)
    ensures Apply(command, meta).Raised? <==> command.Enable? && Repos(meta) == []
    ensures var wanted := Apply(command, meta);
            wanted.Wanted? ==>
              && Repos(wanted.meta) == ReposAfter(command, Repos(meta))
              && (Watching(wanted.meta) <==> command.Enable? || (Watching(meta) && !command.Disable?))
              && meta.Keys <= wanted.meta.Keys
  {
    match command
    case AddRepo(repo) => if repo !in Repos(meta) { RepoListReadsBack(meta, Repos(meta) + [repo]); }
    case RemoveRepo(repo) =>
      if repo in Repos(meta) {
        RepoListReadsBack(meta, Without(Repos(meta), repo));
      } else {
        WithoutAbsent(Repos(meta), repo);
      }
    case Enable => FlagReadsBack(meta, true);
    case Disable => FlagReadsBack(meta, false);
  }

  // ---- Landing and settling ---------------------------------------------------------------------------

  predicate NoneFree(meta: Meta) { forall k :: k in meta ==> meta[k] != Null }

  /** On a document without None, what a command wants says all, so it lands as sent; and no None appears. */
  lemma CommandsSayAll(command: Command, meta: Meta)
    requires NoneFree(meta) && Apply(command, meta).Wanted?
    ensures SaysAll(meta, Apply(command, meta).meta) && NoneFree(Apply(command, meta).meta)
  {
    WhatACommandWants(command, meta);
  }

  // A merge of a patch that keeps every key reads as the patch does, None or not.
  lemma MergeReadsAsSent(meta: Meta, patch: Meta)
    requires meta.Keys <= patch.Keys
    ensures var landed := Merge(meta, patch); Repos(landed) == Repos(patch) && Watching(landed) == Watching(patch)
  {
    var landed := Merge(meta, patch);
    assert forall k :: k in patch && patch[k] != Null ==> k in landed && landed[k] == patch[k];
    assert forall k :: k in landed ==> k in patch && landed[k] == patch[k];
  }

  /** Every command settles: on the document it left it has nothing more to do. */
  lemma CommandsSettle(commands: nat -> Command, writer: nat)
    ensures Settles(Running(commands), writer)
  {
    forall meta: Meta ensures SettlesAt(Running(commands), writer, meta) {
      CommandSettlesAt(commands, writer, meta);
    }
  }

  lemma CommandSettlesAt(commands: nat -> Command, writer: nat, meta: Meta)
    ensures SettlesAt(Running(commands), writer, meta)
  {
    var command := commands(writer);
    var patch := Desired(Running(commands), writer, meta);
    WhatACommandWants(command, meta);
    assert Repos(meta) == Repos(patch) || command.AddRepo? || command.RemoveRepo?;
    MergeReadsAsSent(meta, patch);
  }

  // ---- Any run of them ---------------------------------------------------------------------------------

  function Base(log: Log): Meta { if log.Initial? then log.meta else Base(log.prev) }

  /** Whatever the commands and however their runs interleave, a document that starts without None is the composition
      of the committed commands in commit order. */
  lemma {:induction false} CommandsCompose(commands: nat -> Command, log: Log)
    requires Lawful(Running(commands), log) && NoneFree(Base(log))
    ensures AllSayAll(Running(commands), log) && NoneFree(log.meta)
    ensures log.meta == Composed(Running(commands), log)
  {
    if log.Committed? {
      CommandsCompose(commands, log.prev);
      CommandsSayAll(commands(log.writer), log.prev.meta);
      MergeReplacesExactly(log.prev.meta, Desired(Running(commands), log.writer, log.prev.meta));
    }
    DocumentIsTheComposition(Running(commands), log);
  }

  // Whether a repository is mapped, by the last command about it.
  function LastWord(commands: nat -> Command, log: Log, repo: Repo): bool {
    if log.Initial? then repo in Repos(log.meta)
    else
      match commands(log.writer)
      case AddRepo(r) => r == repo || LastWord(commands, log.prev, repo)
      case RemoveRepo(r) => r != repo && LastWord(commands, log.prev, repo)
      case _ => LastWord(commands, log.prev, repo)
  }

  // Whether watching is on, by the last command about it.
  function LastSwitch(commands: nat -> Command, log: Log): bool {
    if log.Initial? then Watching(log.meta)
    else
      match commands(log.writer)
      case Enable => true
      case Disable => false
      case _ => LastSwitch(commands, log.prev)
  }

  /** No update is lost: over any run, None in the document or not, the last committed command about a repository
      decides whether it is mapped, and the last one about the watcher whether it is on. */
  lemma {:induction false} LastCommandDecides(commands: nat -> Command, log: Log)
    requires Lawful(Running(commands), log)
    ensures forall repo: Repo :: repo in Repos(log.meta) <==> LastWord(commands, log, repo)
    ensures Watching(log.meta) == LastSwitch(commands, log)
  {
    if log.Committed? {
      LastCommandDecides(commands, log.prev);
      WhatACommandWants(commands(log.writer), log.prev.meta);
      MergeReadsAsSent(log.prev.meta, Desired(Running(commands), log.writer, log.prev.meta));
    }
  }

  /** A command's whole run: what it changed is on the document in its turn; one that gives up was beaten at least
      twice by another command, and wrote nothing of its own unless a write was sent again. */
  method RunCommand(document: Document, commands: nat -> Command, me: nat)
    returns (outcome: Outcome, ghost tries: Tries, ghost seen: Log)
    requires document.Valid(Running(commands)) && NoneFree(Base(document.log))
    modifies document
    ensures document.Valid(Running(commands)) && Extends(document.log, old(document.log))
    ensures document.meta == Composed(Running(commands), document.log)
    ensures outcome == Unchanged ==> Apply(commands(me), document.meta) == Wanted(document.meta)
    ensures outcome == Declined ==> commands(me).Enable? && Repos(document.meta) == []
    ensures outcome == Changed ==> CommitsBy(document.log, me) > CommitsBy(old(document.log), me)
    ensures outcome == Exhausted ==>
              && CommitsByOthers(document.log, me) >= CommitsByOthers(old(document.log), me) + 2
              && CommitsBy(document.log, me) <= CommitsBy(old(document.log), me) + Resent(tries)
              && TryCount(tries) == MAX_CAS_ATTEMPTS
    ensures outcome == Failed ==> document.faults > old(document.faults)
  {
    CommandsSettle(commands, me);
    outcome, tries, seen := document.MutateWithCas(Running(commands), me);
    BaseStays(document.log, old(document.log));
    CommandsCompose(commands, document.log);
    WhatACommandWants(commands(me), document.meta);
    EachAttemptWasBeaten(Running(commands), me, old(document.log), tries);
    if outcome == Changed {
      ghost var before := TriesEnd(old(document.log), tries);
      ExtendsTransitive(seen, before, old(document.log));
      CommitsGrow(seen, old(document.log), me);
    }
  }

  lemma {:induction false} BaseStays(log: Log, base: Log)
    requires Extends(log, base)
    ensures Base(log) == Base(base)
  {
    if log != base { BaseStays(log.prev, base); }
  }

  // ---- Two commands against each other -------------------------------------------------------------------

  // The first writer adds a repository, every other removes it.
  function AddAgainstRemove(repo: Repo): nat -> Command {
    (writer: nat) => if writer == 0 then AddRepo(repo) else RemoveRepo(repo)
  }

  // A document that maps these repositories and holds nothing else.
  function Mapping(names: seq<string>): Meta { map[GITHUB_REPOS := Items(Texts(names))] }

  lemma MappingReadsBack(names: seq<string>)
    requires Named(names)
    ensures Repos(Mapping(names)) == names && NoneFree(Mapping(names))
  {
    assert GITHUB_REPOS in Mapping(names);
    NamesReadBack(names);
  }

  lemma AddsTo(repo: Repo)
    ensures Apply(AddRepo(repo), Mapping([])) == Wanted(Mapping([repo]))
    ensures Apply(RemoveRepo(repo), Mapping([repo])) == Wanted(Mapping([]))
    ensures Apply(RemoveRepo(repo), Mapping([])) == Wanted(Mapping([]))
    ensures Mapping([]) != Mapping([repo]) && repo in Repos(Mapping([repo]))
  {
    MappingReadsBack([]);
    MappingReadsBack([repo]);
    assert [] + [repo] == [repo] && Without([repo], repo) == [];
    assert Mapping([])[GITHUB_REPOS := Items(Texts([repo]))] == Mapping([repo]);
    assert Mapping([repo])[GITHUB_REPOS := Items(Texts([]))] == Mapping([]);
  }

  lemma MappingLands(before: seq<string>, after: seq<string>)
    ensures Merge(Mapping(before), Mapping(after)) == Mapping(after)
  {
    assert GITHUB_REPOS in Mapping(after);
    MergeReplacesExactly(Mapping(before), Mapping(after));
  }

  lemma AddAndRemoveAreRivals(repo: Repo)
    ensures Rivals(Running(AddAgainstRemove(repo)), 0, 1, Mapping([]))
    ensures Merge(Mapping([]), Desired(Running(AddAgainstRemove(repo)), 0, Mapping([]))) == Mapping([repo])
  {
    AddsTo(repo);
    MappingLands([], [repo]);
    MappingLands([repo], []);
    MappingLands([], []);
  }

  /** An `add-github-repo` that gives up wrote nothing, in all runs with these numbers of sends, exactly if it sent
      each write once. */
  lemma AddWroteNothingExactly(repo: Repo, counts: seq<nat>)
    requires SendCounts(counts)
    ensures (forall start, tries :: GaveUp(Running(AddAgainstRemove(repo)), 0, start, tries, counts) ==>
                                      CommitsBy(TriesEnd(start, tries), 0) == CommitsBy(start, 0))
            <==> OnceEach(counts)
  {
    AddAndRemoveAreRivals(repo);
    WroteNothingExactly(Running(AddAgainstRemove(repo)), 0, 1, Mapping([]), counts);
  }

  /** Adding a repository while another keeps removing it: given up after three attempts, written three times, against
      the two commits of the other that `OthersBeatASettlingWriter` asks for at least. */
  lemma GivenUpAndWrittenThrice(repo: Repo) returns (start: Log, tries: Tries)
    ensures GaveUp(Running(AddAgainstRemove(repo)), 0, start, tries, [2, 2, 2])
    ensures var end := TriesEnd(start, tries);
            && CommitsBy(end, 0) == CommitsBy(start, 0) + 3 && CommitsByOthers(end, 0) == CommitsByOthers(start, 0) + 2
            && repo in Repos(end.meta)
  {
    AddAndRemoveAreRivals(repo);
    AddsTo(repo);
    start := Initial(Mapping([]));
    tries := WrittenThrice(Running(AddAgainstRemove(repo)), 0, 1, Mapping([]));
  }
}
