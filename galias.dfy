/**
 * The global alias cog: a table from alias names to the command text they
 * stand for, the commands that edit it, and the rewrite of an incoming
 * message `<prefix><alias> <args>` into `<prefix><command text> <args>`.
 *
 * The bot's command names, its prefixes and the per-server aliases of the
 * regular alias cog are inputs.
 */
module GlobalAlias {
  import opened Wrappers
  import opened Text

  /** The replies of the alias commands. */
  datatype AliasReply =
    | NoSpaces                           // "Aliases can't contain spaces."
    | RealCommand(name: string)          // "Cannot add/rename to '...', because it's a real bot command."
    | AlreadyExists(name: string)        // "The alias '...' already exists."
    | Added(name: string)                // "Global alias '...' added."
    | Updated(name: string)              // "Global alias '...' updated."
    | NoSuchAlias                        // "That alias doesn't exist."
    | Renamed(from: string, to: string)  // "Global alias '...' renamed to '...'."
    | Missing(name: string)              // "Alias '...' doesn't exist."
    | Deleted(name: string)              // "Global alias '...' deleted."
    | NoAliases                          // "There are no global aliases."
    | Listing(text: string)              // the sorted names, one per line, before paging

  /** The first prefix, in list order from index `i`, that `content` starts with. */
  function FirstPrefixFrom(prefixes: seq<string>, i: nat, content: string): Option<string>
    requires i <= |prefixes|
    decreases |prefixes| - i
  {
    if i == |prefixes| then None
    else if StartsWith(content, prefixes[i]) then Some(prefixes[i])
    else FirstPrefixFrom(prefixes, i + 1, content)
  }

  function FirstPrefix(prefixes: seq<string>, content: string): Option<string> {
    FirstPrefixFrom(prefixes, 0, content)
  }

  /** `get_prefix`: the loop over the bot's prefixes. */
  method GetPrefix(prefixes: seq<string>, content: string) returns (p: Option<string>)
    ensures p == FirstPrefix(prefixes, content)
  {
    var i := 0;
    while i < |prefixes|
      invariant 0 <= i <= |prefixes|
      invariant FirstPrefixFrom(prefixes, i, content) == FirstPrefix(prefixes, content)
    {
      if StartsWith(content, prefixes[i]) {
        return Some(prefixes[i]);
      }
      i := i + 1;
    }
    return None;
  }

  /** Python's slice `s[n:]`, empty when `n` is past the end. */
  function Drop(s: string, n: nat): string {
    if n <= |s| then s[n..] else []
  }

  /** The command text stored by `add` and `edit`: a leading bot prefix is cut off. */
  function StripPrefix(prefixes: seq<string>, text: string): string {
    match FirstPrefix(prefixes, text)
    case Some(p) => Drop(text, |p|)
    case None => text
  }

  /** `first_word`: `msg.split(" ")[0]`, the text up to the first space. */
  function FirstWord(msg: string): string {
    if msg == [] || msg[0] == ' ' then [] else [msg[0]] + FirstWord(msg[1..])
  }

  /**
   * The rewrite of `on_message`: for a message from a user the bot listens
   * to (`allowed`), with a non-empty prefix, the lower-cased
   * first word after it names a global alias that is neither a real command
   * nor a local alias of the server; the message becomes the prefix, the
   * alias's command text and everything after the alias.
   */
  function Rewrite(allowed: bool, content: string, prefixes: seq<string>, aliases: map<string, string>,
                   commands: set<string>, local: set<string>): Option<string>
  {
    if !allowed then None
    else match FirstPrefix(prefixes, content)
    case None => None
    case Some(prefix) =>
      if prefix == [] then None
      else
        var alias := Lower(FirstWord(Drop(content, |prefix|)));
        if alias !in aliases || alias in commands || alias in local then None
        else Some(prefix + aliases[alias] + Drop(content, |prefix + alias|))
  }

  /** The alias names, all lower-case, as `add` and `del` write them. */
  predicate LowerKeys(aliases: map<string, string>) {
    forall name :: name in aliases ==> NoUpper(name)
  }

  /** `rename` as the source writes it: the new name is stored as given. */
  function RenameAsWritten(aliases: map<string, string>, oldName: string, newName: string): map<string, string>
    requires oldName in aliases
  {
    (aliases - {oldName})[newName := aliases[oldName]]
  }

  /** `rename` with the new name lower-cased, as `add` does. */
  function RenameLowered(aliases: map<string, string>, oldName: string, newName: string): map<string, string>
    requires oldName in aliases
  {
    (aliases - {oldName})[Lower(newName) := aliases[oldName]]
  }

  /** `m` comes before every other name of `s` in Python's string order. */
  predicate IsLeast(m: string, s: set<string>) {
    m in s && forall x :: x in s ==> x == m || LexLess(m, x)
  }

  /** A finite set of names has a least one. */
  lemma {:induction false} LeastExists(s: set<string>)
    requires s != {}
    ensures exists m :: IsLeast(m, s)
    decreases |s|
  {
    var x :| x in s;
    var rest := s - {x};
    if rest != {} {
      LeastExists(rest);
      var m :| IsLeast(m, rest);
      if x != m && LexLess(m, x) {
        assert IsLeast(m, s);
      } else {
        LexLessTotal(x, m);
        forall y | y in s
          ensures y == x || LexLess(x, y)
        {
          if y != x && y != m {
            LexLessTransitive(x, m, y);
          }
        }
        assert IsLeast(x, s);
      }
    } else {
      assert s == {x};
      assert IsLeast(x, s);
    }
  }

  lemma LeastUnique(a: string, b: string, s: set<string>)
    requires IsLeast(a, s) && IsLeast(b, s)
    ensures a == b
  {
    if a != b {
      LexLessTransitive(a, b, a);
      LexLessIrreflexive(a);
    }
  }

  /** `sorted(names)`. */
  ghost function SortedNames(s: set<string>): seq<string>
    decreases |s|
  {
    if s == {} then []
    else
      LeastExists(s);
      var m :| IsLeast(m, s);
      [m] + SortedNames(s - {m})
  }

  lemma SortedNamesCons(s: set<string>, m: string)
    requires IsLeast(m, s)
    ensures SortedNames(s) == [m] + SortedNames(s - {m})
  {
    LeastExists(s);
    var first := SortedNames(s)[0];
    assert IsLeast(first, s);
    LeastUnique(first, m, s);
  }

  /** Each name followed by a newline: `alias_list += alias + '\n'`. */
  function Lines(names: seq<string>): string {
    if names == [] then [] else names[0] + "\n" + Lines(names[1..])
  }

  class GlobalAliasCog {
    var aliases: map<string, string>

    constructor(saved: map<string, string>)
      ensures aliases == saved
    {
      aliases := saved;
    }

    /**
     * `galias add`: lower-cases the name; refuses a name with a space, a
     * real command or an existing alias, changing nothing; otherwise stores
     * the command text without its leading prefix.
     */
    method Add(command: string, toExecute: string, prefixes: seq<string>, commands: set<string>)
        returns (reply: AliasReply)
      modifies this
      ensures var name := Lower(command);
        if ' ' in name then reply == NoSpaces && aliases == old(aliases)
        else if name in commands then reply == RealCommand(name) && aliases == old(aliases)
        else if name in old(aliases) then reply == AlreadyExists(name) && aliases == old(aliases)
        else reply == Added(name) && aliases == old(aliases)[name := StripPrefix(prefixes, toExecute)]
    {
      var name := Lower(command);
      if ' ' in name {
        return NoSpaces;
      }
      var prefix := GetPrefix(prefixes, toExecute);
      var text := toExecute;
      if prefix.Some? {
        text := Drop(text, |prefix.value|);
      }
      if name in commands {
        reply := RealCommand(name);
      } else if name in aliases {
        reply := AlreadyExists(name);
      } else {
        aliases := aliases[name := text];
        reply := Added(name);
      }
    }

    /** `galias edit`: replaces the text of an existing alias, under the name exactly as given. */
    method Edit(command: string, toExecute: string, prefixes: seq<string>) returns (reply: AliasReply)
      modifies this
      ensures command in old(aliases) ==>
                reply == Updated(command) && aliases == old(aliases)[command := StripPrefix(prefixes, toExecute)]
      ensures command !in old(aliases) ==> reply == NoSuchAlias && aliases == old(aliases)
    {
      var prefix := GetPrefix(prefixes, toExecute);
      var text := toExecute;
      if prefix.Some? {
        text := Drop(text, |prefix.value|);
      }
      if command in aliases {
        aliases := aliases[command := text];
        reply := Updated(command);
      } else {
        reply := NoSuchAlias;
      }
    }

    /**
     * `galias rename`: refuses a new name with a space, a real command or an
     * existing alias, and a missing old name, changing nothing; otherwise
     * moves the text from the old name to the new one. The new name is
     * lower-cased, as `add` does; the source stores it as typed
     * (`RenameAsWritten`).
     */
    method Rename(oldName: string, newName: string, commands: set<string>) returns (reply: AliasReply)
      modifies this
      ensures var name := Lower(newName);
        if ' ' in name then reply == NoSpaces && aliases == old(aliases)
        else if name in commands then reply == RealCommand(name) && aliases == old(aliases)
        else if name in old(aliases) then reply == AlreadyExists(name) && aliases == old(aliases)
        else if oldName !in old(aliases) then reply == Missing(oldName) && aliases == old(aliases)
        else reply == Renamed(oldName, name) && aliases == RenameLowered(old(aliases), oldName, newName)
    {
      var name := Lower(newName);
      if ' ' in name {
        return NoSpaces;
      }
      if name in commands {
        reply := RealCommand(name);
      } else if name in aliases {
        reply := AlreadyExists(name);
      } else if oldName in aliases {
        var text := aliases[oldName];
        aliases := aliases - {oldName};
        aliases := aliases[name := text];
        reply := Renamed(oldName, name);
      } else {
        reply := Missing(oldName);
      }
    }

    /** `galias del`: lower-cases the name and removes it if present. */
    method Del(command: string) returns (reply: AliasReply)
      modifies this
      ensures Lower(command) in old(aliases) ==>
                reply == Deleted(Lower(command)) && aliases == old(aliases) - {Lower(command)}
      ensures Lower(command) !in old(aliases) ==> reply == NoSuchAlias && aliases == old(aliases)
    {
      var name := Lower(command);
      if name in aliases {
        aliases := aliases - {name};
        reply := Deleted(name);
      } else {
        reply := NoSuchAlias;
      }
    }

    /** `galias list`: the names in sorted order, one per line. */
    method AliasList() returns (reply: AliasReply)
      ensures aliases == map[] ==> reply == NoAliases
      ensures aliases != map[] ==> reply == Listing(Lines(SortedNames(aliases.Keys)))
    {
      if aliases == map[] {
        return NoAliases;
      }
      var listing := "";
      var remaining := aliases.Keys;
      while remaining != {}
        invariant listing + Lines(SortedNames(remaining)) == Lines(SortedNames(aliases.Keys))
        decreases |remaining|
      {
        LeastExists(remaining);
        var m :| IsLeast(m, remaining);
        SortedNamesCons(remaining, m);
        assert Lines(SortedNames(remaining)) == m + "\n" + Lines(SortedNames(remaining - {m}));
        listing := listing + m + "\n";
        remaining := remaining - {m};
      }
      reply := Listing(listing);
    }
  }
}
