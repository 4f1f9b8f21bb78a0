/**
 * Properties of the global alias cog: what `get_prefix` and `first_word`
 * return, the shape of a rewritten message, the sorted listing, and the
 * lower-case key discipline that `add` and `del` keep and `rename` breaks.
 */
module GlobalAliasProofs {
  import opened Wrappers
  import opened Text
  import opened GlobalAlias

  /**
   * The scan from index `i` finds a prefix exactly when one of the
   * remaining prefixes matches, and then it is the first matching one.
   */
  lemma {:induction false} FirstPrefixFromSpec(prefixes: seq<string>, i: nat, content: string)
    requires i <= |prefixes|
    ensures FirstPrefixFrom(prefixes, i, content).None? <==>
              forall k :: i <= k < |prefixes| ==> !StartsWith(content, prefixes[k])
    ensures FirstPrefixFrom(prefixes, i, content).Some? ==>
              exists j :: i <= j < |prefixes| && prefixes[j] == FirstPrefixFrom(prefixes, i, content).value &&
                StartsWith(content, prefixes[j]) &&
                forall k :: i <= k < j ==> !StartsWith(content, prefixes[k])
    decreases |prefixes| - i
  {
    if i < |prefixes| && !StartsWith(content, prefixes[i]) {
      FirstPrefixFromSpec(prefixes, i + 1, content);
    }
  }

  /** `get_prefix` returns the first prefix in list order that the content starts with, or `None`. */
  lemma FirstPrefixSpec(prefixes: seq<string>, content: string)
    ensures FirstPrefix(prefixes, content).None? <==>
              forall k :: 0 <= k < |prefixes| ==> !StartsWith(content, prefixes[k])
    ensures FirstPrefix(prefixes, content).Some? ==>
              exists j :: 0 <= j < |prefixes| && prefixes[j] == FirstPrefix(prefixes, content).value &&
                StartsWith(content, prefixes[j]) &&
                forall k :: 0 <= k < j ==> !StartsWith(content, prefixes[k])
  {
    FirstPrefixFromSpec(prefixes, 0, content);
  }

  /**
   * `msg.split(" ")[0]`: the first word is a space-free start of the
   * message, followed by a space or by the end of the message.
   */
  lemma {:induction false} FirstWordSpec(msg: string)
    ensures |FirstWord(msg)| <= |msg| && msg[..|FirstWord(msg)|] == FirstWord(msg)
    ensures ' ' !in FirstWord(msg)
    ensures |FirstWord(msg)| == |msg| || msg[|FirstWord(msg)|] == ' '
  {
    if msg != [] && msg[0] != ' ' {
      FirstWordSpec(msg[1..]);
    }
  }

  /** No other word fits that description: the first word is unique. */
  lemma {:induction false} FirstWordUnique(msg: string, w: string)
    requires |w| <= |msg| && msg[..|w|] == w && ' ' !in w
    requires |w| == |msg| || msg[|w|] == ' '
    ensures FirstWord(msg) == w
  {
    if w != [] {
      assert msg[0] == w[0];
      assert msg[1..][..|w| - 1] == w[1..];
      FirstWordUnique(msg[1..], w[1..]);
    }
  }

  /** The stored command text is what follows the matched prefix. */
  lemma StripPrefixSpec(prefixes: seq<string>, text: string)
    ensures FirstPrefix(prefixes, text).None? ==> StripPrefix(prefixes, text) == text
    ensures FirstPrefix(prefixes, text).Some? ==>
              text == FirstPrefix(prefixes, text).value + StripPrefix(prefixes, text)
  {
    FirstPrefixSpec(prefixes, text);
  }

  /**
   * The rewrite, read off the message: after the first matching prefix
   * come the first word and the arguments; the message is rewritten
   * exactly when the lower-cased word is a global alias that is neither a
   * command nor a local alias, and then the word is replaced by the
   * alias's text and the arguments are kept as they were.
   */
  lemma RewriteShape(allowed: bool, content: string, prefixes: seq<string>, aliases: map<string, string>,
                     commands: set<string>, local: set<string>, prefix: string)
    requires allowed && FirstPrefix(prefixes, content) == Some(prefix) && prefix != []
    ensures |prefix| <= |content|
    ensures |prefix| + |FirstWord(content[|prefix|..])| <= |content|
    ensures content == prefix + FirstWord(content[|prefix|..]) + content[|prefix| + |FirstWord(content[|prefix|..])|..]
    ensures Rewrite(allowed, content, prefixes, aliases, commands, local).Some? <==>
              Lower(FirstWord(content[|prefix|..])) in aliases &&
              Lower(FirstWord(content[|prefix|..])) !in commands &&
              Lower(FirstWord(content[|prefix|..])) !in local
    ensures Rewrite(allowed, content, prefixes, aliases, commands, local).Some? ==>
              Rewrite(allowed, content, prefixes, aliases, commands, local).value ==
                prefix + aliases[Lower(FirstWord(content[|prefix|..]))] +
                content[|prefix| + |FirstWord(content[|prefix|..])|..]
  {
    FirstPrefixSpec(prefixes, content);
    var rest := content[|prefix|..];
    FirstWordSpec(rest);
    var w := FirstWord(rest);
    assert content == prefix + rest;
    assert rest == w + rest[|w|..];
    assert rest[|w|..] == content[|prefix| + |w|..];
  }

  /** Without an allowed author or a non-empty matching prefix, nothing is rewritten. */
  lemma RewriteNeedsPrefix(allowed: bool, content: string, prefixes: seq<string>, aliases: map<string, string>,
                           commands: set<string>, local: set<string>)
    requires !allowed || FirstPrefix(prefixes, content) in {None, Some([])}
    ensures Rewrite(allowed, content, prefixes, aliases, commands, local) == None
  {
  }

  /** Only lower-case names are ever looked up: a key with an upper-case letter is never used. */
  lemma UpperKeyUnused(allowed: bool, content: string, prefixes: seq<string>, aliases: map<string, string>,
                       commands: set<string>, local: set<string>, key: string)
    requires !NoUpper(key)
    ensures Rewrite(allowed, content, prefixes, aliases, commands, local) ==
              Rewrite(allowed, content, prefixes, aliases - {key}, commands, local)
  {
    if allowed && FirstPrefix(prefixes, content).Some? {
      var prefix := FirstPrefix(prefixes, content).value;
      LowerIdempotent(FirstWord(Drop(content, |prefix|)));
    }
  }

  /**
   * `sorted(names)`: every name once, in strictly increasing order.
   */
  lemma {:induction false} SortedNamesSpec(s: set<string>)
    ensures |SortedNames(s)| == |s|
    ensures forall x :: x in SortedNames(s) <==> x in s
    ensures forall i, j :: 0 <= i < j < |SortedNames(s)| ==> LexLess(SortedNames(s)[i], SortedNames(s)[j])
    decreases |s|
  {
    if s != {} {
      LeastExists(s);
      var m :| IsLeast(m, s);
      SortedNamesCons(s, m);
      SortedNamesSpec(s - {m});
      var r := SortedNames(s);
      assert r[1..] == SortedNames(s - {m});
      forall i, j | 0 <= i < j < |r|
        ensures LexLess(r[i], r[j])
      {
        if i == 0 {
          assert r[j] in s - {m};
        } else {
          assert r[i] == r[1..][i - 1] && r[j] == r[1..][j - 1];
        }
      }
    }
  }

  /** The listing holds one line per name: it ends every name with a newline. */
  lemma {:induction false} LinesCount(names: seq<string>)
    requires forall k :: 0 <= k < |names| ==> '\n' !in names[k]
    ensures Count(Lines(names), '\n') == |names|
    decreases |names|
  {
    if names != [] {
      LinesCount(names[1..]);
      CountAppend(names[0] + "\n", Lines(names[1..]), '\n');
      CountAppend(names[0], "\n", '\n');
      CountAbsent(names[0], '\n');
    }
  }

  lemma {:induction false} CountAppend(a: string, b: string, c: char)
    ensures Count(a + b, c) == Count(a, c) + Count(b, c)
    decreases |a|
  {
    if a == [] {
      assert a + b == b;
    } else {
      assert (a + b)[0] == a[0];
      assert (a + b)[1..] == a[1..] + b;
      CountAppend(a[1..], b, c);
    }
  }

  /** `add` stores a lower-cased name, so a table of lower-case names stays one. */
  lemma AddKeepsLowerKeys(aliases: map<string, string>, command: string, text: string)
    requires LowerKeys(aliases)
    ensures LowerKeys(aliases[Lower(command) := text])
  {
    LowerIdempotent(command);
  }

  /** `edit` only overwrites an existing name, so the names do not change. */
  lemma EditKeepsKeys(aliases: map<string, string>, command: string, text: string)
    requires command in aliases
    ensures aliases[command := text].Keys == aliases.Keys
    ensures LowerKeys(aliases) ==> LowerKeys(aliases[command := text])
  {
  }

  /** `del` only removes a name. */
  lemma DelKeepsLowerKeys(aliases: map<string, string>, name: string)
    requires LowerKeys(aliases)
    ensures LowerKeys(aliases - {name}) && (aliases - {name}).Keys == aliases.Keys - {name}
  {
  }

  /**
   * `rename` as written stores the new name exactly as typed: renaming to a
   * name with an upper-case letter leaves a key that no message can reach
   * and that `del`, which lower-cases, cannot remove.
   */
  lemma RenameUnreachable(aliases: map<string, string>, oldName: string, newName: string,
                          allowed: bool, content: string, prefixes: seq<string>,
                          commands: set<string>, local: set<string>)
    requires oldName in aliases && !NoUpper(newName)
    ensures newName in RenameAsWritten(aliases, oldName, newName)
    ensures !LowerKeys(RenameAsWritten(aliases, oldName, newName))
    ensures Lower(newName) != newName
    ensures Rewrite(allowed, content, prefixes, RenameAsWritten(aliases, oldName, newName), commands, local) ==
              Rewrite(allowed, content, prefixes, RenameAsWritten(aliases, oldName, newName) - {newName}, commands, local)
  {
    LowerIdempotent(newName);
    UpperKeyUnused(allowed, content, prefixes, RenameAsWritten(aliases, oldName, newName), commands, local, newName);
  }

  /**
   * Renaming with the new name lower-cased, as `add` does, moves the text
   * to a name that messages reach and keeps the table lower-case.
   */
  lemma RenameLoweredSpec(aliases: map<string, string>, oldName: string, newName: string)
    requires oldName in aliases
    ensures Lower(newName) in RenameLowered(aliases, oldName, newName)
    ensures RenameLowered(aliases, oldName, newName)[Lower(newName)] == aliases[oldName]
    ensures Lower(newName) != oldName ==> oldName !in RenameLowered(aliases, oldName, newName)
    ensures forall k :: k in aliases && k != oldName && k != Lower(newName) ==>
              k in RenameLowered(aliases, oldName, newName) && RenameLowered(aliases, oldName, newName)[k] == aliases[k]
    ensures RenameLowered(aliases, oldName, newName).Keys == aliases.Keys - {oldName} + {Lower(newName)}
    ensures LowerKeys(aliases) ==> LowerKeys(RenameLowered(aliases, oldName, newName))
    ensures NoUpper(newName) ==> RenameLowered(aliases, oldName, newName) == RenameAsWritten(aliases, oldName, newName)
  {
    LowerIdempotent(newName);
    if NoUpper(newName) {
      LowerOfLowerCase(newName);
    }
  }

  /**
   * The corrected rename makes the alias reachable: after renaming `foo`
   * (standing for `flip`) to `Bar`, the message `!Bar` becomes `!flip`.
   */
  lemma RenameExample()
    ensures Rewrite(true, "!Bar", ["!"], RenameAsWritten(map["foo" := "flip"], "foo", "Bar"), {}, {}) == None
    ensures Rewrite(true, "!Bar", ["!"], RenameLowered(map["foo" := "flip"], "foo", "Bar"), {}, {}) == Some("!flip")
  {
    assert FirstPrefix(["!"], "!Bar") == Some("!");
    assert FirstWord("Bar") == "Bar";
    assert Lower("Bar") == "bar";
    assert RenameLowered(map["foo" := "flip"], "foo", "Bar") == map["bar" := "flip"];
    assert Drop("!Bar", |"!" + "bar"|) == "";
    assert "!" + "flip" + "" == "!flip";
  }
}
