/**
 * The class `SshConfig` of src/remote/sshConfig.ts: the text of the config file, and the
 * update that builds a deployment's block and puts it in place. Reading and saving the file
 * are not part of this model.
 */
module SshConfigs {
  import opened Basics
  import opened Text
  import opened Substrings
  import opened SshMerge
  import opened SshBlocks

  /** `Host` and the other values, in the order the caller gives them. */
  datatype SshValues = SshValues(host: string, others: Record)

  // Each is written in two halves, since the solver does not look inside longer literals.
  const NOTICE := "# This section is managed" + " by the Coder VS Code extension."
  const WARNING := "# Changes will be overwritten" + " on the next workspace connection."

  predicate KeyLe(a: Entry, b: Entry) {
    LexLe(a.key, b.key)
  }

  /** The entries by key, in code-unit order. */
  function Sorted(r: Record): Record {
    SortBy(KeyLe, r)
  }

  function OptionLines(r: Record): seq<string> {
    if r == [] then []
    else (if r[0].value == "" then [] else ["  " + r[0].key + " " + r[0].value]) + OptionLines(r[1..])
  }

  function BodyLines(values: SshValues, overrides: Record): seq<string> {
    [NOTICE, WARNING, "Host " + values.host] + OptionLines(Sorted(Merge(values.others, overrides)))
  }

  function BuildBlock(h: string, values: SshValues, overrides: Record): string {
    Join([Start(h)] + BodyLines(values, overrides) + [End(h)], "\n")
  }

  function Body(values: SshValues, overrides: Record): string {
    "\n" + Join(BodyLines(values, overrides), "\n") + "\n"
  }

  /** What is built is a block in the sense of the update theorems. */
  lemma BuildBlockIsBlock(h: string, values: SshValues, overrides: Record)
    ensures BuildBlock(h, values, overrides) == Block(Start(h), Body(values, overrides), End(h))
  {
    JoinThree(Start(h), BodyLines(values, overrides), End(h));
  }

  lemma JoinThree(first: string, middle: seq<string>, last: string)
    requires middle != []
    ensures Join([first] + middle + [last], "\n") == Block(first, "\n" + Join(middle, "\n") + "\n", last)
  {
    JoinAppend([first] + middle, [last], "\n");
    JoinAppend([first], middle, "\n");
    var m := Join(middle, "\n");
    assert first + "\n" + m + "\n" + last == first + ("\n" + m + "\n") + last;
  }

  datatype UpdateError = NotLoaded | Bad(format: BadFormat)

  class SshConfig {
    var raw: Option<string>

    constructor ()
      ensures raw == None
    {
      raw := None;
    }

    /** `content` is the file's text, or `None` when it cannot be read. */
    method Load(content: Option<string>)
      modifies this
      ensures raw == Some(if content.Some? then content.value else "")
    {
      raw := Some(if content.Some? then content.value else "");
    }

    method FindBlock(safeHostname: string) returns (found: Result<Option<string>, UpdateError>)
      ensures raw.None? ==> found == Err(NotLoaded)
      ensures raw.Some? ==> found == match GetBlock(raw.value, safeHostname) {
                                       case Ok(block) => Ok(block)
                                       case Err(e) => Err(Bad(e))
                                     }
    {
      if raw.None? { return Err(NotLoaded); }
      var text := raw.value;
      var startBlock, endBlock := Start(safeHostname), End(safeHostname);
      var startBlockCount := CountSubstring(startBlock, text);
      var endBlockCount := CountSubstring(endBlock, text);
      if startBlockCount != endBlockCount { return Err(Bad(Unterminated)); }
      if startBlockCount > 1 || endBlockCount > 1 { return Err(Bad(Repeated(startBlockCount))); }
      var startBlockIndex := IndexOf(text, startBlock, 0);
      var endBlockIndex := IndexOf(text, endBlock, 0);
      var hasBlock := startBlockIndex > -1 && endBlockIndex > -1;
      if !hasBlock { return Ok(None); }
      if endBlockIndex < startBlockIndex { return Err(Bad(EndBeforeStart)); }
      return Ok(Some(text[startBlockIndex..endBlockIndex + |endBlock|]));
    }

    method ReplaceBlock(oldBlock: string, newBlock: string)
      requires raw.Some? && oldBlock != ""
      modifies this
      ensures raw == Some(Replace(old(raw).value, oldBlock, newBlock))
    {
      raw := Some(Replace(raw.value, oldBlock, newBlock));
    }

    method AppendBlock(block: string)
      requires raw.Some?
      modifies this
      ensures raw == Some(Append(old(raw).value, block))
    {
      if raw.value == "" {
        raw := Some(block);
      } else {
        raw := Some(TrimEnd(raw.value) + "\n\n" + block);
      }
    }

    /** A failed update leaves the text as it was. */
    method Update(safeHostname: string, values: SshValues, overrides: Record) returns (error: Option<UpdateError>)
      modifies this
      ensures old(raw).None? ==> error == Some(NotLoaded) && raw == old(raw)
      ensures old(raw).Some? ==> match SshBlocks.Update(old(raw).value, safeHostname, BuildBlock(safeHostname, values, overrides)) {
                                   case Ok(text) => error == None && raw == Some(text)
                                   case Err(e) => error == Some(Bad(e)) && raw == old(raw)
                                 }
    {
      var found := FindBlock(safeHostname);
      if found.Err? { return Some(found.error); }
      var newBlock := NewBlock(safeHostname, values, overrides);
      if found.value.Some? {
        ReplaceBlock(found.value.value, newBlock);
      } else {
        AppendBlock(newBlock);
      }
      error := None;
    }

    /** `buildBlock`: the lines pushed one by one. */
    method NewBlock(safeHostname: string, values: SshValues, overrides: Record) returns (block: string)
      ensures block == BuildBlock(safeHostname, values, overrides)
    {
      var lines := [Start(safeHostname), NOTICE, WARNING, "Host " + values.host];
      var configValues := MergeSshConfigValues(values.others, overrides);
      var entries := Sorted(configValues);
      ghost var head := lines;
      for i := 0 to |entries|
        invariant lines == head + OptionLines(entries[..i])
      {
        OptionLinesSnoc(entries[..i], entries[i]);
        assert entries[..i + 1] == entries[..i] + [entries[i]];
        if entries[i].value != "" {
          lines := lines + ["  " + entries[i].key + " " + entries[i].value];
        }
      }
      assert entries[..|entries|] == entries;
      lines := lines + [End(safeHostname)];
      assert lines == [Start(safeHostname)] + BodyLines(values, overrides) + [End(safeHostname)];
      block := Join(lines, "\n");
    }
  }

  lemma {:induction false} OptionLinesSnoc(r: Record, e: Entry)
    ensures OptionLines(r + [e]) == OptionLines(r) + if e.value == "" then [] else ["  " + e.key + " " + e.value]
  {
    if r == [] {
      assert r + [e] == [e];
    } else {
      assert (r + [e])[1..] == r[1..] + [e] && (r + [e])[0] == r[0];
      OptionLinesSnoc(r[1..], e);
      ConcatAssoc(if r[0].value == "" then [] else ["  " + r[0].key + " " + r[0].value], OptionLines(r[1..]),
                  if e.value == "" then [] else ["  " + e.key + " " + e.value]);
    }
  }
}
