/**
 * wireguard_manager.py: the post-processing `WireGuardManager` applies to
 * the results of the commands it runs on the server. A command's result is
 * an input here; the SSH session that produces it is not modelled.
 */
module Manager {
  import opened Wrappers
  import opened Text
  import opened WgStatus
  import opened ClientConfig

  /**
   * What `execute_command` returns: `(None, None)` when there is no
   * connection or the command raised, otherwise its output and error text.
   */
  datatype CommandResult = NoResult | Ran(output: string, error: string)

  /** `if error or not output`: the test every caller applies first. */
  predicate Failed(r: CommandResult) {
    r.NoResult? || r.error != "" || r.output == ""
  }

  /** `get_wg_configs`: the status parser on the output of `wg show`, or `[]` when the command failed. */
  method GetWgConfigs(show: CommandResult) returns (configs: seq<Record>)
    ensures Failed(show) ==> configs == []
    ensures !Failed(show) ==> configs == ParseStatus(Split(show.output, '\n'))
  {
    if show.NoResult? || show.error != "" || show.output == "" {
      return [];
    }
    configs := ParsePeers(show.output);
  }

  /**
   * `get_wg_interface_status`: None when there is error text, and the output
   * as it is otherwise; a command that did not run gives None as its output.
   */
  function InterfaceStatus(show: CommandResult): (status: Option<string>)
    ensures status.Some? <==> show.Ran? && show.error == ""
    ensures status.Some? ==> status.value == show.output
  {
    match show
    case NoResult => None
    case Ran(output, error) => if error != "" then None else Some(output)
  }

  /** `created_time`: the stripped output of `stat` when it has any, else None. */
  function CreatedTime(stat: CommandResult): Option<string> {
    if stat.Ran? && stat.output != "" then Some(Strip(stat.output)) else None
  }

  /** What `parse_config_file` returns for a path, the result of `cat` on it and that of `stat`. */
  function ParsedConfig(path: string, cat: CommandResult, stat: CommandResult): Option<ConfigInfo> {
    if Failed(cat) then None
    else
      var blank := ConfigInfo(Basename(path), path, CreatedTime(stat), None, None, None, None);
      Some(Fill(blank, Fields(Split(cat.output, '\n'))))
  }

  /** `parse_config_file`: the record of a client file read with `cat`. */
  method ParseConfigFile(path: string, cat: CommandResult, stat: CommandResult) returns (info: Option<ConfigInfo>)
    ensures info == ParsedConfig(path, cat, stat)
  {
    if cat.NoResult? || cat.error != "" || cat.output == "" {
      return None;
    }
    var config := ConfigInfo(Basename(path), path, None, None, None, None, None);
    if stat.Ran? && stat.output != "" {
      config := config.(createdTime := Some(Strip(stat.output)));
    }
    config := FillFields(config, Split(cat.output, '\n'));
    return Some(config);
  }

  /**
   * A file that could be read gives a record named after the path's base
   * name, with the creation time from `stat` and, for each of the four
   * content keys, the value of the last line setting it (None when no line
   * does); a file that could not be read gives none.
   */
  lemma ParsedConfigSpec(path: string, cat: CommandResult, stat: CommandResult, slot: Slot)
    ensures ParsedConfig(path, cat, stat).Some? <==> !Failed(cat)
    ensures ParsedConfig(path, cat, stat).Some? ==>
      var info := ParsedConfig(path, cat, stat).value;
      info.filename == Basename(path) && info.path == path && info.createdTime == CreatedTime(stat) &&
      Get(info, slot) == LastSet(Fields(Split(cat.output, '\n')), slot)
  {
    if !Failed(cat) {
      var blank := ConfigInfo(Basename(path), path, CreatedTime(stat), None, None, None, None);
      FillLastWins(blank, Fields(Split(cat.output, '\n')), slot);
    }
  }

  /**
   * The records `get_new_configs` collects from the listed paths, in order,
   * where `parse` gives what `parse_config_file` returns for each path.
   */
  function NewConfigs(paths: seq<string>, parse: string -> Option<ConfigInfo>): seq<ConfigInfo>
    decreases |paths|
  {
    if paths == [] then []
    else
      var p := paths[0];
      var parsed := if p != "" then parse(p) else None;
      (if parsed.Some? then [parsed.value] else []) + NewConfigs(paths[1..], parse)
  }

  /**
   * `get_new_configs`: every non-empty path of the `find` listing whose file
   * parses, in listing order; `[]` when `find` failed. `cat` and `stat` give
   * the result of those commands on each path.
   */
  method GetNewConfigs(find: CommandResult, cat: string -> CommandResult, stat: string -> CommandResult)
    returns (configs: seq<ConfigInfo>)
    ensures Failed(find) ==> configs == []
    ensures !Failed(find) ==>
      configs == NewConfigs(Split(Strip(find.output), '\n'), p => ParsedConfig(p, cat(p), stat(p)))
  {
    if find.NoResult? || find.error != "" || find.output == "" {
      return [];
    }
    configs := CollectConfigs(Split(Strip(find.output), '\n'), cat, stat);
  }

  /** The loop of `get_new_configs` over the listed paths. */
  method CollectConfigs(paths: seq<string>, cat: string -> CommandResult, stat: string -> CommandResult)
    returns (configs: seq<ConfigInfo>)
    ensures configs == NewConfigs(paths, p => ParsedConfig(p, cat(p), stat(p)))
  {
    ghost var parse := p => ParsedConfig(p, cat(p), stat(p));
    configs := [];
    var i := 0;
    while i < |paths|
      invariant 0 <= i <= |paths|
      invariant configs + NewConfigs(paths[i..], parse) == NewConfigs(paths, parse)
    {
      assert paths[i..][1..] == paths[i + 1..];
      var configFile := paths[i];
      if configFile != "" {
        var info := ParseConfigFile(configFile, cat(configFile), stat(configFile));
        assert info == parse(configFile);
        if info.Some? {
          configs := configs + [info.value];
        }
      }
      i := i + 1;
    }
    assert paths[i..] == [];
  }

  /**
   * Exactly the non-empty listed paths that parse give a record, and each
   * record is what one of them parses to.
   */
  lemma {:induction false} NewConfigsAreParsed(paths: seq<string>, parse: string -> Option<ConfigInfo>)
    ensures forall c :: c in NewConfigs(paths, parse) ==>
      exists k :: 0 <= k < |paths| && paths[k] != "" && parse(paths[k]) == Some(c)
    ensures forall k :: 0 <= k < |paths| && paths[k] != "" && parse(paths[k]).Some? ==>
      parse(paths[k]).value in NewConfigs(paths, parse)
    decreases |paths|
  {
    if paths != [] {
      NewConfigsAreParsed(paths[1..], parse);
      forall c | c in NewConfigs(paths, parse)
        ensures exists k :: 0 <= k < |paths| && paths[k] != "" && parse(paths[k]) == Some(c)
      {
        if c !in NewConfigs(paths[1..], parse) {
          assert parse(paths[0]) == Some(c);
        } else {
          var k :| 0 <= k < |paths[1..]| && paths[1..][k] != "" && parse(paths[1..][k]) == Some(c);
          assert paths[k + 1] == paths[1..][k];
        }
      }
      forall k | 0 <= k < |paths| && paths[k] != "" && parse(paths[k]).Some?
        ensures parse(paths[k]).value in NewConfigs(paths, parse)
      {
        if k > 0 {
          assert paths[1..][k - 1] == paths[k];
        }
      }
    }
  }

  /** `get_client_stats`: every line with a ':' sets its stripped key to its stripped value; None when the command failed. */
  method ClientStats(grep: CommandResult) returns (stats: Option<Record>)
    ensures Failed(grep) ==> stats.None?
    ensures !Failed(grep) ==> stats == Some(FoldFields(map[], Split(grep.output, '\n')))
  {
    if grep.NoResult? || grep.error != "" || grep.output == "" {
      return None;
    }
    var lines := Split(grep.output, '\n');
    var found: Record := map[];
    var i := 0;
    while i < |lines|
      invariant 0 <= i <= |lines|
      invariant FoldFields(found, lines[i..]) == FoldFields(map[], lines)
    {
      var line := lines[i];
      assert lines[i..] == [line] + lines[i + 1..];
      if ':' in line {
        found := found[Strip(Before(line, ':')) := Strip(After(line, ':'))];
      }
      i := i + 1;
    }
    assert lines[i..] == [];
    return Some(found);
  }

  /** In the statistics, the last line naming a key gives its value, and no other key appears. */
  lemma StatsLastWins(output: string, key: string)
    ensures key in FoldFields(map[], Split(output, '\n')) <==> LastField(Split(output, '\n'), key).Some?
    ensures key in FoldFields(map[], Split(output, '\n')) ==>
      FoldFields(map[], Split(output, '\n'))[key] == LastField(Split(output, '\n'), key).value
  {
    FoldFieldsLastWins(map[], Split(output, '\n'), key);
  }

  /** `read_remote_file`: the lines of the output of `cat`, or None when the command failed. */
  function ReadRemoteFile(cat: CommandResult): (lines: Option<seq<string>>)
    ensures lines.Some? <==> !Failed(cat)
  {
    if Failed(cat) then None else Some(SplitLines(cat.output))
  }

  /** `list_remote_files`: the lines of the output of `ls`, or `[]` when the command failed. */
  function ListRemoteFiles(ls: CommandResult): (files: seq<string>)
    ensures Failed(ls) ==> files == []
    ensures !Failed(ls) ==> files == ReadRemoteFile(ls).value
  {
    if Failed(ls) then [] else SplitLines(ls.output)
  }

  /**
   * For output whose only line break is "\n", the remote lines are the
   * pieces between the newlines, a final newline closing the last line
   * rather than opening an empty one.
   */
  lemma RemoteLinesOfNewlineText(r: CommandResult)
    requires !Failed(r) && NewlineOnly(r.output)
    ensures ReadRemoteFile(r) == Some(
      if r.output[|r.output| - 1] == '\n' then Split(r.output[..|r.output| - 1], '\n')
      else Split(r.output, '\n'))
    ensures ListRemoteFiles(r) == ReadRemoteFile(r).value
  {
    SplitLinesOfNewlineText(r.output);
  }
}
