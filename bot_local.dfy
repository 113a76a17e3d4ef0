/**
 * bot.py: the bot that administers the WireGuard server it runs on. Its
 * state is the operator's delete mode; what it reads from local commands
 * and files is an input here.
 */
module BotLocal {
  import opened Wrappers
  import opened Text
  import opened Menu
  import opened WgStatus
  import opened ClientBlocks
  import opened ClientConfig

  /** What `subprocess.run` returned: its exit code and standard output. */
  datatype ProcResult = ProcResult(returncode: int, stdout: string)

  /** The directory holding the client configuration files. */
  const ClientsDir: string := "/etc/wireguard/clients/"

  /** `get_wg_configs`: the status parser on the output of `wg show`; None stands for an exception, which gives `[]`. */
  method GetWgConfigs(wgShow: Option<string>) returns (configs: seq<Record>)
    ensures wgShow.None? ==> configs == []
    ensures wgShow.Some? ==> configs == ParseStatus(Split(wgShow.value, '\n'))
  {
    if wgShow.None? {
      return [];
    }
    configs := ParsePeers(wgShow.value);
  }

  /** `[f.strip() for f in stdout.split('\n') if f.strip()]` over the given pieces. */
  function NonBlankStripped(pieces: seq<string>): (names: seq<string>)
    ensures |names| <= |pieces|
    decreases |pieces|
  {
    if pieces == [] then []
    else
      var f := Strip(pieces[0]);
      (if f != "" then [f] else []) + NonBlankStripped(pieces[1..])
  }

  /** `f` is some piece, stripped, and not blank. */
  predicate NonBlankPiece(f: string, pieces: seq<string>) {
    f != "" && exists k :: 0 <= k < |pieces| && Strip(pieces[k]) == f
  }

  /** The names are exactly the non-blank pieces, stripped. */
  lemma {:induction false} NonBlankStrippedSpec(pieces: seq<string>)
    ensures forall f :: f in NonBlankStripped(pieces) <==> NonBlankPiece(f, pieces)
    decreases |pieces|
  {
    if pieces != [] {
      NonBlankStrippedSpec(pieces[1..]);
      forall f
        ensures f in NonBlankStripped(pieces) <==> NonBlankPiece(f, pieces)
      {
        if f != "" && (exists k :: 0 <= k < |pieces| && Strip(pieces[k]) == f) {
          var k :| 0 <= k < |pieces| && Strip(pieces[k]) == f;
          if k > 0 {
            assert Strip(pieces[1..][k - 1]) == f;
          }
        }
        if f in NonBlankStripped(pieces[1..]) {
          var k :| 0 <= k < |pieces[1..]| && Strip(pieces[1..][k]) == f;
          assert Strip(pieces[k + 1]) == f;
        }
      }
    }
  }

  /**
   * `get_wg_config_files`: the listing of the clients directory when `ls`
   * exits with 0, else `[]`; None stands for an exception.
   */
  function GetWgConfigFiles(ls: Option<ProcResult>): (files: seq<string>)
    ensures ls.None? || ls.value.returncode != 0 ==> files == []
  {
    if ls.Some? && ls.value.returncode == 0 then NonBlankStripped(Split(ls.value.stdout, '\n')) else []
  }

  /**
   * When `ls` exits with 0, a name is listed exactly when it is a non-blank
   * line of its output, stripped.
   */
  lemma GetWgConfigFilesSpec(ls: Option<ProcResult>)
    requires ls.Some? && ls.value.returncode == 0
    ensures forall f :: f in GetWgConfigFiles(ls) <==> NonBlankPiece(f, Split(ls.value.stdout, '\n'))
  {
    var pieces := Split(ls.value.stdout, '\n');
    assert GetWgConfigFiles(ls) == NonBlankStripped(pieces);
    NonBlankStrippedSpec(pieces);
  }

  /**
   * What `parse_config_file_info` returns for a path, its lines as
   * `read_file` gave them, and the result of `stat` on it (None for an
   * exception, which is ignored).
   */
  function ParsedConfigInfo(path: string, lines: Option<seq<string>>, stat: Option<ProcResult>): Option<ConfigInfo> {
    if lines.None? || lines.value == [] then None
    else
      var created := if stat.Some? && stat.value.returncode == 0 then Some(Strip(stat.value.stdout)) else None;
      var blank := ConfigInfo(Basename(path), path, created, None, None, None, None);
      Some(Fill(blank, Fields(lines.value)))
  }

  /** `parse_config_file_info`: the record of a client file. */
  method ParseConfigFileInfo(path: string, lines: Option<seq<string>>, stat: Option<ProcResult>)
    returns (info: Option<ConfigInfo>)
    ensures info == ParsedConfigInfo(path, lines, stat)
  {
    if lines.None? || lines.value == [] {
      return None;
    }
    var config := ConfigInfo(Basename(path), path, None, None, None, None, None);
    if stat.Some? && stat.value.returncode == 0 {
      config := config.(createdTime := Some(Strip(stat.value.stdout)));
    }
    config := FillFields(config, lines.value);
    return Some(config);
  }

  /**
   * A file with lines gives a record named after the path's base name, with
   * the creation time only when `stat` exited with 0 and, for each of the
   * four content keys, the value of the last line setting it; a file that
   * could not be read, or is empty, gives none.
   */
  lemma ParsedConfigInfoSpec(path: string, lines: Option<seq<string>>, stat: Option<ProcResult>, slot: Slot)
    ensures ParsedConfigInfo(path, lines, stat).Some? <==> lines.Some? && lines.value != []
    ensures ParsedConfigInfo(path, lines, stat).Some? ==>
      var info := ParsedConfigInfo(path, lines, stat).value;
      info.filename == Basename(path) && info.path == path &&
      (info.createdTime.Some? <==> stat.Some? && stat.value.returncode == 0) &&
      (stat.Some? && stat.value.returncode == 0 ==> info.createdTime == Some(Strip(stat.value.stdout))) &&
      Get(info, slot) == LastSet(Fields(lines.value), slot)
  {
    if lines.Some? && lines.value != [] {
      var created := if stat.Some? && stat.value.returncode == 0 then Some(Strip(stat.value.stdout)) else None;
      var blank := ConfigInfo(Basename(path), path, created, None, None, None, None);
      FillLastWins(blank, Fields(lines.value), slot);
    }
  }

  /** A listed name worth a notification: a `.conf` file whose record could be built. */
  predicate Announced(f: string, parse: string -> Option<ConfigInfo>) {
    EndsWith(f, ".conf") && parse(ClientsDir + f).Some?
  }

  /**
   * With `parse_config_file_info` as the parser, over what `read_file` and
   * `stat` give for each path, a listed name is announced exactly when it
   * ends in `.conf` and its file reads with at least one line.
   */
  lemma AnnouncedIffReadable(f: string, read: string -> Option<seq<string>>, stat: string -> Option<ProcResult>)
    ensures Announced(f, p => ParsedConfigInfo(p, read(p), stat(p))) <==>
      EndsWith(f, ".conf") && read(ClientsDir + f).Some? && read(ClientsDir + f).value != []
  {
    var path := ClientsDir + f;
    ParsedConfigInfoSpec(path, read(path), stat(path), KeySlot);
  }

  /**
   * One pass of the file part of `monitoring_loop`: the listed names not in
   * the previous baseline, those of them that are announced, where `parse`
   * gives what `parse_config_file_info` returns for a path, and the next
   * baseline, which is the current listing on both branches.
   */
  method MonitorConfigFiles(prev: set<string>, listing: seq<string>, parse: string -> Option<ConfigInfo>)
    returns (newFiles: set<string>, notified: set<string>, baseline: set<string>)
    ensures newFiles == (set f | f in listing) - prev
    ensures notified == set f | f in newFiles && Announced(f, parse)
    ensures baseline == set f | f in listing
  {
    var current := set f | f in listing;
    newFiles := current - prev;
    notified := {};
    if newFiles != {} {
      var todo := newFiles;
      while todo != {}
        invariant todo <= newFiles
        invariant notified == set f | f in newFiles - todo && Announced(f, parse)
        decreases todo
      {
        var configFile :| configFile in todo;
        if EndsWith(configFile, ".conf") {
          var configInfo := parse(ClientsDir + configFile);
          if configInfo.Some? {
            notified := notified + {configFile};
          }
        }
        todo := todo - {configFile};
      }
      baseline := current;
    } else {
      baseline := current;
    }
  }

  /** The operator's reply. */
  datatype Reply =
    | NoAccess
    | MenuReply(choice: Choice)
    | EmptyName
    | ConfNotFound(name: string)
    | Wg0Unreadable
    | NotInWg0(name: string)
    | Removed(name: string, written: string, restarted: bool)

  /**
   * What a name sent in delete mode leads to: an empty name cancels; a
   * missing client file means no such client (an existing one is removed);
   * then the block is removed from wg0.conf.
   */
  function DeleteOutcome(text: string, confExists: bool, wg0: Option<seq<string>>, restartOk: bool): Reply {
    var name := Strip(text);
    if name == "" then EmptyName
    else if !confExists then ConfNotFound(name)
    else BlockOutcome(name, wg0, restartOk)
  }

  /**
   * What removing a client's block leads to: an unreadable or empty
   * wg0.conf, or one where no line starts the block, stops there; otherwise
   * the kept lines are written back and the restart is reported.
   */
  function BlockOutcome(name: string, wg0: Option<seq<string>>, restartOk: bool): Reply {
    if wg0.None? || wg0.value == [] then Wg0Unreadable
    else
      var flags := HeadFlags(wg0.value, name);
      if !AnyHead(flags, |flags|) then NotInWg0(name)
      else Removed(name, Written(Kept(flags, wg0.value, 0)), restartOk)
  }

  /**
   * The bot; `chatId` is `str(self.chat_id)`. The delete flow's inputs are
   * whether the client's file exists, the lines of wg0.conf and the result
   * of `restart_wireguard`.
   */
  class LocalBot {
    const chatId: string
    var deleteClientMode: bool

    constructor(chatId: string)
      ensures this.chatId == chatId
      ensures !deleteClientMode
    {
      this.chatId := chatId;
      deleteClientMode := false;
    }

    /**
     * `menu_handler`: a stranger is refused and nothing changes; in delete
     * mode the message is a client name, whatever it says; otherwise the
     * text picks a menu entry and only the delete button enters delete mode.
     */
    method MenuHandler(chat: string, text: string, confExists: bool, wg0: Option<seq<string>>, restartOk: bool)
      returns (reply: Reply)
      modifies this
      ensures !Authorized(chat, chatId) ==> reply == NoAccess && deleteClientMode == old(deleteClientMode)
      ensures Authorized(chat, chatId) && old(deleteClientMode) ==>
        reply == DeleteOutcome(text, confExists, wg0, restartOk) && !deleteClientMode
      ensures Authorized(chat, chatId) && !old(deleteClientMode) ==>
        reply == MenuReply(Choose(text)) && deleteClientMode == (text == DeleteButton)
    {
      if chat != chatId {
        return NoAccess;
      }
      if deleteClientMode {
        reply := HandleDeleteClientName(text, confExists, wg0, restartOk);
        return;
      }
      var choice := Choose(text);
      if choice == StartDelete {
        deleteClientMode := true;
      }
      reply := MenuReply(choice);
    }

    /** `handle_delete_client_name`: the mode is cleared before the name is looked at. */
    method HandleDeleteClientName(text: string, confExists: bool, wg0: Option<seq<string>>, restartOk: bool)
      returns (reply: Reply)
      modifies this
      ensures !deleteClientMode
      ensures reply == DeleteOutcome(text, confExists, wg0, restartOk)
    {
      var name := Strip(text);
      deleteClientMode := false;
      if name == "" {
        return EmptyName;
      }
      if !confExists {
        return ConfNotFound(name);
      }
      reply := DeleteClientBlockFromWg0(name, wg0, restartOk);
    }

    /**
     * `delete_client_block_from_wg0`: nothing is written, and no restart
     * tried, unless the file has lines and one of them starts a block.
     */
    method DeleteClientBlockFromWg0(name: string, wg0: Option<seq<string>>, restartOk: bool) returns (reply: Reply)
      ensures reply == BlockOutcome(name, wg0, restartOk)
    {
      if wg0.None? || wg0.value == [] {
        return Wg0Unreadable;
      }
      var found, newLines := DropBlocks(wg0.value, name);
      if !found {
        return NotInWg0(name);
      }
      var written := Join(newLines, '\n') + "\n";
      return Removed(name, written, restartOk);
    }
  }
}
