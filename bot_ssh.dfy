/**
 * bot-ssh.py: the bot that administers a remote WireGuard server over SSH.
 * Its state is the operator's delete mode; every command it sends over SSH
 * is represented by the output `ssh_exec` returned for it (None when the
 * command could not be run).
 */
module BotSsh {
  import opened Wrappers
  import opened Text
  import opened Menu
  import opened WgStatus
  import opened Wg0Lookup
  import opened ClientBlocks

  /** `get_wg_configs`: the status parser on the output of `wg show`, or `[]` when that is None or empty. */
  method GetWgConfigs(output: Option<string>) returns (configs: seq<Record>)
    ensures output.None? || output.value == "" ==> configs == []
    ensures output.Some? && output.value != "" ==> configs == ParseStatus(Split(output.value, '\n'))
  {
    if output.None? || output.value == "" {
      return [];
    }
    configs := ParsePeers(output.value);
  }

  /**
   * What the delete flow reads over SSH: the output of `ls` on the client's
   * file after `rm -f`, the lines of wg0.conf, and the output of the
   * restart command.
   */
  datatype DeleteIo = DeleteIo(ls: Option<string>, wg0: Option<seq<string>>, restart: Option<string>)

  /** The operator's reply. */
  datatype Reply =
    | NoAccess
    | MenuReply(choice: Choice)
    | EmptyName
    | ConfNotFound(name: string)
    | NotInWg0(name: string)
    | Removed(name: string, newWg0: seq<string>, restarted: bool)

  /**
   * What a name sent in delete mode leads to: an empty name cancels; a file
   * `ls` still lists after `rm -f` means no such client; then the block is
   * removed only when wg0.conf holds its `# client:` comment. The awk
   * filter then rewrites wg0.conf, whose records are its lines without
   * their newline, and the reply tells whether the restart command returned a result.
   */
  function DeleteOutcome(text: string, io: DeleteIo): Reply {
    var name := Strip(text);
    if name == "" then EmptyName
    else if io.ls.Some? && io.ls.value != "" then ConfNotFound(name)
    else if !(exists i :: 0 <= i < |Lines(io.wg0)| && NamesClient(Lines(io.wg0)[i], name)) then NotInWg0(name)
    else
      var records := ChompAll(Lines(io.wg0));
      Removed(name, AwkOut(RecordKinds(records, name), records, false), io.restart.Some?)
  }

  /** The bot; `chatId` is `str(self.chat_id)`. */
  class SshBot {
    const chatId: string
    var deleteClientMode: bool

    constructor(chatId: string)
      ensures this.chatId == chatId
      ensures !deleteClientMode
    {
      this.chatId := chatId;
      deleteClientMode := false;
    }

    /**
     * `menu_handler`: a stranger is refused and nothing changes; in delete
     * mode the message is a client name, whatever it says; otherwise the
     * text picks a menu entry and only the delete button enters delete mode.
     */
    method MenuHandler(chat: string, text: string, io: DeleteIo) returns (reply: Reply)
      modifies this
      ensures !Authorized(chat, chatId) ==> reply == NoAccess && deleteClientMode == old(deleteClientMode)
      ensures Authorized(chat, chatId) && old(deleteClientMode) ==>
        reply == DeleteOutcome(text, io) && !deleteClientMode
      ensures Authorized(chat, chatId) && !old(deleteClientMode) ==>
        reply == MenuReply(Choose(text)) && deleteClientMode == (text == DeleteButton)
    {
      if chat != chatId {
        return NoAccess;
      }
      if deleteClientMode {
        reply := HandleDeleteClientName(text, io);
        return;
      }
      var choice := Choose(text);
      if choice == StartDelete {
        deleteClientMode := true;
      }
      reply := MenuReply(choice);
    }

    /** `handle_delete_client_name`: the mode is cleared before the name is looked at. */
    method HandleDeleteClientName(text: string, io: DeleteIo) returns (reply: Reply)
      modifies this
      ensures !deleteClientMode
      ensures reply == DeleteOutcome(text, io)
    {
      var name := Strip(text);
      deleteClientMode := false;
      if name == "" {
        return EmptyName;
      }
      if io.ls.Some? && io.ls.value != "" {
        return ConfNotFound(name);
      }
      reply := DeleteClientBlockFromWg0(name, io);
    }

    /**
     * `delete_client_block_from_wg0`: the awk filter runs only after the
     * existence check finds the client's comment.
     */
    method DeleteClientBlockFromWg0(name: string, io: DeleteIo) returns (reply: Reply)
      ensures reply.NotInWg0? <==> !(exists i :: 0 <= i < |Lines(io.wg0)| && NamesClient(Lines(io.wg0)[i], name))
      ensures reply.NotInWg0? ==> reply == NotInWg0(name)
      ensures !reply.NotInWg0? ==>
        var records := ChompAll(Lines(io.wg0));
        reply == Removed(name, AwkOut(RecordKinds(records, name), records, false), io.restart.Some?)
    {
      var found := HasClientComment(io.wg0, name);
      if !found {
        return NotInWg0(name);
      }
      var newWg0 := RunAwk(ChompAll(Lines(io.wg0)), name);
      return Removed(name, newWg0, io.restart.Some?);
    }
  }
}
