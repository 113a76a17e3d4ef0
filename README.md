# WireGuard admin bot — a Dafny model

The repository is a Telegram bot that administers a WireGuard VPN server.
It comes in three parts:

- `bot.py` runs on the server itself.
- `bot-ssh.py` drives a remote server over SSH.
- `wireguard_manager.py` is a helper class that runs commands over SSH and post-processes their output.

The two bots answer only the one chat they are configured for. They read
peers from `wg show` and name peers by looking them up in
`/etc/wireguard/wg0.conf`. `bot.py` also lists and reads the client files
under `/etc/wireguard/clients/`; the SSH bot only removes a client's file and
lists it to confirm. The manager class reads peers and client files over SSH. An operator can delete
a client: its file is removed, its block is cut out of wg0.conf, and
WireGuard is restarted.

This project models the text processing and the decisions of that code. Each
command result, file read and restart result is an input; in the source these
come from `subprocess`, SSH or `open`.

| module | file | models |
|---|---|---|
| `Text` | text.dfy | the Python string operations the code uses: `strip`, `lstrip`, `rstrip`, `lower`, `split`, `split(sep, 1)`, `splitlines`, `startswith`, `endswith`, `in`, `join` |
| `WgStatus` | wg_status.dfy | the `wg show` parser all three files carry (`get_wg_configs`), plus `get_current_peers`, `get_peer_info` and the peer pass of `monitoring_loop` |
| `Wg0Lookup` | wg0_lookup.dfy | the three ways a peer's key is turned into a client name from wg0.conf, and the copy inlined in the SSH bot's client list |
| `ClientBlocks` | client_blocks.dfy | removing a client's block from wg0.conf: the local bot's skip-3 filter, and the SSH bot's existence check plus awk program |
| `ClientConfig` | client_config.dfy | the record the two client-file parsers fill, line by line, and `os.path.basename` |
| `Manager` | manager.dfy | `WireGuardManager`'s post-processing of command results |
| `Menu` | menu.dfy | the reply keyboard, the menu dispatch and the chat check |
| `BotSsh` | bot_ssh.dfy | `bot-ssh.py`'s bot: the delete mode and the delete flow |
| `BotLocal` | bot_local.dfy | `bot.py`'s bot: the delete mode, the delete flow, the client-file listing and parsing, and the file pass of `monitoring_loop` |

`Manager.InterfaceStatus` follows the code of `get_wg_interface_status` in
`wireguard_manager.py`. It returns None only when there is error text. When
the command did not run, it returns that command's output, which is then None.

Some behaviour is stated as lemmas rather than as a corrected model:

- **Prefix match.** The local bot's delete matches a block head by prefix, so deleting `alice` also removes `alice2`'s block (`ClientBlocks.PrefixMatchQuirk`).
- **SSH bot checks disagree.** The SSH bot's existence check and its awk pattern disagree on case and on spacing for every client name (`ClientBlocks.UpperCaseChecked` / `UpperCaseNotAwk`, `TightCommentNotChecked` / `TightCommentAwk`).
- **Key padding lost.** `split('=')[1]` cuts the base64 padding off a `PublicKey` (`ClientConfig.KeyPaddingCut`).

## Model

| member | source | states |
|---|---|---|
| Text.StripBlank | wireguard_manager.py:72 | `s.strip()` is empty exactly when `s` is all whitespace; otherwise it begins and ends with non-whitespace |
| Text.LastOfSplitOnceSpec | bot.py:205 | with a '=' in the line, `split('=', 1)[-1]` is the text after some position that holds '=' and has none before it |
| Text.LastOfSplitOnce | bot.py:205 | `split('=', 1)[-1]` is the text after the first '=' (a position holding '=' with none before it), or the whole line when it has none |
| Text.JoinSplit | bot.py:38 | joining the pieces of `split(sep)` with `sep` gives the text back |
| Text.SplitPieces | bot.py:38 | no piece of `split(sep)` holds `sep`; there is exactly one piece when the text has no `sep` |
| Text.SplitJoin | bot.py:188 | splitting a join of separator-free pieces gives the pieces back |
| Text.SecondPiece | bot.py:300 | `split(sep)[1]` is the text between the first and the second `sep` |
| Text.SplitLinesOfNewlineText | wireguard_manager.py:173 | for text whose only line break is "\n", `splitlines()` is `split('\n')` after dropping one final newline |
| WgStatus.FoldFieldsLastWins | wireguard_manager.py:73-75 | in a record, the last `key: value` line for a key decides its value; keys no line names keep their value |
| WgStatus.ParsePeers | wireguard_manager.py:64-80 | the parsing loop computes `ParseStatus` of the lines of the output |
| WgStatus.ParseStatusIsBlocks | bot-ssh.py:84-96 | the parser returns one record per `peer:` line, in input order: the marker's key under "peer", folded with the `key: value` lines up to the next marker; lines before the first marker are dropped |
| WgStatus.RecordPerMarker | bot.py:38-48 | the number of records is the number of `peer:` lines |
| WgStatus.CurrentPeers | bot.py:249-251 | `get_current_peers`: a key is current exactly when it is non-empty and some record's `peer` holds it |
| WgStatus.CurrentPeersAreMarkerKeys | bot.py:249-251 | `get_current_peers` after the parser gives exactly the non-empty marker keys, provided no attribute line is keyed "peer" |
| WgStatus.PeerInfo | bot-ssh.py:349-354 | `get_peer_info` returns the first record whose "peer" is the key, and None exactly when no record has it |
| WgStatus.MonitorPeers | bot-ssh.py:362-373 | one monitoring pass: the new keys are the current ones not in the baseline; the notified ones are those `get_peer_info` finds; the baseline becomes the current key set on both branches |
| Wg0Lookup.NameByPubkey | bot-ssh.py:274-285 | returns None exactly when no key line holding the key has a `# client:` line one or two lines above it; otherwise returns that name for the first such key line |
| Wg0Lookup.LookbackFinds | bot-ssh.py:282-284 | the two-line look-back returns the nearest `# client:` name within two lines above |
| Wg0Lookup.LookbackMisses | bot-ssh.py:282-284 | the look-back finds nothing when neither of the two lines above is a `# client:` line |
| Wg0Lookup.InlineName | bot-ssh.py:185-194 | the client-list copy answers from the first key line holding the peer only, and answers None for an empty peer or a peer no key line holds |
| Wg0Lookup.InlineAgreesOnFirstHit | bot-ssh.py:185-194 | the inline copy agrees with `find_client_name_by_pubkey` when the first key hit has a name; when it has none, the full lookup can only answer from a later hit |
| Wg0Lookup.CommentByKey | bot-ssh.py:251-272 | `find_client_comment_in_wg0`: the nearest comment above the first line keyed exactly `key` that has one; None exactly when no such line has a comment above it |
| Wg0Lookup.NearestCommentIsNearest | bot.py:207-215 | the backward scan returns a comment above the key line with no comment in between, and None exactly when no line above is a comment |
| Wg0Lookup.PubkeyToNameMap | bot-ssh.py:287-305 | `get_pubkey_to_name_map` computes `NameMapUpTo` over the line kinds |
| Wg0Lookup.NameMapKeys | bot-ssh.py:296-301 | a key is in the map exactly when some `PublicKey` line carries it while a name is pending |
| Wg0Lookup.NameMapLastWins | bot-ssh.py:299-301 | the last `PublicKey` line with a pending name decides the key's name |
| Wg0Lookup.PendingFromComment | bot-ssh.py:295-296 | a `# client:` line followed only by lines of no kind leaves its name pending |
| Wg0Lookup.PendingNeedsComment | bot-ssh.py:295-303 | a name is pending only after a `# client:` line with no `PublicKey`, `[Peer]` or `# client:` line after it |
| ClientBlocks.DropBlocks | bot.py:171-182 | `found` holds exactly when some line starts a block for the name; the kept lines are `Kept` of the lines |
| ClientBlocks.KeptWithoutHead | bot.py:180-182 | with no block head, every line is kept, chomped, in order |
| ClientBlocks.KeptAfterSkip | bot.py:175-177 | lines under the skip count are dropped whatever they hold |
| ClientBlocks.KeptBeforeHead | bot.py:182 | lines before the first head are kept, chomped |
| ClientBlocks.BlockDropped | bot.py:178-181 | the first head and the three lines after it are dropped; the rest is filtered afresh |
| ClientBlocks.PrefixMatchQuirk | bot.py:178 | the head test is a prefix test: for every name and suffix, `# client: <name><suffix>` starts a block for `<name>` (so `alice2`'s block goes with `alice`) |
| ClientBlocks.WrittenReadsBack | bot.py:187-188 | the text written back, split on "\n", gives the kept lines plus the empty piece after the final newline; with nothing kept it is a lone newline |
| ClientBlocks.ChompedHasNoNewline | bot.py:182 | a line read with its terminator has no newline after `rstrip('\n')` |
| ClientBlocks.HasClientComment | bot-ssh.py:225-233 | the existence check is true exactly when some line of wg0.conf, stripped and lower-cased, equals `# client: <name>` |
| ClientBlocks.RunAwk | bot-ssh.py:237-240 | the awk program prints `AwkOut` of the records |
| ClientBlocks.AwkBeforeNamed | bot-ssh.py:238 | records before the first comment naming the client are printed unchanged |
| ClientBlocks.AwkSkipsPlain | bot-ssh.py:238 | while the delete flag is set, non-comment records are dropped |
| ClientBlocks.AwkWithoutNamed | bot-ssh.py:238 | with no comment naming the client, the file comes back unchanged |
| ClientBlocks.AwkDropsBlock | bot-ssh.py:238 | the named comment and the records up to the next client comment are dropped; that next comment is printed |
| ClientBlocks.UpperCaseChecked | bot-ssh.py:230 | for every stripped, non-empty name, the existence check accepts `# CLIENT: <name>` |
| ClientBlocks.UpperCaseNotAwk | bot-ssh.py:238 | for every name, the awk pattern does not match `# CLIENT: <name>`, so the block stays |
| ClientBlocks.TightCommentNotChecked | bot-ssh.py:230 | for every name, the existence check rejects `#client: <name>` |
| ClientBlocks.TightCommentAwk | bot-ssh.py:238 | for every name, the awk pattern matches `#client: <name>` |
| ClientConfig.BasenameSpec | wireguard_manager.py:123 | `os.path.basename` gives the path's suffix after its last '/', which holds no '/' |
| ClientConfig.FillLastWins | wireguard_manager.py:139-148 | each of the four content keys ends with the value of the last line setting it, or keeps its value; file name, path and creation time are untouched |
| ClientConfig.ApplyLine | bot.py:298-306 | one line, stripped and tested in `elif` order, updates the record as `FieldOf` says |
| ClientConfig.FillFields | wireguard_manager.py:139-148 | the extraction loop computes `Fill` over the lines' fields |
| ClientConfig.KeyLineField | bot.py:301-302 | a stripped `PublicKey =` line sets the public key to its second '=' piece, stripped |
| ClientConfig.KeyPaddingCut | wireguard_manager.py:143-144 | from `PublicKey =k=` the key read is `k`, stripped: the final '=' padding is lost |
| Manager.GetWgConfigs | wireguard_manager.py:55-80 | `[]` when the command failed (error text, no output, no connection); otherwise the status parser on the output |
| Manager.InterfaceStatus | wireguard_manager.py:82-90 | the output is returned exactly when there is no error text, and a command that did not run gives None |
| Manager.ParseConfigFile | wireguard_manager.py:114-150 | `parse_config_file` computes `ParsedConfig` |
| Manager.ParsedConfigSpec | wireguard_manager.py:114-150 | a record exactly when `cat` succeeded: named after the base name, with the creation time from `stat` and each content key from its last line |
| Manager.GetNewConfigs | wireguard_manager.py:92-112 | `[]` when `find` failed; otherwise the records of the listed non-empty paths, in order |
| Manager.NewConfigsAreParsed | wireguard_manager.py:105-110 | every record comes from a listed non-empty path that parses, and every such path contributes its record |
| Manager.ClientStats | wireguard_manager.py:152-166 | None when the command failed; otherwise every line with ':' sets its stripped key to its stripped value |
| Manager.StatsLastWins | wireguard_manager.py:162-164 | in the statistics a key appears exactly when some line names it, and the last such line gives its value |
| Manager.ReadRemoteFile | wireguard_manager.py:168-173 | the lines of the output exactly when the command did not fail |
| Manager.ListRemoteFiles | wireguard_manager.py:175-180 | `[]` when the command failed; otherwise the same lines `read_remote_file` gives for the output |
| Manager.RemoteLinesOfNewlineText | wireguard_manager.py:173 | for "\n"-only output, the remote lines are the pieces between newlines, with no empty last line for a final newline |
| Menu.Authorized | bot.py:102 | a chat is served exactly when its id, as text, equals the configured id character for character |
| Menu.Choose | bot.py:109-117 | only the delete button's exact text starts a delete; any text other than the three button texts is unknown |
| BotSsh.GetWgConfigs | bot-ssh.py:78-96 | `[]` for no or empty output; otherwise the status parser on the output |
| BotSsh.SshBot.constructor | bot-ssh.py:27-30 | a new bot is not in delete mode |
| BotSsh.SshBot.MenuHandler | bot-ssh.py:143-159 | a stranger gets no access and the mode is kept; in delete mode the text is a client name and the mode is cleared; otherwise the menu choice, and only the delete button sets the mode |
| BotSsh.SshBot.HandleDeleteClientName | bot-ssh.py:206-221 | the mode is cleared; an empty name cancels; a file `ls` still lists means no such client; otherwise the block is removed |
| BotSsh.SshBot.DeleteClientBlockFromWg0 | bot-ssh.py:223-249 | reports the client missing exactly when no line passes the existence check; otherwise wg0.conf becomes the awk output of its lines, and the reply says whether the restart command returned a result |
| BotLocal.GetWgConfigs | bot.py:32-52 | `[]` when running `wg show` raised; otherwise the status parser on its output |
| BotLocal.NonBlankStrippedSpec | bot.py:265 | the listed names are exactly the non-blank lines of `ls`, stripped |
| BotLocal.GetWgConfigFiles | bot.py:260-270 | `[]` unless `ls` ran and exited with 0 |
| BotLocal.GetWgConfigFilesSpec | bot.py:263-266 | when `ls` exits with 0, a name is listed exactly when it is a non-blank line of its output, stripped |
| BotLocal.ParseConfigFileInfo | bot.py:272-311 | `parse_config_file_info` computes `ParsedConfigInfo` |
| BotLocal.ParsedConfigInfoSpec | bot.py:272-311 | a record exactly when the file has lines: named after the base name, with a creation time exactly when `stat` exited with 0 and then equal to its stripped output, and each content key from its last line |
| BotLocal.MonitorConfigFiles | bot.py:334-350 | one monitoring pass over the client files: the new names are the listed ones not in the baseline; the notified ones are the new `.conf` files whose record could be built; the baseline becomes the listing on both branches |
| BotLocal.AnnouncedIffReadable | bot.py:339-342 | with `parse_config_file_info` as the parser, a new name is announced exactly when it ends in `.conf` and its file reads with at least one line |
| BotLocal.LocalBot.constructor | bot.py:25-28 | a new bot is not in delete mode |
| BotLocal.LocalBot.MenuHandler | bot.py:101-117 | a stranger gets no access and the mode is kept; in delete mode the text is a client name and the mode is cleared; otherwise the menu choice, and only the delete button sets the mode |
| BotLocal.LocalBot.HandleDeleteClientName | bot.py:150-164 | the mode is cleared; an empty name cancels; a missing client file means no such client; otherwise the block is removed |
| BotLocal.LocalBot.DeleteClientBlockFromWg0 | bot.py:166-195 | an unreadable or empty wg0.conf stops; no block head means the client is missing; otherwise the kept lines are written back joined by "\n" with a final newline, and the restart result is reported |

## Left out

- Telegram: the reply texts, the keyboard markup, `/start`, `show_status_menu`, the message building of `show_clients_menu` and `send_new_client_notification`, and the 20-character key truncation. Replies are modelled as a `Reply` value naming the outcome.
- Processes, SSH and files are inputs. This covers `subprocess.run`, paramiko and the cached `ssh_client`, `ssh_connect`, `connect`/`disconnect`, `open`, `os.path.exists`, `os.remove`, and `rm -f`. The SSH bot's `rm -f` is therefore not modelled, only the `ls` after it. `restart_wireguard` is reduced to its boolean result.
- `execute_command` and `ssh_exec` are represented by their result: `CommandResult`, or an `Option` of the output.
- `get_wg_interface_status` in the two bots runs `wg show` locally and returns its output; it has no logic to model.
- `bot.py`'s `get_wg_configs` takes the output of `wg show`, with None standing for an exception. A non-zero exit status is not modelled, since the code ignores it.
- Threads, `asyncio`, `time.sleep` and the `while True` of `monitoring_loop`: only one pass is modelled. In `MonitorPeers` the per-key `get_peer_info` re-reads of `wg show` are one later status snapshot.
- Exceptions caught inside the handlers are not modelled; they lead to an error reply.
- WgStatus.MonitorPeers: models a pass that completes. In `monitoring_loop` (bot.py:317-355, bot-ssh.py:362-377) an exception while notifying skips the `prev_peers` update, so the old baseline is kept; this aborted pass is not modelled.
- BotLocal.MonitorConfigFiles: models a pass that completes. In bot.py an exception in the peer part of `monitoring_loop` skips the whole file scan, and one while notifying a new file skips the `prev_config_files` update (bot.py:348); both keep the old file baseline, and neither aborted pass is modelled.
- Text.Lower: lower-cases ASCII letters only, not the rest of Unicode.
- `read_file` in `bot.py` (`readlines`) is an input: the lines with their terminators. In `bot-ssh.py` (`splitlines(keepends=True)`) it is also an input, the lines of wg0.conf.
- ClientBlocks.RunAwk: awk's records are taken to be the lines `read_file` returned, without their newline. A `{name}` holding regular-expression metacharacters is read literally. The write to `wg0.conf.tmp` and the `mv` are not modelled.
- BotLocal.LocalBot.DeleteClientBlockFromWg0: the new content is returned as text. The write to wg0.conf is not performed.
- Manager.GetNewConfigs: the `-newermt` time filter of `find` lies in the listing that is the input; `last_check_time` is not modelled.
- ClientConfig.ConfigInfo: `bot.py` leaves `created_time` absent when `stat` fails, while `wireguard_manager.py` sets it to None. The model uses None for both.
- `config.py`, `run_bot.py` and `test_connection.py` are configuration and start-up code, and are not part of this model.
